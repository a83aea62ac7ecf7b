# Verified models of the head-unit display and input shims

The shims are preloaded into a car's infotainment processes. They turn navigation
messages from a phone into head-up-display frames, touch-panel events into Android-style
pointer events, and mute changes into media keys. This project models their state machines
and codecs in Dafny and proves what they guarantee over every input, every run and every
interleaving.

| files | what they model |
|---|---|
| `Machine.dfy` | fixed-width integers and C strings |
| `Touch.dfy`, `TouchDevice.dfy` | the multi-touch reader and the frame differ, with the receiver that replays its events |
| `Wire.dfy`, `Nav16.dfy`, `Nav16Reader.dfy`, `Nav16RoundTrip.dfy` | the Protocol Buffers reader for GAL 1.6 navigation messages, an encoder, and the round trip |
| `Lanes.dfy`, `LaneSigns.dfy` | lane masks to lane codes and back to their meaning, and the glyphs the cluster draws for them |
| `Distances.dfy`, `Glyphs.dfy` | display distances, turn icons and the three roundabout formulas |
| `Nav16Feed.dfy`, `FeedRuns.dfy`, `Nav16Phone.dfy`, `PhoneDisplay.dfy` | the accumulator with its change gate, its writes interleaved with the sender's reads, the path from a raw frame to the cluster, and what the driver then reads of the message |
| `Pictures.dfy` | the glyph atlas as pictures, the maneuvers of both phones in them, lengths behind the units, printed numbers |
| `Translit.dfy`, `TranslitInPlace.dfy`, `Letters.dfy` | the UTF-8 fold as a function of tokens, in place with two cursors, and the letters it gives |
| `Seqlock.dfy` | the lock-free snapshot protocol as interleaved steps |
| `VbsTx.dfy`, `VbsSender.dfy`, `SvcnaviSender.dfy`, `Transports.dfy` | the two Android Auto transports, the cluster, and both end to end |
| `Merge.dfy` | the merge of Android Auto and OEM frames inside the navigation service |
| `CarplayHud.dfy`, `CarplayDisplay.dfy`, `CarplayLatest.dfy`, `CarplayReads.dfy`, `CarplaySender.dfy` | the CarPlay sender with keep-alive, blinking sign and navigation end, what it leaves on the cluster, when that is the latest write, and what the driver reads of it |
| `NavWindow.dfy`, `NavReceiver.dfy`, `NavMessages.dfy` | the CarPlay maneuver window, head selection and deliveries, from the bytes of the messages |
| `MediaKeys.dfy` | the mute latch and the media-key filter |

`dafny verify dfyconfig.toml` checks the whole project.

## Reading the model

Code that updates state is a class or a loop over an array; each of its methods is proved
against a function of the inputs and the old state, and the properties are lemmas about
those functions over whole histories. A history is a sequence of calls or events; what it
means is defined from the history alone (`Merge.Claimed`, `NavWindow.Window`,
`Nav16Feed.FreshDistance`, `TouchDevice.LastX`) and the state is proved to agree. What a
table or a frame contains is proved against the input it came from: the finger, the letter,
the arrow, the number and the field of the message.

Threads are state machines over their atomic actions, interleaved in every order. The
outside world is a parameter: the clock, focus and playing state, whether a transport is
active at each write, return codes of OEM calls, files read. A send appends a frame to a
ghost trace.

Some promises hold only under a condition; then the condition is exact.

- A frame of touch events obeys the strict pointer protocol exactly when it releases at
  most one slot. The weaker promise, that replaying the events leaves the receiver with
  the current fingers, holds always.
- Folding twice equals folding once exactly for placeholders that can neither complete a
  stray lead byte nor open a long sequence; 0 and every ASCII byte are among them.
- A CarPlay navigation end keeps the maneuver off exactly with the speed limit shown and
  the debug overlay off. With the limit off the comment at
  `mazda/patches/blmjcicarplay/hud/hud_send.cpp:645-647` calls the guard inert; the next
  distance update then repaints the ended maneuver.
- The display refinement assumes the HUD present and sends accepted. When frames are lost,
  each part of the cluster shows what the last arrived frame of its kind carried
  (`VbsTx.LossyRun`), and is up to date exactly when that is the latest.
- A change gate in front of an inactive transport takes a dropped write for a sent one and
  holds the frame back when it comes again, and each of the three writes of a callback can
  be dropped on its own (`Nav16Feed.DroppedFrameHeldBack`, `Nav16Feed.LateActivation`).
  `Nav16Feed.SnapshotHistory` says for every history what the transport holds, and that it
  is up to date exactly when the last write taken of each kind carries the current part.
- One navigation callback is three writes, and a sender may read between them. What it
  reads is what some history held in which the later writes were dropped
  (`FeedRuns.CopyReads`, `FeedRuns.FeedCopies`). It shows a new maneuver with an earlier
  maneuver's distance exactly when a guidance changed maneuver or road while a distance was
  held and its own distance write has not arrived (`FeedRuns.CopyShows`).
- A sleeping CarPlay sender holds the maneuver written last exactly when its latest paint
  or clear took that over (`CarplayLatest.SleepsUpToDate`). A turn written and raised
  between its read and a clear counts as processed (`CarplayLatest.TurnMissed`).
- Wrapped 32-bit counters are compared faithfully whenever fewer than 2^31 writes lie
  between two looks, and `Seqlock.TornAfterWrap` shows that 2^31 are too many.
- The two roundabout formulas and the distance parse agree with their references exactly
  where `Glyphs.Roundabout15Agrees` and `Distances.ParseExact` say.

## Model

| member | source | states |
|---|---|---|
| `Touch.InsertIntoSnapshot` | mazda/patches/blmjciaapa/touch/touch_send.cpp:168-183 | inserting a finger into a slot-ordered snapshot gives the slot-ordered snapshot of the larger slot set, the finger at the reported position |
| `Touch.GrownIsSnapshot` | mazda/patches/blmjciaapa/touch/touch_send.cpp:273-291 | adding the new fingers one by one to the survivors gives the snapshot of survivors and new fingers |
| `Touch.ReceiveUp` | mazda/patches/blmjciaapa/touch/touch_send.cpp:246-271 | a release event names the released finger, and a receiver that drops the indexed pointer holds exactly the survivors |
| `Touch.ReceiveDown` | mazda/patches/blmjciaapa/touch/touch_send.cpp:273-291 | a press event names the new finger, and dropping it gives back the pointers held before |
| `Touch.FrameResynchronises` | mazda/patches/blmjciaapa/touch/touch_send.cpp:193-306 | a frame that sends anything brings any receiver, whatever it held, to the active fingers in slot order |
| `Touch.SilentFrame` | mazda/patches/blmjciaapa/touch/touch_send.cpp:227-243 | a frame that sends nothing has changed no active finger |
| `Touch.FrameReplay` | mazda/patches/blmjciaapa/touch/touch_send.cpp:193-306 | replaying the events of a frame takes a receiver from the previous active fingers to the current ones |
| `Touch.UpEventListsTooFew` | mazda/patches/blmjciaapa/touch/touch_send.cpp:255-270 | with two or more releases in a frame a release event breaks the pointer protocol |
| `Touch.StrictProtocol` | mazda/patches/blmjciaapa/touch/touch_send.cpp:246-303 | the events of a frame obey the pointer protocol if and only if at most one slot is released in it |
| `TouchDevice.BuildSurvivors` | mazda/patches/blmjciaapa/touch/touch_send.cpp:153-166 | the survivors array is the slot-ordered snapshot of the fingers present in both frames |
| `TouchDevice.InsertSorted` | mazda/patches/blmjciaapa/touch/touch_send.cpp:171-183 | in-place insertion into the fixed array: contents and returned position |
| `TouchDevice.TouchSender.OnFrame` | mazda/patches/blmjciaapa/touch/touch_send.cpp:193-306 | one frame in place: the events sent and the snapshot remembered |
| `TouchDevice.TouchReader.Handle` | mazda/patches/blmjciaapa/touch/touch.cpp:200-251 | one input event: the slot, the panel, and for a frame (overflow included) what is sent |
| `TouchDevice.RunReader` | mazda/patches/blmjciaapa/touch/touch.cpp:155-252 | a whole event stream from reset: sent events, panel, slot and last frame |
| `TouchDevice.RunReplay` | mazda/patches/blmjciaapa/touch/touch_send.cpp:193-306 | over every event stream the receiver ends up holding the fingers of the last frame, with ids and scaled positions |
| `TouchDevice.SlotSelected` | mazda/patches/blmjciaapa/touch/touch.cpp:203-210 | the slot selected is the one named last, slot 0 for a number out of range |
| `TouchDevice.PanelSlot` | mazda/patches/blmjciaapa/touch/touch.cpp:211-221 | each slot holds the last id, horizontal and vertical position received while it was selected, since the last overflow |
| `TouchDevice.PointersReported` | mazda/patches/blmjciaapa/touch/touch_send.cpp:51-61 | over every event stream the phone ends up with one pointer for each finger down at the last completed frame, in slot order, at its reported position scaled to 800 by 480 |
| `TouchDevice.RunStrict` | mazda/patches/blmjciaapa/touch/touch_send.cpp:246-303 | a whole run obeys the pointer protocol if and only if no frame of it releases two slots |
| `TouchDevice.TwoReleasesBreakProtocol` | mazda/patches/blmjciaapa/touch/touch_send.cpp:255-270 | the event stream that puts two fingers down and lifts both in one frame breaks the protocol |
| `Wire.VarintRoundTrip` | mazda/patches/blmjciaapa/hud/hud_nav16.cpp:23-33 | every 64-bit value is read back from its base-128 encoding, whatever follows it |
| `Wire.RecordRoundTrip` | mazda/patches/blmjciaapa/hud/hud_nav16.cpp:35-65 | every field of wire type 0, 1, 2 or 5 is read back with its number, value and length |
| `Wire.RecordsRoundTrip` | mazda/patches/blmjciaapa/hud/hud_nav16.cpp:35-65 | an encoded message is read back as its fields in order |
| `Wire.FoldStrip` | mazda/patches/blmjciaapa/hud/hud_nav16.cpp:76-182 | a decoder that ignores unknown fields at one level gives the same result without any of them at any level |
| `Nav16Reader.Pb.RdVarint` | mazda/patches/blmjciaapa/hud/hud_nav16.cpp:23-33 | the cursor loop reads exactly the varint at the front, or fails on a truncated or overlong one |
| `Nav16Reader.Pb.RdTag` | mazda/patches/blmjciaapa/hud/hud_nav16.cpp:35-43 | a tag read splits the field at the front, or there is none |
| `Nav16Reader.Pb.RdBytes` | mazda/patches/blmjciaapa/hud/hud_nav16.cpp:46-53 | a length-delimited value is returned and passed, never beyond the end |
| `Nav16Reader.Pb.Skip` | mazda/patches/blmjciaapa/hud/hud_nav16.cpp:55-65 | a skipped field is one record of its wire type; groups are refused |
| `Nav16Reader.DecDistance` | mazda/patches/blmjciaapa/hud/hud_nav16.cpp:76-86 | the loop computes the fold over the well-formed fields of any byte string |
| `Nav16Reader.DecRoadName` | mazda/patches/blmjciaapa/hud/hud_nav16.cpp:89-96 | the last road name, truncated to the buffer |
| `Nav16Reader.DecLaneDirection` | mazda/patches/blmjciaapa/hud/hud_nav16.cpp:99-112 | the last shape and highlight are marked once, shapes above 9 not at all |
| `Nav16Reader.DecLane` | mazda/patches/blmjciaapa/hud/hud_nav16.cpp:115-122 | the lane accumulates its directions |
| `Nav16Reader.DecManeuver` | mazda/patches/blmjciaapa/hud/hud_nav16.cpp:125-134 | the maneuver fields, last one wins |
| `Nav16Reader.DecStep` | mazda/patches/blmjciaapa/hud/hud_nav16.cpp:137-154 | maneuver, road and up to eight lanes of a step |
| `Nav16Reader.DecStepDistance` | mazda/patches/blmjciaapa/hud/hud_nav16.cpp:157-167 | the step distance of a position |
| `Nav16Reader.DecDestDistance` | mazda/patches/blmjciaapa/hud/hud_nav16.cpp:170-182 | the destination distance and arrival time of a position |
| `Nav16Reader.HudNav16DecodeNavstate` | mazda/patches/blmjciaapa/hud/hud_nav16.cpp:316-330 | the navigation state of any byte string: step 0 decoded, all steps counted |
| `Nav16Reader.HudNav16DecodePosition` | mazda/patches/blmjciaapa/hud/hud_nav16.cpp:332-347 | the position of any byte string: the first destination only |
| `Nav16Reader.HudNav16ReadStatus` | mazda/patches/blmjciaapa/hud/hud_nav16.cpp:365-382 | the first status before any malformed field, and found if and only if there is one |
| `Nav16RoundTrip.NavStateRoundTrip` | mazda/patches/blmjciaapa/hud/hud_nav16.cpp:316-330 | every navigation state, any field or sub-message field absent, with well-formed unknown fields inserted at any nesting level, decodes to its normal form |
| `Nav16RoundTrip.PositionRoundTrip` | mazda/patches/blmjciaapa/hud/hud_nav16.cpp:332-347 | the same for every position |
| `Nav16RoundTrip.NormalLaneShapes` | mazda/patches/blmjciaapa/hud/hud_nav16.cpp:98-122 | a decoded lane holds exactly the shapes 0..9 sent, and those sent highlighted; a direction without a shape marks nothing |
| `Nav16RoundTrip.DecodedLaneCodes` | mazda/patches/blmjciaapa/hud/hud.cpp:65-78 | whatever bytes arrive: at most eight lanes, highlights within the shapes present, codes 0..70, 0 exactly for an empty slot, 1..48 exactly for a highlighted lane |
| `Lanes.Classify` | mazda/patches/blmjciaapa/hud/hud_lane.h:263-293 | the code of a pair of direction sets |
| `Lanes.AccumulateDirs` | mazda/patches/blmjciaapa/hud/hud_lane.h:263-285 | the loop over the shape masks collects the direction sets |
| `Lanes.CodeMeaning` | mazda/patches/blmjciaapa/hud/hud_lane.h:187-293 | read back through the code table, a lane code shows the lane's arrows and recommends a highlighted one |
| `Lanes.LaneCodeRange` | mazda/patches/blmjciaapa/hud/hud_lane.h:263-293 | the code of a lane is in range, 0 only for an empty lane and 1..48 only for a highlighted one |
| `LaneSigns.ShapeDirection` | mazda/patches/blmjciaapa/hud/hud_lane.h:165-179 | odd lane shapes point right, even ones left, in the order slight, normal, sharp; 0 and 1 ahead |
| `LaneSigns.DirsExactly` | mazda/patches/blmjciaapa/hud/hud_lane.h:263-270 | a direction is collected if and only if some shape of the lane points there |
| `LaneSigns.GlyphDrawn` | mazda/patches/blmjciaapa/hud/hud_lane.h:311-334 | the glyph of every code a lane can get agrees with the meaning of the code: recommended or grey, the way to take or the sides shown, sharp or not |
| `LaneSigns.LaneIsDrawn` | mazda/patches/blmjciaapa/hud/hud_lane.h:263-334 | a lane with arrows is drawn, recommended if and only if a direction is highlighted, pointing the highlighted way |
| `LaneSigns.SlotDrawn` | mazda/patches/blmjciaapa/hud/vbs_tx.cpp:266-272 | a slot is hidden if and only if its code is empty, otherwise it draws the glyph of the code |
| `LaneSigns.LanesSeen` | mazda/patches/blmjciaapa/hud/vbs_tx.cpp:257-281 | after any snapshots the cluster draws each lane of the latest one |
| `Lanes.EncodeLaneCodes` | mazda/patches/blmjciaapa/hud/hud.cpp:70-78 | the eight codes in place, hidden beyond the last lane |
| `Translit.FoldBaseRange` | mazda/patches/common/translit.h:58-102 | the base of a code point is below U+0800, and non-zero exactly in the folded block |
| `Translit.FoldTwice` | mazda/patches/common/translit.h:137-222 | folding twice equals folding once for every byte string and settled placeholder |
| `Translit.IdempotentExactly` | mazda/patches/common/translit.h:137-222 | folding is idempotent on all C strings if and only if the placeholder is below 0x80, a two-byte lead, or at least 0xF8 |
| `Translit.FoldShrinks` | mazda/patches/common/translit.h:128-136 | the fold never lengthens a string, and a replaced sequence shortens it |
| `Translit.DecodeExactly` | mazda/patches/common/translit.h:146-204 | the reference decoder accepts exactly the UTF-8 encodings (RFC 3629 sections 3 and 4) of scalar values |
| `Translit.ImageDrawable` | mazda/patches/common/translit.h:117-135 | below U+0800 nothing changes, the folded block is gone, and with a placeholder nothing at or above U+0800 is left |
| `Translit.FoldMeaning` | mazda/patches/common/translit.h:137-222 | on well-formed text the fold is well-formed text, the pointwise image of the original |
| `Letters.FoldBaseLetter` | mazda/patches/common/translit.h:67-101 | every code point of the block has the letter its range says: even ones the capital, odd ones its small letter, Vietnamese ones with circumflex, breve or horn |
| `Letters.LetterFolded` | mazda/patches/common/translit.h:146-204 | a character of the block folds to that letter, whatever the placeholder |
| `Letters.FoldedReads` | mazda/patches/common/translit.h:137-222 | well-formed text folds to those letters, one by one, and never to nothing |
| `TranslitInPlace.TokenLength` | mazda/patches/common/translit.h:147-204 | classification by lead byte and continuation bytes, never looking beyond the terminator |
| `TranslitInPlace.WriteUtf8` | mazda/patches/common/translit.h:106-115 | the one or two bytes written |
| `TranslitInPlace.FoldToken` | mazda/patches/common/translit.h:146-219 | one turn: the token's image before the write cursor, nothing unread overwritten |
| `TranslitInPlace.Fold` | mazda/patches/common/translit.h:137-222 | the in-place two-cursor loop, no-copy start included, computes the fold of the original string and leaves everything behind it alone |
| `Seqlock.RunKeeps` | mazda/patches/blmjciaapa/hud/vbs_tx.cpp:409-422 | every step of either thread keeps the protocol invariant |
| `Seqlock.AcceptedCopiesExact` | mazda/patches/blmjciaapa/hud/vbs_tx.cpp:409-428 | in every interleaving an accepted copy is the snapshot of completed write number s2/2, and accepted copies never go back |
| `Seqlock.CloseIsFaithful` | mazda/patches/blmjciaapa/hud/vbs_tx.cpp:452-454 | fewer than 2^32 increments of the counter cannot be mistaken for none |
| `Seqlock.TornAfterWrap` | mazda/patches/blmjciaapa/hud/vbs_tx.cpp:414-422 | with exactly 2^31 writes during one read a mixed copy is accepted |
| `VbsTx.BumpAdvances` | mazda/patches/blmjciaapa/hud/vbs_tx.cpp:217-220 | a bumped sync is a different value, one place on in the cycle 1..7 |
| `VbsTx.RedrawShows` | mazda/patches/blmjciaapa/hud/vbs_tx.cpp:153-285 | a full redraw shows its snapshot in step, whatever was shown before |
| `VbsTx.DiffShows` | mazda/patches/blmjciaapa/hud/vbs_tx.cpp:153-285 | the differences leave the cluster showing what a full redraw would, maneuver and street with one sync and visible lanes in its generation |
| `VbsTx.DisplayRefinement` | mazda/patches/blmjciaapa/hud/vbs_tx.cpp:405-428 | the same after any sequence of snapshots |
| `VbsTx.LostFrames` | mazda/patches/blmjciaapa/hud/vbs_tx.cpp:238-284 | when frames of one turn are lost, a cluster that was up to date stays so if and only if every lost part had not changed |
| `VbsTx.LossyRun` | mazda/patches/blmjciaapa/hud/vbs_tx.cpp:156-160 | over any run with losses and an absent HUD, each part of the cluster shows what the last arrived frame of its kind carried |
| `VbsTx.LossyUpToDate` | mazda/patches/blmjciaapa/hud/vbs_tx.cpp:424-428 | so it is up to date if and only if each of these agrees with the latest snapshot |
| `VbsTx.TurnRepairs` | mazda/patches/blmjciaapa/hud/vbs_tx.cpp:206-215 | a turn that sends all three kinds, all arriving, repairs every earlier loss |
| `VbsSender.AnyVisible` | mazda/patches/blmjciaapa/hud/vbs_tx.cpp:211-214 | the loop finds a visible lane if and only if there is one |
| `VbsSender.EncodeWire` | mazda/patches/blmjciaapa/hud/vbs_tx.cpp:266-272 | the glyphs of the eight codes, empty slots hidden |
| `VbsSender.VbsTxState.OnStatus` | mazda/patches/blmjciaapa/hud/vbs_tx.cpp:527-549 | a stop blanks the snapshot in one write, a start writes nothing, an inactive sender drops the event |
| `VbsSender.VbsTxState.OnNextTurn` | mazda/patches/blmjciaapa/hud/vbs_tx.cpp:551-570 | road and glyph in one write |
| `VbsSender.VbsTxState.OnDistance` | mazda/patches/blmjciaapa/hud/vbs_tx.cpp:572-583 | distance and unit in one write |
| `VbsSender.VbsTxState.OnLanes` | mazda/patches/blmjciaapa/hud/vbs_tx.cpp:585-599 | the lane codes in one write |
| `VbsSender.VbsTxState.SendOne` | mazda/patches/blmjciaapa/hud/vbs_tx.cpp:153-285 | the frames queued and the sync they carry |
| `VbsSender.VbsTxState.SenderTurn` | mazda/patches/blmjciaapa/hud/vbs_tx.cpp:424-428 | a fresh snapshot is taken over, sent if the HUD is present, and then shown by a cluster in step; a processed one changes nothing |
| `VbsSender.VbsTxState.SenderTeardown` | mazda/patches/blmjciaapa/hud/vbs_tx.cpp:345-378 | winding down blanks maneuver, distance and lanes, and leaves the street |
| `Transports.VbsShowsLatestWrite` | mazda/patches/blmjciaapa/hud/vbs_tx.cpp:390-449 | in every interleaving, a sender that sleeps because it processed the current count has the cluster showing the latest completed write |
| `Transports.SvcnaviEmitsInOrder` | mazda/patches/blmjciaapa/hud/svcnavi_tx.cpp:241-262 | each write is signalled at most once and in order, and a sleeping sender has signalled the latest |
| `SvcnaviSender.SvcnaviTxState.SenderTurn` | mazda/patches/blmjciaapa/hud/svcnavi_tx.cpp:253-256 | every fresh snapshot is signalled as it is, with the sentinel speed |
| `SvcnaviSender.SignalledLanesAccepted` | mazda/patches/blmjciaapa/hud/svcnavi_tx.cpp:123-128 | whatever the phone sent, the lane arguments signalled lie in 0..0x46 |
| `Glyphs.Roundabout16Sector` | mazda/patches/blmjciaapa/hud/hud_nav16.cpp:253-259 | the 1.6 glyph names exactly the 30-degree sector holding the angle, stays in its bank of twelve, and repeats every 360 degrees |
| `Glyphs.CarplayMirrors` | mazda/patches/blmjcicarplay/hud/hud_send.cpp:162-176 | the CarPlay icon is the 1.6 glyph at 180 minus the angle |
| `Glyphs.Roundabout15Agrees` | mazda/patches/blmjciaapa/hud/hud_nav.h:114-119 | the 1.5 formula agrees with the 1.6 glyph if and only if its truncated quotient was exact or not negative, and its sector number modulo 768 is below twelve |
| `Glyphs.Roundabout15AgreesInUse` | mazda/patches/blmjciaapa/hud/hud_nav.h:114-119 | the two agree from -15 to 344 degrees |
| `CarplayHud.PushPairs` | mazda/patches/blmjcicarplay/hud/hud_send.cpp:352-454 | every push pairs a display with a street frame of the same sync; a new maneuver gets a new sync |
| `CarplayDisplay.PaintShows` | mazda/patches/blmjcicarplay/hud/hud_send.cpp:651-662 | after a paint the cluster shows what the sender holds if it did before or something was pushed, and then with the limit painted now |
| `CarplayDisplay.OneSync` | mazda/patches/blmjcicarplay/hud/hud_send.cpp:466-485 | display and street carry one sync exactly when a maneuver was pushed last, since a clear leaves 0 in the display frame |
| `CarplayDisplay.CarplayRefinement` | mazda/patches/blmjcicarplay/hud/hud_send.cpp:610-711 | after any run with accepted sends from any start, from the first frame on, the cluster shows the maneuver the sender holds, or is wiped while that is none |
| `CarplayDisplay.StartDisplayed` | mazda/patches/blmjcicarplay/hud/hud_send.cpp:605-608 | the startup clear makes any cluster one that shows what the sender holds |
| `CarplayReads.CarplayRead` | mazda/patches/blmjcicarplay/hud/hud_send.cpp:376-435 | after any run with accepted sends the cluster reads as the fields of the maneuver held: its icon, its road as sent or letter by letter, its distance within 16 bits, its unit |
| `CarplayReads.LatestRead` | mazda/patches/blmjcicarplay/hud/hud_send.cpp:610-711 | while the sender sleeps that is the maneuver written last, or none when a clear or a withheld read came later |
| `CarplayReads.LimitShown` | mazda/patches/blmjcicarplay/hud/hud_send.cpp:625-636 | a push shows the limit polled, dark on odd ticks of an over-speed, around the maneuver |
| `CarplayReads.SignBlinks` | mazda/patches/blmjcicarplay/hud/hud_send.cpp:627-636 | too fast, of two ticks in a row exactly one shows the limit |
| `CarplayReads.LimitPainted` | mazda/patches/blmjcicarplay/hud/hud_send.cpp:651-662 | a new limit is pushed at once; without changes a frame is kept alive if and only if a route is live or a limit stands |
| `CarplayReads.RefreshExactly` | mazda/patches/blmjcicarplay/hud/hud_send.cpp:362-372 | the sync changes if and only if road, event, side or number do, or the overlay shows |
| `CarplayReads.ClearRead` | mazda/patches/blmjcicarplay/hud/hud_send.cpp:681-711 | a gone session wipes everything, a navigation end keeps a shown sign, which stands after the commit |
| `CarplayLatest.RunFollows` | mazda/patches/blmjcicarplay/hud/hud_send.cpp:610-711 | over every run, with no count left to process the sender holds what its latest paint or clear took: the current snapshot or none |
| `CarplayLatest.SleepsUpToDate` | mazda/patches/blmjcicarplay/hud/hud_send.cpp:648-691 | then it holds the maneuver written last if and only if that paint took it over or there is none |
| `CarplayLatest.SleepingSenderShows` | mazda/patches/blmjcicarplay/hud/hud_send.cpp:610-711 | and with accepted sends that is what the cluster shows |
| `CarplayLatest.NothingMissed` | mazda/patches/blmjcicarplay/hud/hud_send.cpp:648-655 | without a clear, and with every choice finding a live route or no limit, a sleeping sender holds the maneuver written last |
| `CarplayLatest.TurnMissed` | mazda/patches/blmjcicarplay/hud/hud_send.cpp:685-691 | a turn written and raised between the sender's read and its clear counts as processed and is not held |
| `CarplayHud.QuietRun` | mazda/patches/blmjcicarplay/hud/hud_send.cpp:610-711 | from a state with no live route and a blank maneuver every frame of every run without a new route is blank |
| `CarplayHud.StaleManeuverReturns` | mazda/patches/blmjcicarplay/hud/hud_send.cpp:645-655 | with the speed limit off, after a route the producer can start and a navigation end, a distance update repaints the ended maneuver |
| `CarplayHud.OverlayAppears` | mazda/patches/blmjcicarplay/hud/hud_send.cpp:404-423 | with the debug overlay on, a new speed limit after the navigation end draws a glyph |
| `CarplayHud.NavEndExactly` | mazda/patches/blmjcicarplay/hud/hud_send.cpp:681-711 | after a successful clear, whatever state the sender came up in, over every run the producer can make, all frames stay blank until it raises the guidance flag, if and only if the speed limit is shown and the overlay is off |
| `CarplayHud.TurnAdopts` | mazda/patches/blmjcicarplay/hud/hud_send.cpp:648-655 | a read between a producer's write and its flag takes over the maneuver if and only if a route was live, the limit is not shown, or there was nothing to take over |
| `CarplaySender.CutWellFormed` | mazda/patches/blmjcicarplay/hud/hud_send.cpp:838-850 | cutting at a byte that is no continuation keeps well-formed text well-formed |
| `CarplaySender.FitRoadWellFormed` | mazda/patches/blmjcicarplay/hud/hud_send.cpp:838-850 | a truncated well-formed road name is well-formed |
| `CarplaySender.FitRoadLongest` | mazda/patches/blmjcicarplay/hud/hud_send.cpp:838-850 | every longer cut within the limit would split a sequence |
| `CarplaySender.TruncateRoad` | mazda/patches/blmjcicarplay/hud/hud_send.cpp:838-850 | the loop computes that cut |
| `CarplaySender.HudSend.OnNextTurn` | mazda/patches/blmjcicarplay/hud/hud_send.cpp:830-861 | one write of the turn, then the guidance flag |
| `CarplaySender.HudSend.OnDistance` | mazda/patches/blmjcicarplay/hud/hud_send.cpp:863-874 | one write of distance, unit and time, the guidance flag left alone |
| `CarplaySender.HudSend.SendOne` | mazda/patches/blmjcicarplay/hud/hud_send.cpp:309-456 | the gate, the sync and the frames of one push, failed calls included |
| `CarplaySender.HudSend.SendClear` | mazda/patches/blmjcicarplay/hud/hud_send.cpp:466-485 | the clear frames, failed calls included |
| `CarplaySender.HudSend.LoopChoose` | mazda/patches/blmjcicarplay/hud/hud_send.cpp:625-650 | the speed limit, the blink and the choice of the painted maneuver |
| `CarplaySender.HudSend.LoopPaint` | mazda/patches/blmjcicarplay/hud/hud_send.cpp:651-662 | a change is painted, otherwise a live frame is re-asserted |
| `CarplaySender.HudSend.SendRequested` | mazda/patches/blmjcicarplay/hud/hud_send.cpp:683-711 | the frames of a clear request, around the sign or without it |
| `CarplaySender.HudSend.LoopRequests` | mazda/patches/blmjcicarplay/hud/hud_send.cpp:681-711 | the clear requests taken, a full one first, and the frames they send |
| `CarplaySender.HudSend.LoopCommit` | mazda/patches/blmjcicarplay/hud/hud_send.cpp:685-691 | what a successful clear stores |
| `Merge.MergeHook.SetDisplayMsg` | mazda/patches/svcjcinavi/merge.cpp:273-342 | one maneuver frame: what is forwarded, and a state that matches the history of calls |
| `Merge.MergeHook.SetStreetMsg` | mazda/patches/svcjcinavi/merge.cpp:345-395 | one street strip: what is forwarded, and the street captured |
| `Merge.MergeHook.AapActive` | mazda/patches/svcjcinavi/merge.cpp:262-265 | ownership within the five-minute window, from the history |
| `Merge.ForwardedSpeed` | mazda/patches/svcjcinavi/merge.cpp:272-395 | no forwarded frame carries the sentinel, each carries the latest OEM speed, and both kinds keep their sync |
| `Merge.HistoryOfGenerations` | mazda/patches/svcjcinavi/merge.cpp:169-177 | over paired frames and strips, maneuver block and captured street come from the same generation |
| `Merge.MergeHistory` | mazda/patches/svcjcinavi/merge.cpp:272-395 | every forwarded pair is the latest Android Auto maneuver and street with the latest OEM speed while Android Auto owns the display, and the pair itself otherwise |
| `Merge.ClaimantIs` | mazda/patches/svcjcinavi/merge.cpp:287-311 | the latest Android Auto generation claims the display unless it is blank |
| `Merge.LatestSpeedIs` | mazda/patches/svcjcinavi/merge.cpp:316-323 | the speed is that of the latest OEM generation |
| `Merge.MergedFields` | mazda/patches/svcjcinavi/merge.cpp:272-395 | field by field, maneuver, distance, unit and street of a forwarded pair come from the claimant while it is at most 300 seconds old, else from the pair itself; the speed is OEM, the syncs are the pair's own |
| `Distances.ParseDistX10` | mazda/patches/blmjciaapa/hud/hud_nav16.cpp:297-314 | the parse loop, cap and 32-bit result included |
| `Distances.ParseExact` | mazda/patches/blmjciaapa/hud/hud_nav16.cpp:297-314 | the parse is ten times the number shown if and only if that fits 32 bits |
| `Distances.ParseEightDigits` | mazda/patches/blmjciaapa/hud/hud_nav16.cpp:297-314 | it is exact with one to eight integer digits |
| `Pictures.PrintedDistance` | mazda/patches/blmjciaapa/hud/hud_nav16.cpp:297-314 | a printed number, with or without one decimal behind a comma or full stop, parses to ten times that number |
| `Pictures.UnitKept` | mazda/patches/blmjciaapa/hud/hud_nav16.cpp:283-294 | the display's unit has the length of the phone's |
| `Pictures.CarplayUnitKept` | mazda/patches/blmjcicarplay/hud/hud_send.cpp:186-197 | the same for the CarPlay units |
| `Distances.QuantiseNearest` | mazda/patches/blmjciaapa/hud/hud.cpp:564-572 | quantisation goes to a multiple of the step, at most half a step away |
| `Distances.QuantiseIdempotent` | mazda/patches/blmjciaapa/hud/hud.cpp:564-572 | quantising twice equals quantising once |
| `Distances.QuantiseMonotone` | mazda/patches/blmjciaapa/hud/hud.cpp:564-572 | quantisation is monotone across its tiers |
| `Nav16Feed.GlyphRange` | mazda/patches/blmjciaapa/hud/hud_nav16.cpp:268-279 | every glyph is within the atlas |
| `Pictures.GuidanceDrawn` | mazda/patches/blmjciaapa/hud/hud_nav16.cpp:204-279 | every navigation type is drawn as its picture on its side, roundabouts with the exit in the sector of their angle |
| `Nav16Feed.Nav16FeedState.EmitIfChanged` | mazda/patches/blmjciaapa/hud/hud.cpp:612-628 | the change gate, and the three transport writes one by one, each taken or dropped on its own |
| `Nav16Feed.Nav16FeedState.OnGuidanceFrame` | mazda/patches/blmjciaapa/hud/hud.cpp:635-676 | glyph, road and lanes are taken over, a foreign distance invalidated |
| `Nav16Feed.Nav16FeedState.OnPositionFrame` | mazda/patches/blmjciaapa/hud/hud.cpp:679-690 | the parsed and quantised distance is taken over |
| `Nav16Feed.Nav16FeedState.OnStatusFrame` | mazda/patches/blmjciaapa/hud/hud.cpp:693-708 | an ending status blanks the transport and resets, any other keeps |
| `Nav16Feed.AccumulatorFresh` | mazda/patches/blmjciaapa/hud/hud.cpp:601-690 | the accumulator holds the announced maneuver and road, and a distance only from a position after the last change of them or reset |
| `Nav16Feed.SnapshotTracks` | mazda/patches/blmjciaapa/hud/hud.cpp:612-628 | when write k of the latest opening, or the latest ending, since the session start was taken, that part of the transport is the encoded accumulator's |
| `Nav16Feed.SnapshotFresh` | mazda/patches/blmjciaapa/hud/hud.cpp:601-708 | with an active transport, from the first emission on it holds the latest announcement with a fresh distance after every callback |
| `Nav16Feed.SnapshotHistory` | mazda/patches/blmjciaapa/hud/hud.cpp:612-628 | for every history, whichever writes were dropped, each part of the transport is that of the accumulator at the latest gate opening whose write of that kind was taken, or none after an ending, and it is up to date exactly when the three parts are the current ones |
| `Nav16Feed.DroppedFrameHeldBack` | mazda/patches/blmjciaapa/hud/hud.cpp:612-628 | a frame dropped by an inactive transport is held back when it comes again to an active one |
| `Nav16Feed.LateActivation` | mazda/patches/blmjciaapa/hud/vbs_tx.cpp:398-403 | a transport that becomes active between the first and second write of a callback holds the lanes of a turn without its glyph, and the turn is held back when it comes again |
| `Nav16Feed.WritesOfCallback` | mazda/patches/blmjciaapa/hud/hud.cpp:612-628 | the writes a callback makes and the transport takes, from the history alone |
| `FeedRuns.CopyReads` | mazda/patches/blmjciaapa/hud/hud.cpp:623-625 | after any number of writes the transport holds what a point of the history held: some of its callbacks, the last perhaps without its later writes |
| `FeedRuns.CopyShows` | mazda/patches/blmjciaapa/hud/hud.cpp:655-663 | when the latest turn arrived, and the latest distance or the one before, a copy shows the announced maneuver and road, with a distance that belongs to them except exactly when a guidance changed them while a distance was held and its own distance write has not arrived |
| `FeedRuns.ActivePoints` | mazda/patches/blmjciaapa/hud/hud.cpp:623-625 | with an active transport that covers every point of a session but those before its first distance write |
| `FeedRuns.FirstEmission` | mazda/patches/blmjciaapa/hud/hud.cpp:595-606 | there, the first guidance of a session shows the distance an earlier session left, which belongs exactly when that is none |
| `FeedRuns.StalePointExists` | mazda/patches/blmjciaapa/hud/hud.cpp:623-625 | a guidance, a position and a differing guidance have such a stale point, after the first write of the latter |
| `FeedRuns.FeedCopies` | mazda/patches/blmjciaapa/hud/vbs_tx.cpp:409-428 | in every interleaving of callbacks and reads, whichever writes were dropped, an accepted copy is what one point of the history held, and shows what is said above |
| `FeedRuns.SleepingSenderShowsFeed` | mazda/patches/blmjciaapa/hud/vbs_tx.cpp:424-438 | once the callbacks have written everything, a sleeping sender has the cluster showing the last write taken of each kind, which is the encoded accumulator when none was dropped since the latest opening |
| `Nav16Phone.HudNav16Feed` | mazda/patches/blmjciaapa/hud/hud_nav16.cpp:423-465 | dispatch of a raw frame to the callbacks |
| `Nav16Phone.NavStateReachesSnapshot` | mazda/patches/blmjciaapa/hud/hud_nav16.cpp:349-357 | an encoded navigation state with unknown fields ends up in the transport snapshot as its first step |
| `Nav16Phone.NavStateReachesCluster` | mazda/patches/blmjciaapa/hud/vbs_tx.cpp:153-285 | and, whatever copies the sender took meanwhile, on the cluster as that step's glyph, road and lanes |
| `Nav16Phone.PositionReachesCluster` | mazda/patches/blmjciaapa/hud/hud.cpp:679-690 | an encoded position ends up on the cluster as its parsed and quantised distance |
| `PhoneDisplay.NavStateHeld` | mazda/patches/blmjciaapa/hud/hud.cpp:635-676 | an encoded navigation state leaves the transport saying what its first step says: picture, road and lane codes |
| `PhoneDisplay.NavStateRead` | mazda/patches/blmjciaapa/hud/vbs_tx.cpp:153-285 | and the driver reads it: the picture of the maneuver, the road as sent or letter by letter, each lane hidden without arrows and otherwise drawn with its way |
| `PhoneDisplay.SignalSays` | mazda/patches/blmjciaapa/hud/svcnavi_tx.cpp:102-166 | the other transport signals the same, marked with the sentinel speed |
| `PhoneDisplay.PositionRead` | mazda/patches/blmjciaapa/hud/hud.cpp:679-690 | an encoded position puts the number of its step display string, rounded to the shown granularity, on the cluster in a unit of the same length |
| `PhoneDisplay.DestinationsUnseen` | mazda/patches/blmjciaapa/hud/hud.cpp:679-690 | the destinations of a position change nothing |
| `PhoneDisplay.StatusRead` | mazda/patches/blmjciaapa/hud/hud.cpp:693-708 | an encoded status, unknown fields aside, blanks and resets exactly for unavailable and inactive |
| `PhoneDisplay.StopRead` | mazda/patches/blmjciaapa/hud/hud.cpp:693-700 | a cluster stop always does |
| `NavWindow.ReadStr` | mazda/patches/blmjcicarplay/nav.cpp:210-217 | the text of a field up to its end, the message's or the buffer's |
| `NavWindow.ClassifyRange` | mazda/patches/blmjcicarplay/nav.cpp:155-208 | every maneuver type gives a table event, a side, an angle in 0..359 and an exit number up to 19 |
| `NavWindow.StepHistory` | mazda/patches/blmjcicarplay/nav.cpp:305-394 | handling messages one by one computes what the history defines: the first 48 displayable maneuvers since the last restart, the known head, the latest selection |
| `NavWindow.DeliveredIsLatest` | mazda/patches/blmjcicarplay/nav.cpp:248-284 | the maneuver delivered last is the one selected last |
| `NavWindow.DeliveredAfter` | mazda/patches/blmjcicarplay/nav.cpp:305-315 | a selection is delivered unless it repeats the latest one, and after a reset even then |
| `NavReceiver.FindFirst` | mazda/patches/blmjcicarplay/nav.cpp:239-244 | the first buffered entry with an index, or none |
| `NavReceiver.SelectByHead` | mazda/patches/blmjcicarplay/nav.cpp:239-244 | the entry a head names, else the one after it, else none |
| `NavReceiver.BuildEntry` | mazda/patches/blmjcicarplay/nav.cpp:332-353 | the buffered entry read out of any message, short ones included |
| `NavMessages.EntryRead` | mazda/patches/blmjcicarplay/nav.cpp:337-361 | each field of a buffered entry comes from its own place in the message, little-endian; the instruction text stands in for a missing road |
| `NavMessages.EntryDrawn` | mazda/patches/blmjcicarplay/nav.cpp:155-208 | every maneuver type is drawn as its picture on its side, a roundabout with its exit in the mirrored sector of the traffic's bank |
| `NavMessages.GuidanceRead` | mazda/patches/blmjcicarplay/nav.cpp:375-378 | the head of a guidance message is its first listed index |
| `NavMessages.DistanceRead` | mazda/patches/blmjcicarplay/nav.cpp:385-394 | a distance is handed on if and only if it lies in 1..100000 m, and shows the last tenth of its unit not beyond it |
| `NavMessages.HeadSelects` | mazda/patches/blmjcicarplay/nav.cpp:239-244 | a head selects the first entry with its index, else the first with the next index, else nothing |
| `NavMessages.BurstWindow` | mazda/patches/blmjcicarplay/nav.cpp:318-330 | whatever came before, a burst of rising indices leaves its displayable entries in the window |
| `NavMessages.HeadDelivered` | mazda/patches/blmjcicarplay/nav.cpp:369-383 | after it a guidance naming one of its maneuvers delivers that maneuver last |
| `NavReceiver.GuidanceDistanceShown` | mazda/patches/blmjcicarplay/nav.cpp:386-394 | the distance readout shows metres exactly and kilometres cut to one decimal |
| `NavReceiver.NavState.EmitSelection` | mazda/patches/blmjcicarplay/nav.cpp:248-284 | a selection is delivered if it differs from the emitted one |
| `NavReceiver.NavState.NavOnDevmgrMsg` | mazda/patches/blmjcicarplay/nav.cpp:295-399 | one message, a pending reset taken first: buffer, head, deliveries and distances as the history says |
| `MediaKeys.RunKeeps` | mazda/patches/blmjciaapa/playpause/playpause.cpp:316-387 | every step of the watcher and of any other thread keeps the invariant |
| `MediaKeys.PlaysFollowPauses` | mazda/patches/blmjciaapa/playpause/playpause.cpp:350-387 | each accepted play stands right behind an accepted pause, so plays never outnumber pauses |
| `MediaKeys.BlockedPlays` | mazda/patches/blmjciaapa/playpause/playpause.cpp:649-663 | with blocking on, a play key reaches the SDK only from the watcher with its latch set, and between keys no thread is exempt |
| `MediaKeys.OwnPlayReaches` | mazda/patches/blmjciaapa/playpause/playpause.cpp:328-340 | the watcher's own keys are never filtered |
| `MediaKeys.LatchMoves` | mazda/patches/blmjciaapa/playpause/playpause.cpp:366-385 | only an accepted key moves the latch |
| `MediaKeys.FilteredExactly` | mazda/patches/blmjciaapa/playpause/playpause.cpp:649-663 | exactly the OEM play key on a thread without exemption is swallowed; everything else passes with the SDK's answer |
| `MediaKeys.CauseOfKey` | mazda/patches/blmjciaapa/playpause/playpause.cpp:350-387 | in every run a pause is sent only because of a mute while playing, a play only because of an unmute with the focus |
| `MediaKeys.KeyStartsExactly` | mazda/patches/blmjciaapa/playpause/playpause.cpp:350-387 | when a mute or unmute starts a key, and when it drops the claim to a pause |
| `MediaKeys.KeysPaired` | mazda/patches/blmjciaapa/playpause/playpause.cpp:316-347 | in every run the watcher's keys reach the SDK as presses with their releases |
| `MediaKeys.Bridge.AapSendKeyInput` | mazda/patches/blmjciaapa/playpause/playpause.cpp:649-663 | the hook swallows or passes a key |
| `MediaKeys.Bridge.SendMediaKey` | mazda/patches/blmjciaapa/playpause/playpause.cpp:316-347 | press and release under a saved and restored exemption |
| `MediaKeys.Bridge.OnMuteChanged` | mazda/patches/blmjciaapa/playpause/playpause.cpp:350-387 | one mute status is the run of its steps |
| `MediaKeys.Records.ObserveInitialRecord` | mazda/patches/blmjciaapa/playpause/playpause.cpp:189-201 | exactly the first ten records lose their saved audio state |

## Left out

- Process-wide plumbing: interposition, symbol resolution, fixed-address OEM thunks, D-Bus and socket calls, thread creation and the installer.
- Condition-variable wake-ups: the transports prove what a sleeping sender has shown, not that it wakes; memory ordering is sequentially consistent.
- Session lifecycle, Bluetooth pairing, audio and configuration parsing, the 1.6 receiver socket and its bound device, which are short brackets around the modelled code.
- The GAL 1.5 callback path beyond its roundabout formula: it is a field-by-field copy into the same producers.
- The D-Bus watch table of the mute bridge and the decoding of its signal: finite lookups.
- The video-focus gate between the events of one touch frame: focus is constant within a frame.
- The count of active fingers and all other values that are only logged.
- Bytes behind the terminator of a character buffer: a buffer is seen as its C string.
- Lane masks as 16-bit words: a mask is the set of its bits.
- Whether the reverse-engineered message layouts and glyph numbers are right.
- LaneSigns.GlyphDrawn: the glyph numbers of the basic cluster are read as the arrows its table is consistent with; the artwork is in the cluster. Codes no lane can get, among them two aliases whose grey glyphs differ, are outside.
- Signed overflow of a 32-bit `ip * 10 + frac`, `180 - degrees`, `degrees + 15` or `v + 250` near the ends of the range, which the language leaves undefined.
- The try blocks that swallow exceptions: the modelled code throws none.
- VbsTx.DisplayRefinement: the cluster starts dark; a street strip left by an earlier session is cleared by the cluster itself, which is not part of this model.
- Seqlock.AcceptedCopiesExact: cells are copied and stored one at a time in any order, without a hardware reordering of single cells.
- Distances.ParseDistX10: beyond 32 bits `ip * 10 + frac` overflows a 32-bit long before the cast, which the language leaves undefined; the model wraps there.
- Distances.ParseExact: the other half of the equivalence is about that wrapped value.
- CarplayLatest.SleepsUpToDate: the counter is not wrapped.
- CarplayHud.NavEndExactly: a snapshot read is one step, as Seqlock.AcceptedCopiesExact allows; the counter is not wrapped.
- FeedRuns.FeedCopies: that each completed write of a run is the feed's next one is a hypothesis of the run; `VbsSender.VbsTxState` and `Nav16Feed.Nav16FeedState.writes` meet it call by call.
- Merge.MergeHistory: frames and strips come in pairs, as the service sends them; unpaired calls are covered by the setters' own contracts.
