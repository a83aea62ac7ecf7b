// The CarPlay HUD sender as it runs (hud_send.cpp): the producers' writes and one method
// for each stretch of the sender loop between two looks at shared state. Every method
// takes exactly the step that CarplayHud specifies.
module CarplaySender {
  import opened Machine
  import opened Glyphs
  import opened Translit
  import opened VbsTx
  import opened CarplayHud

  const ROAD_MAX: nat := 255

  predicate CutHere(road: seq<byte>, n: nat)
    requires n < |road|
  {
    n == 0 || !Continues(road[n])
  }

  // The longest cut at or below n that does not split a sequence.
  function CutAt(road: seq<byte>, n: nat): (r: nat)
    requires n < |road|
    ensures r <= n && CutHere(road, r)
    ensures forall k :: r < k <= n ==> !CutHere(road, k)
  {
    if CutHere(road, n) then n else CutAt(road, n - 1)
  }

  // A road name as it fits the snapshot.
  function FitRoad(road: seq<byte>): (r: seq<byte>)
    ensures |r| <= ROAD_MAX && r <= road
  {
    var s := UpToNul(road);
    if |s| > ROAD_MAX then s[..CutAt(s, ROAD_MAX)] else s
  }

  // Cutting well-formed text leaves well-formed text.
  lemma {:induction false} CutWellFormed(s: seq<byte>, n: nat)
    requires Decode(s).Some? && n < |s| && CutHere(s, n)
    ensures Decode(s[..n]).Some?
    decreases |s|
  {
    if n > 0 {
      var k := SeqLen(s);
      TokenConts(s, k - 1);
      assert k <= n;
      assert s[k..][..n - k] == s[..n][k..];
      if n < |s| {
        CutWellFormed(s[k..], n - k);
      }
      PrefixChar(s, n);
    }
  }

  lemma PrefixChar(s: seq<byte>, n: nat)
    requires s != [] && FirstChar(s).Some? && SeqLen(s) <= n <= |s|
    ensures SeqLen(s[..n]) == SeqLen(s) && FirstChar(s[..n]) == FirstChar(s)
  {
    CharUnique(s);
    PrefixOf(s[..n], FirstChar(s).value, s[..SeqLen(s)], s[SeqLen(s)..n]);
  }

  lemma PrefixOf(s: seq<byte>, cp: nat, head: seq<byte>, tail: seq<byte>)
    requires Scalar(cp) && head == Utf8Char(cp) && s == head + tail
    ensures SeqLen(s) == |head| && FirstChar(s) == Some(cp)
  {
    CharRoundTrip(cp, tail);
  }

  // Truncation keeps a well-formed road name well-formed.
  lemma FitRoadWellFormed(road: seq<byte>)
    requires Decode(UpToNul(road)).Some?
    ensures Decode(FitRoad(road)).Some?
  {
    var s := UpToNul(road);
    if |s| > ROAD_MAX {
      CutWellFormed(s, CutAt(s, ROAD_MAX));
    }
  }

  // Every longer cut within the limit would split a sequence.
  lemma FitRoadLongest(road: seq<byte>, k: nat)
    requires |UpToNul(road)| > 255 && |FitRoad(road)| < k <= 255
    ensures !CutHere(UpToNul(road), k) && FitRoad(road) <= UpToNul(road)
  {
  }

  method TruncateRoad(road: seq<byte>) returns (r: seq<byte>)
    ensures r == FitRoad(road)
  {
    var s := UpToNul(road);
    var n: nat := |s|;
    if n > ROAD_MAX {
      n := ROAD_MAX;
      while n > 0 && 0x80 <= s[n] < 0xC0
        invariant n <= ROAD_MAX && CutAt(s, n) == CutAt(s, ROAD_MAX)
      {
        n := n - 1;
      }
    }
    r := s[..n];
  }

  // map_distance_unit: metres, kilometres, miles and feet in the HUD's numbering.
  function DistanceUnit(androidUnit: uint32): byte {
    match androidUnit
    case 1 => 1
    case 2 => 3
    case 3 => 3
    case 4 => 2
    case 5 => 2
    case 6 => 5
    case _ => 0
  }

  class HudSend {
    const cfg: Config
    // shared
    var snapshot: Maneuver
    var count: nat
    var haveGuidance: bool
    var clearReq: bool
    var fullClearReq: bool
    var splimTick: nat
    var hudAbsent: bool
    // the sender's own
    var prev: Maneuver
    var syncBit: byte
    var lastProcessed: nat
    var prevSplim: uint16
    var phase: Phase
    ghost var sent: seq<Frame>

    ghost function View(): State
      reads this
    {
      State(snapshot, count, haveGuidance, clearReq, fullClearReq, splimTick, hudAbsent,
            prev, syncBit, lastProcessed, prevSplim, phase, sent)
    }

    constructor (cfg: Config)
      ensures this.cfg == cfg && View() == START
    {
      this.cfg := cfg;
      snapshot, count, haveGuidance, clearReq, fullClearReq := NO_MANEUVER, 0, false, false, false;
      splimTick, hudAbsent := 0, false;
      prev, syncBit, lastProcessed, prevSplim, phase, sent := NO_MANEUVER, 1, 0, 0, Waiting, [];
    }

    // --- producers: a write between two increments, then the store to the flag ------------

    method OnStatusStop()
      modifies this`snapshot, this`count, this`haveGuidance
      ensures View() == Next(cfg, Next(cfg, old(View()), Lower), WriteBlank)
    {
      haveGuidance := false;
      count := count + 1;
      snapshot := NO_MANEUVER;
      count := count + 1;
    }

    method OnStatusStart()
      modifies this`haveGuidance
      ensures View() == Next(cfg, old(View()), Raise)
    {
      haveGuidance := true;
    }

    method OnNextTurn(road: Option<seq<byte>>, side: uint32, event: uint32, angle: int32, number: int32)
      modifies this`snapshot, this`count, this`haveGuidance
      ensures View() == Next(cfg, Next(cfg, old(View()),
        WriteTurn(if road.Some? then FitRoad(road.value) else [], side, event, angle, number)), Raise)
    {
      var name: seq<byte> := [];
      if road.Some? {
        name := TruncateRoad(road.value);
      }
      count := count + 1;
      snapshot := snapshot.(road := name);
      snapshot := snapshot.(side := side, event := event, angle := angle, number := number);
      count := count + 1;
      haveGuidance := true;
    }

    method OnDistance(timeUntil: int32, displayDistance: int32, displayUnit: uint32)
      modifies this`snapshot, this`count
      ensures View() == Next(cfg, old(View()),
        WriteDistance(CDiv(displayDistance, 100), DistanceUnit(displayUnit), timeUntil))
    {
      count := count + 1;
      snapshot := snapshot.(distance := CDiv(displayDistance, 100));
      snapshot := snapshot.(unit := DistanceUnit(displayUnit));
      snapshot := snapshot.(timeUntil := timeUntil);
      count := count + 1;
    }

    // --- frames -------------------------------------------------------------------------

    // The two frames of a push, and the sync they carry.
    method BuildFrames(cur: Maneuver, maneuverChanged: bool, splim: uint16, sync: byte)
      returns (display: Frame, street: Frame, sync': byte)
      ensures sync' == if maneuverChanged || Overlay(cfg, cur) then Bump(sync) else sync
      ensures display == DisplayFrame(cfg, cur, splim, sync') && street == StreetFrame(cfg, cur, sync')
    {
      sync' := sync;
      if maneuverChanged {
        sync' := sync' % 7 + 1;
      }
      var text := StreetText(cfg, cur.road);
      var icon := Icon(cur);
      if cfg.debug && icon == 0 {
        if !maneuverChanged {
          sync' := sync' % 7 + 1;
        }
        text := DebugLabel(cur);
        icon := STRAIGHT_ICON;
      }
      display := SetDisplay(Display(icon, Clamp16(cur.distance), if cur.unit != 0 then cur.unit else 1,
                                    splim, if splim != 0 then 1 else 0, sync'));
      street := SetStreet(Street(text, sync'));
    }

    // Hands the display frame over, and the street frame unless that failed.
    method SendPair(display: Frame, street: Frame, rc: Rc) returns (ok: bool)
      modifies this`sent
      ensures sent == old(sent) + Pair(display, street, syncBit, rc).frames
      ensures ok == Pair(display, street, syncBit, rc).ok
    {
      sent := sent + [display];
      if !rc.display {
        return false;
      }
      sent := sent + [street];
      return rc.street;
    }

    // One push; false when a call failed.
    method SendOne(cur: Maneuver, was: Maneuver, splim: uint16, splimChanged: bool, force: bool, rc: Rc)
      returns (ok: bool)
      modifies this`syncBit, this`sent
      ensures if hudAbsent || !(DistanceChanged(cur, was) || splimChanged || force)
              then ok && sent == old(sent) && syncBit == old(syncBit)
              else var out := Push(cfg, cur, ManeuverChanged(cur, was), old(syncBit), splim, rc);
                   ok == out.ok && sent == old(sent) + out.frames && syncBit == out.sync
    {
      if hudAbsent {
        return true;
      }
      var maneuverChanged := cur.road != was.road || cur.event != was.event
                             || cur.side != was.side || cur.number != was.number;
      var distanceChanged := maneuverChanged || cur.distance != was.distance
                             || cur.unit != was.unit || cur.angle != was.angle;
      if !distanceChanged && !splimChanged && !force {
        return true;
      }
      var display, street, sync := BuildFrames(cur, maneuverChanged, splim, syncBit);
      syncBit := sync;
      ok := SendPair(display, street, rc);
    }

    method SendClear(rc: Rc) returns (ok: bool)
      modifies this`syncBit, this`sent
      ensures if hudAbsent then ok && sent == old(sent) && syncBit == old(syncBit)
              else var out := Clear(old(syncBit), rc);
                   ok == out.ok && sent == old(sent) + out.frames && syncBit == out.sync
    {
      if hudAbsent {
        return true;
      }
      sent := sent + [SetDisplay(Display(0, 0, 0, 0, 0, 0))];
      if !rc.display {
        return false;
      }
      syncBit := syncBit % 7 + 1;
      sent := sent + [SetStreet(Street(SPACE, syncBit))];
      return rc.street;
    }

    // --- the sender loop ------------------------------------------------------------------

    // Poll the speed limit and choose what to paint.
    method LoopChoose(limit: uint16, over: bool)
      requires phase.Read?
      modifies this`phase
      ensures View() == old(View().(phase := Chooses(cfg, View(), limit, over)))
    {
      var splim := if cfg.speedLimit then limit else 0;
      var painted := splim;
      if splim != 0 && over && splimTick % 2 == 1 {
        painted := 0;
      }
      var cur := if cfg.speedLimit && !haveGuidance then NO_MANEUVER else phase.snap;
      phase := Chosen(cur, phase.count, splim, painted);
    }

    // Paint a change, or re-assert the last frame.
    method LoopPaint(rc: Rc)
      requires phase.Chosen?
      modifies this`prev, this`syncBit, this`lastProcessed, this`prevSplim, this`phase, this`sent
      ensures View() == Paints(cfg, old(View()), rc)
    {
      var splim, painted := phase.splim, phase.painted;
      var splimChanged := splim != prevSplim;
      if phase.count != lastProcessed || splimChanged {
        var _ := SendOne(phase.cur, prev, painted, splimChanged, false, rc);
        prev := phase.cur;
        prevSplim := splim;
        lastProcessed := phase.count;
      } else if haveGuidance || prevSplim != 0 {
        var _ := SendOne(prev, prev, painted, false, true, rc);
      }
      phase := Painted(splim);
    }

    method SendRequested(keepSign: bool, splim: uint16, rc: Rc) returns (ok: bool)
      modifies this`syncBit, this`sent
      ensures var out := Requested(cfg, hudAbsent, keepSign, prev, old(syncBit), splim, rc);
              ok == out.ok && sent == old(sent) + out.frames && syncBit == out.sync
    {
      if keepSign {
        ok := SendOne(NO_MANEUVER, prev, splim, true, true, rc);
      } else {
        ok := SendClear(rc);
      }
    }

    // Take the clear requests and send what they ask for. A full clear goes first.
    method LoopRequests(rc: Rc)
      requires phase.Painted?
      modifies this`clearReq, this`fullClearReq, this`syncBit, this`phase, this`sent
      ensures View() == TakesRequests(cfg, old(View()), rc)
    {
      var full, nav := fullClearReq, clearReq;
      fullClearReq, clearReq := false, false;
      var splim := phase.splim;
      phase := Waiting;
      if full || nav {
        var keepSign := !full && cfg.speedLimit && splim > 0;
        var ok := SendRequested(keepSign, splim, rc);
        if ok {
          phase := Committing(if keepSign then splim else 0);
        }
      }
    }

    // Store the outcome of a clear that went out.
    method LoopCommit()
      requires phase.Committing?
      modifies this`haveGuidance, this`prev, this`prevSplim, this`lastProcessed, this`phase
      ensures View() == Commits(old(View()))
    {
      haveGuidance := false;
      prev := NO_MANEUVER;
      prevSplim := phase.keepSplim;
      lastProcessed := count;
      phase := Waiting;
    }
  }
}
