// What the driver reads after a message of the phone (hud_nav16.cpp, hud.cpp, vbs_tx.cpp,
// svcnavi_tx.cpp), in terms of the message: the picture of its maneuver, its road name
// letter by letter, its lanes, its distance and unit.
module PhoneDisplay {
  import opened Machine
  import opened Wire
  import opened Lanes
  import opened LaneSigns
  import opened VbsTx
  import opened Nav16Feed
  import opened Nav16Phone
  import Distances
  import Letters
  import Nav16
  import Pictures
  import SvcnaviSender
  import Translit

  // ---------------------------------------------------------------------------
  // Navigation states
  // ---------------------------------------------------------------------------

  function Kind(s: Nav16.StepMsg): nat {
    if s.maneuver.Some? then Nav16.OrElse(s.maneuver.value.kind, 0) else 0
  }

  function ExitAngle(s: Nav16.StepMsg): int {
    if s.maneuver.Some? then Nav16.OrElse(s.maneuver.value.exitAngle, 0) else 0
  }

  // The road name as sent, in a buffer of 64 bytes.
  function RoadName(s: Nav16.StepMsg): seq<byte> {
    if s.road.Some? && s.road.value.Some? then CopyStr(s.road.value.value, 64) else []
  }

  function SentLane(s: Nav16.StepMsg, i: nat): AaLane {
    if i < |s.lanes| then Nav16.NormalLane(s.lanes[i]) else NO_LANE
  }

  // A name reads as it was sent; with folding on, letter by letter.
  predicate ReadsRoad(foldLatin: bool, text: seq<byte>, name: seq<byte>) {
    && (!foldLatin ==> text == name)
    && (foldLatin && Translit.Decode(name).Some? ==>
          Translit.Decode(text) == Some(Letters.ReadAll(Translit.Decode(name).value, 0)))
  }

  lemma RoadReads(foldLatin: bool, raw: seq<byte>, name: seq<byte>, text: seq<byte>)
    requires name == CopyStr(raw, 64) && text == CopyStr(RoadOf(foldLatin, name), 64)
    ensures ReadsRoad(foldLatin, text, name)
  {
    Fits(name, 64);
    if foldLatin {
      Letters.FoldedNoNul(name, 0);
      Translit.FoldShrinks(name, 0);
      Fits(Translit.Folded(name, 0), 64);
      if Translit.Decode(name).Some? {
        Letters.FoldedReads(name, Translit.Decode(name).value, 0);
      }
    }
  }

  lemma {:induction false} NormalLanesAt(lanes: seq<seq<Nav16.LaneDirectionMsg>>, i: nat)
    requires i < |lanes|
    ensures Nav16.NormalLanes(lanes)[i] == Nav16.NormalLane(lanes[i])
  {
    if i < |lanes| - 1 {
      NormalLanesAt(Init(lanes), i);
    }
  }

  lemma {:induction false} NormalLaneOk(ds: seq<Nav16.LaneDirectionMsg>)
    ensures LaneOk(Nav16.NormalLane(ds))
  {
    if ds != [] {
      NormalLaneOk(Init(ds));
    }
  }

  // The lane codes of the step, empty in the slots beyond its last lane.
  lemma LaneCodeSent(s: Nav16.StepMsg, lanes: seq<AaLane>, i: nat)
    requires i < 8
    requires lanes == Nav16.NormalLanes(if |s.lanes| > MAX_LANES then s.lanes[..MAX_LANES] else s.lanes)
    ensures LaneCodes(FirstLanes(lanes))[i] == CodeOf(SentLane(s, i))
    ensures LaneOk(SentLane(s, i)) && CodeOf(SentLane(s, i)) <= 70
  {
    if i < |s.lanes| {
      NormalLanesAt(if |s.lanes| > MAX_LANES then s.lanes[..MAX_LANES] else s.lanes, i);
      NormalLaneOk(s.lanes[i]);
    }
    LaneCodeRange(SentLane(s, i));
  }

  // A snapshot that says what the step says.
  ghost predicate Says(foldLatin: bool, x: Snapshot, s: Nav16.StepMsg) {
    && Pictures.Drawn(Kind(s), ExitAngle(s), Pictures.PictureOf(x.icon))
    && ReadsRoad(foldLatin, x.road, RoadName(s))
    && forall i :: 0 <= i < 8 ==> x.lanes[i] == CodeOf(SentLane(s, i)) <= 70 && LaneOk(SentLane(s, i))
  }

  lemma GuidanceSays(foldLatin: bool, acc: HudState, steps: seq<Nav16.StepMsg>, g: Nav16.Guidance, x: Snapshot)
    requires steps != [] && g == Nav16.Normalise(steps)
    requires x == Encoded(Absorb(acc, Clamped(GlyphOf(g)), RoadOf(foldLatin, g.road), FirstLanes(g.lanes)))
    ensures Says(foldLatin, x, steps[0])
  {
    var s := steps[0];
    GlyphRange(g);
    Pictures.GuidanceDrawn(g);
    RoadReads(foldLatin, Nav16.OrElse(Nav16.OrElse(s.road, None), []), g.road, x.road);
    forall i | 0 <= i < 8
      ensures x.lanes[i] == CodeOf(SentLane(s, i)) <= 70 && LaneOk(SentLane(s, i))
    {
      LaneCodeSent(s, g.lanes, i);
    }
  }

  // The transport holds what the first step of a navigation state says, unknown fields and
  // later steps aside.
  lemma NavStateHeld(foldLatin: bool, f: Feed, steps: seq<Nav16.StepMsg>, tree: seq<Node>, e: Event, x: Snapshot)
    requires AllOk(tree) && Strip(Nav16.NAV_STATE, tree) == Nav16.NavTree(steps) && steps != []
    requires Tracking(f) && EventOf([0x80, 0x06] + Encode(tree)) == Some(e)
    requires x == Next(foldLatin, f, e, ALL).snapshot
    ensures Says(foldLatin, x, steps[0])
  {
    NavStateReachesSnapshot(foldLatin, f, steps, tree);
    GuidanceSays(foldLatin, f.acc, steps, Nav16.Normalise(steps), x);
  }

  // A slot as the driver sees it: hidden for a lane without arrows, otherwise drawn.
  predicate ReadsLane(lane: AaLane, drawn: byte) {
    if lane.present == {} then drawn == 0xFF else LaneDrawn(lane, drawn)
  }

  lemma LaneReads(lane: AaLane, codes: seq<byte>, i: nat)
    requires i < |codes| && LaneOk(lane) && codes[i] == CodeOf(lane) <= 70
    ensures ReadsLane(lane, WireLanes(codes)[i])
  {
    SlotDrawn(codes, i);
    LaneCodeRange(lane);
    if lane.present != {} {
      LaneIsDrawn(lane);
    }
  }

  // And so does the cluster of a sender in step, whatever copies it took meanwhile: the
  // picture of the maneuver, the road and each lane.
  lemma NavStateRead(foldLatin: bool, f: Feed, steps: seq<Nav16.StepMsg>, tree: seq<Node>, e: Event, x: Snapshot,
                     st: Sender, meanwhile: seq<Snapshot>, seen: View, i: nat)
    requires AllOk(tree) && Strip(Nav16.NAV_STATE, tree) == Nav16.NavTree(steps) && steps != []
    requires Tracking(f) && EventOf([0x80, 0x06] + Encode(tree)) == Some(e)
    requires x == Next(foldLatin, f, e, ALL).snapshot
    requires Synchronised(st) && seen == Seen(Process(ProcessAll(st, meanwhile), x).cluster) && i < 8
    ensures Pictures.Drawn(Kind(steps[0]), ExitAngle(steps[0]), Pictures.PictureOf(seen.icon))
    ensures ReadsRoad(foldLatin, seen.text, RoadName(steps[0]))
    ensures |seen.lanes| == 8 && ReadsLane(SentLane(steps[0], i), seen.lanes[i])
  {
    NavStateHeld(foldLatin, f, steps, tree, e, x);
    ClusterShows(st, meanwhile, x, seen);
    LaneReads(SentLane(steps[0], i), x.lanes, i);
  }

  lemma ClusterShows(st: Sender, meanwhile: seq<Snapshot>, x: Snapshot, seen: View)
    requires Synchronised(st) && seen == Seen(Process(ProcessAll(st, meanwhile), x).cluster)
    ensures seen.icon == x.icon && seen.text == x.road && seen.lanes == WireLanes(x.lanes)
    ensures seen.distance == x.distance % 0x1_0000 && seen.unit == x.unit
    ensures seen.speedLimit == 0 && seen.speedUnit == 0
  {
    DisplayRefinement(st, meanwhile);
    var before := ProcessAll(st, meanwhile);
    DiffShows(before.cluster, x, before.prev, before.sync);
  }

  // The other transport signals the same, marked with the speed no OEM frame has.
  lemma SignalSays(foldLatin: bool, x: Snapshot, s: Nav16.StepMsg, signal: SvcnaviSender.Signal)
    requires Says(foldLatin, x, s) && signal == SvcnaviSender.SignalOf(x)
    ensures Pictures.Drawn(Kind(s), ExitAngle(s), Pictures.PictureOf(signal.icon))
    ensures ReadsRoad(foldLatin, signal.street, RoadName(s))
    ensures forall i :: 0 <= i < 8 ==> signal.lanes[i] == CodeOf(SentLane(s, i)) <= 70
    ensures signal.distance == x.distance && signal.unit == x.unit && signal.speedLimit == 0xFFFF
  {
  }

  // ---------------------------------------------------------------------------
  // Positions
  // ---------------------------------------------------------------------------

  // The step distance of a position: the number in its display string, rounded to what the
  // display can show, in the unit it was sent in.
  predicate ReadsDistance(d: Nav16.DistanceMsg, distance: int, unit: byte) {
    var text, units := CopyStr(Nav16.OrElse(d.display, []), 16), Nav16.OrElse(d.units, 0);
    && Pictures.HudLength(unit) == Pictures.PhoneLength(units)
    && (Distances.IntDigits(text) == [] ==> distance == 0)
    && (1 <= |Distances.IntDigits(text)| <= 8 ==> distance == Distances.Quantise(Distances.Shown(text), unit))
  }

  lemma ShownBelow(s: seq<byte>)
    requires |Distances.IntDigits(s)| <= 8
    ensures Distances.Shown(s) < 1000000000
  {
    Distances.IntDigitsRange(s);
    Distances.ValueBound(Distances.IntDigits(s), 0, 1);
    Distances.Pow10Monotone(|Distances.IntDigits(s)|, 8);
    assert Distances.Pow10(8) == 100000000;
    Distances.FirstDigitRange(Distances.AfterSeparator(s));
  }

  lemma ParsedReads(text: seq<byte>, unit: byte)
    requires |Distances.IntDigits(text)| <= 8
    ensures ToInt32(Distances.Quantise(Distances.Parsed(text), unit))
         == if Distances.IntDigits(text) == [] then 0 else Distances.Quantise(Distances.Shown(text), unit)
  {
    if Distances.IntDigits(text) != [] {
      Distances.ParseEightDigits(text);
      ShownBelow(text);
      QuantiseBelow(Distances.Shown(text), unit);
    }
  }

  lemma QuantiseBelow(v: nat, unit: byte)
    requires v < 1000000000
    ensures ToInt32(Distances.Quantise(v, unit)) == Distances.Quantise(v, unit)
  {
    Distances.QuantiseNearest(v, unit);
  }

  lemma StepDistanceReads(d: Nav16.DistanceMsg, x: Nav16.Position)
    requires x.step == Nav16.NormalDistance(Some(d))
    ensures ReadsDistance(d, ShownDistance(x).0, ShownDistance(x).1)
  {
    var text := CopyStr(Nav16.OrElse(d.display, []), 16);
    Pictures.UnitKept(Nav16.OrElse(d.units, 0));
    if |Distances.IntDigits(text)| <= 8 {
      ParsedReads(text, Distances.MazdaUnit(Nav16.OrElse(d.units, 0)));
    }
  }

  // A position with a step distance puts that distance on the cluster, as far as its 16
  // bits go.
  lemma PositionRead(foldLatin: bool, f: Feed, p: Nav16.PositionMsg, d: Nav16.DistanceMsg, tree: seq<Node>, e: Event,
                     x: Snapshot, st: Sender, meanwhile: seq<Snapshot>, seen: View)
    requires AllOk(tree) && Strip(Nav16.POSITION, tree) == Nav16.PositionTree(p) && p.step == Some(Some(d))
    requires Tracking(f) && EventOf([0x80, 0x07] + Encode(tree)) == Some(e)
    requires x == Next(foldLatin, f, e, ALL).snapshot
    requires Synchronised(st) && seen == Seen(Process(ProcessAll(st, meanwhile), x).cluster)
    ensures ReadsDistance(d, x.distance, x.unit)
    ensures seen.distance == x.distance % 0x1_0000 && seen.unit == x.unit
  {
    EventOfPosition(p, tree, [0x80, 0x07] + Encode(tree));
    StepDistanceReads(d, Nav16.NormalisePosition(p));
    ClusterShows(st, meanwhile, x, seen);
  }

  // The destinations of a position show nowhere.
  lemma DestinationsUnseen(foldLatin: bool, f: Feed, p: Nav16.PositionMsg, q: Nav16.PositionMsg, up: Taken)
    requires p.step == q.step
    ensures Next(foldLatin, f, OnPosition(Nav16.NormalisePosition(p)), up)
         == Next(foldLatin, f, OnPosition(Nav16.NormalisePosition(q)), up)
  {
  }

  // ---------------------------------------------------------------------------
  // Statuses
  // ---------------------------------------------------------------------------

  const STATUS_SCHEMA := Schema({1}, {}, map[])

  lemma {:induction false} StatusDecoded(tree: seq<Node>, v: uint64)
    requires AllOk(tree) && Strip(STATUS_SCHEMA, tree) == [VarintNode(1, v)]
    ensures Nav16.FirstStatus(ToRecords(tree)) == ToInt32(v % 0x1_0000_0000)
    decreases |tree|
  {
    assert ToRecords(tree)[1..] == ToRecords(tree[1..]);
    if Unknown(STATUS_SCHEMA, tree[0]) {
      StatusDecoded(tree[1..], v);
    } else {
      assert Strip(STATUS_SCHEMA, tree)[0] == StripNode(STATUS_SCHEMA, tree[0]);
    }
  }

  lemma {:induction false} NoStatus(tree: seq<Node>)
    requires AllOk(tree) && Strip(STATUS_SCHEMA, tree) == []
    ensures Nav16.FirstStatus(ToRecords(tree)) == -1
    decreases |tree|
  {
    if tree != [] {
      assert ToRecords(tree)[1..] == ToRecords(tree[1..]);
      NoStatus(tree[1..]);
    }
  }

  lemma EventOfStatus(tree: seq<Node>, e: Event)
    requires AllOk(tree) && EventOf([0x80, 0x03] + Encode(tree)) == Some(e)
    ensures e == OnStatus(false, Nav16.FirstStatus(ToRecords(tree)))
  {
    var frame := [0x80, 0x03] + Encode(tree);
    assert frame[2..] == Encode(tree);
    RecordsRoundTrip(tree);
  }

  lemma StatusDone(foldLatin: bool, f: Feed, status: int32)
    ensures Next(foldLatin, f, OnStatus(false, status), ALL)
         == if status == 0 || status == 2 then Feed(NOTHING, None, BLANK) else f
  {
  }

  lemma SmallStatus(v: uint64)
    requires v <= 3
    ensures ToInt32(v % 0x1_0000_0000) == v
  {
  }

  lemma StatusValue(tree: seq<Node>, v: Option<uint64>)
    requires AllOk(tree) && Strip(STATUS_SCHEMA, tree) == (if v.Some? then [VarintNode(1, v.value)] else [])
    requires v.Some? ==> v.value <= 3
    ensures Nav16.FirstStatus(ToRecords(tree)) == if v.Some? then v.value else -1
  {
    if v.Some? {
      StatusDecoded(tree, v.value);
      SmallStatus(v.value);
    } else {
      NoStatus(tree);
    }
  }

  // A status frame, unknown fields aside: unavailable (0) and inactive (2) blank the
  // transport and forget everything, active (1), rerouting (3) and none at all keep it.
  lemma StatusRead(foldLatin: bool, f: Feed, tree: seq<Node>, v: Option<uint64>, e: Event)
    requires AllOk(tree) && Strip(STATUS_SCHEMA, tree) == (if v.Some? then [VarintNode(1, v.value)] else [])
    requires v.Some? ==> v.value <= 3
    requires EventOf([0x80, 0x03] + Encode(tree)) == Some(e)
    ensures Next(foldLatin, f, e, ALL)
         == if v == Some(0) || v == Some(2) then Feed(NOTHING, None, BLANK) else f
  {
    EventOfStatus(tree, e);
    StatusValue(tree, v);
    StatusDone(foldLatin, f, if v.Some? then v.value else -1);
  }

  // A cluster stop always blanks it, whatever the body.
  lemma StopRead(foldLatin: bool, f: Feed, body: seq<byte>, e: Event)
    requires EventOf([0x80, 0x02] + body) == Some(e)
    ensures Next(foldLatin, f, e, ALL) == Feed(NOTHING, None, BLANK)
  {
  }

  // Which frames lead to a callback at all.
  lemma FrameKinds(frame: seq<byte>)
    ensures EventOf(frame).Some? <==> |frame| >= 2 && frame[0] == 0x80 && frame[1] in {0x02, 0x03, 0x06, 0x07}
  {
  }
}
