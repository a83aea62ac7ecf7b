// The GAL 1.6 accumulator (hud.cpp): navigation states and positions arrive as two
// streams, are merged into one HUD state, and reach the transport through a change gate.
module Nav16Feed {
  import opened Machine
  import opened Lanes
  import opened Glyphs
  import opened Translit
  import opened Distances
  import opened VbsTx
  import VbsSender
  import Nav16

  // ---------------------------------------------------------------------------
  // From decoded structures to the HUD's domain
  // ---------------------------------------------------------------------------

  const EMPTY_GLYPH: nat := 18

  // kManeuverGlyph, by navigation type.
  function ManeuverGlyph(kind: nat): nat {
    match kind
    case 1 => 12
    case 2 => 1
    case 3 => 15
    case 4 => 14
    case 5 => 4
    case 6 => 5
    case 7 => 2
    case 8 => 3
    case 9 => 11
    case 10 => 9
    case 11 => 13
    case 12 => 10
    case 13 => 4
    case 14 => 5
    case 15 => 2
    case 16 => 3
    case 17 => 11
    case 18 => 9
    case 19 => 13
    case 20 => 10
    case 21 => 30
    case 22 => 7
    case 23 => 30
    case 24 => 7
    case 25 => 15
    case 26 => 14
    case 27 => 16
    case 28 => 17
    case 29 => 1
    case 30 => 1
    case 31 => 1
    case 36 => 1
    case 39 => 8
    case 40 => 8
    case 41 => 33
    case 42 => 34
    case _ => EMPTY_GLYPH
  }

  function GlyphOf(g: Nav16.Guidance): nat {
    if g.kind == 32 || g.kind == 33 then Roundabout16(g.exitAngle, true)
    else if g.kind == 34 || g.kind == 35 then Roundabout16(g.exitAngle, false)
    else ManeuverGlyph(g.kind)
  }

  // Every glyph the map can give lies within the atlas, so the clamp after it is inert.
  lemma GlyphRange(g: Nav16.Guidance)
    ensures 1 <= GlyphOf(g) <= 60
  {
    Roundabout16Sector(g.exitAngle, true, 0);
    Roundabout16Sector(g.exitAngle, false, 0);
  }

  function Clamped(glyph: nat): uint32 {
    if glyph > 60 then 0 else glyph
  }

  const ROAD_CAP: nat := 64

  function RoadOf(foldLatin: bool, road: seq<byte>): seq<byte> {
    var local := CopyStr(road, ROAD_CAP);
    CopyStr(if foldLatin then Folded(local, 0) else local, ROAD_CAP)
  }

  function LaneCodes(lanes: seq<AaLane>): LaneBytes {
    seq(MAX_LANES, i requires 0 <= i < MAX_LANES => CodeAt(lanes, i) % 0x100)
  }

  function FirstLanes(lanes: seq<AaLane>): seq<AaLane> {
    if |lanes| > MAX_LANES then lanes[..MAX_LANES] else lanes
  }

  // The displayed distance of a position frame.
  function ShownDistance(p: Nav16.Position): (int32, byte) {
    var unit := MazdaUnit(p.step.units);
    var q := Quantise(Parsed(p.step.display), unit);
    (ToInt32(q), unit)
  }

  // ---------------------------------------------------------------------------
  // The merged state and its gate
  // ---------------------------------------------------------------------------

  datatype HudState = HudState(glyph: uint32, distance: int32, unit: byte, road: seq<byte>, lanes: seq<AaLane>)

  const NOTHING := HudState(0, 0, 0, [], [])

  // What the transport's snapshot should hold.
  function Encoded(acc: HudState): Snapshot {
    Snapshot(CopyStr(acc.road, ROAD_CAP), acc.glyph, acc.distance, acc.unit, LaneCodes(acc.lanes))
  }

  datatype Event =
    | OnGuidance(g: Nav16.Guidance)
    | OnPosition(p: Nav16.Position)
    | OnStatus(clusterStop: bool, status: int32)
    | SessionStart       // the reset before the receiver thread starts

  const UNAVAILABLE: int := 0
  const INACTIVE: int := 2

  // A status that ends guidance.
  predicate Ends(e: Event) {
    e.OnStatus? && (e.clusterStop || e.status == INACTIVE || e.status == UNAVAILABLE)
  }

  predicate Resets(e: Event) {
    Ends(e) || e.SessionStart?
  }

  // A different maneuver or road invalidates the held distance.
  function Absorb(acc: HudState, glyph: uint32, road: seq<byte>, lanes: seq<AaLane>): HudState {
    var same := glyph == acc.glyph && road == acc.road;
    HudState(glyph, if same then acc.distance else 0, if same then acc.unit else 0, road, lanes)
  }

  function Ingest(foldLatin: bool, acc: HudState, e: Event): HudState {
    match e
    case OnGuidance(g) => Absorb(acc, Clamped(GlyphOf(g)), RoadOf(foldLatin, g.road), FirstLanes(g.lanes))
    case OnPosition(p) =>
      if p.haveStep then acc.(distance := ShownDistance(p).0, unit := ShownDistance(p).1) else acc
    case OnStatus(_, _) => if Ends(e) then NOTHING else acc
    case SessionStart => NOTHING
  }

  // A callback that asks the gate.
  predicate AsksGate(e: Event) {
    e.OnGuidance? || (e.OnPosition? && e.p.haveStep)
  }

  datatype Feed = Feed(acc: HudState, last: Option<HudState>, snapshot: Snapshot)

  // Which writes of a callback find the transport active. Each producer tests that on its
  // own, and the sender thread may come up between two of them.
  type Taken = s: seq<bool> | |s| == 3 witness [false, false, false]

  const ALL: Taken := [true, true, true]
  const NONE: Taken := [false, false, false]

  // A snapshot from the parts the three writes carry.
  function Parts(turn: Snapshot, distance: Snapshot, lanes: Snapshot): Snapshot {
    Snapshot(turn.road, turn.icon, distance.distance, distance.unit, lanes.lanes)
  }

  function Put(s: Snapshot, acc: HudState, up: Taken): Snapshot {
    Parts(if up[0] then Encoded(acc) else s, if up[1] then Encoded(acc) else s, if up[2] then Encoded(acc) else s)
  }

  function Emit(f: Feed, up: Taken): Feed {
    if f.last == Some(f.acc) then f else Feed(f.acc, Some(f.acc), Put(f.snapshot, f.acc, up))
  }

  function TakenOne(w: VbsSender.Event, up: bool): seq<VbsSender.Event> {
    if up then [w] else []
  }

  // The writes of one emission that are taken.
  function EmissionWrites(acc: HudState, up: Taken): seq<VbsSender.Event> {
    TakenOne(VbsSender.NextTurn(Some(acc.road), acc.glyph), up[0])
    + TakenOne(VbsSender.Distance(acc.distance, acc.unit), up[1])
    + TakenOne(VbsSender.LaneGuidance(Some(LaneCodes(acc.lanes))), up[2])
  }

  const BLANKING: VbsSender.Event := VbsSender.Status(2)

  // What a callback writes to the transport, write by write.
  function NextWrites(foldLatin: bool, f: Feed, e: Event, up: Taken): seq<VbsSender.Event> {
    var acc := Ingest(foldLatin, f.acc, e);
    if Ends(e) then TakenOne(BLANKING, up[0])
    else if AsksGate(e) && f.last != Some(acc) then EmissionWrites(acc, up)
    else []
  }

  function Next(foldLatin: bool, f: Feed, e: Event, up: Taken): Feed {
    var acc := Ingest(foldLatin, f.acc, e);
    if Ends(e) then Feed(acc, None, if up[0] then BLANK else f.snapshot)
    else if e.SessionStart? then Feed(acc, None, f.snapshot)
    else if AsksGate(e) then Emit(f.(acc := acc), up)
    else f
  }

  method EncodeLanes(lanes: seq<AaLane>) returns (wire: LaneBytes)
    ensures wire == LaneCodes(lanes)
  {
    var codes := new nat[MAX_LANES];
    EncodeLaneCodes(lanes, codes);
    var out: seq<byte> := [];
    for i := 0 to MAX_LANES
      invariant |out| == i && forall j :: 0 <= j < i ==> out[j] == CodeAt(lanes, j) % 0x100
    {
      out := out + [codes[i] % 0x100];
    }
    wire := out;
  }

  class Nav16FeedState {
    const foldLatin: bool
    var acc: HudState
    var last: HudState
    var haveLast: bool
    // the transport: its snapshot, and every write it took
    var snapshot: Snapshot
    ghost var writes: seq<VbsSender.Event>

    ghost function View(): Feed
      reads this
    {
      Feed(acc, if haveLast then Some(last) else None, snapshot)
    }

    constructor (foldLatin: bool)
      ensures View() == Feed(NOTHING, None, BLANK) && this.foldLatin == foldLatin && writes == []
    {
      this.foldLatin := foldLatin;
      acc, last, haveLast, snapshot, writes := NOTHING, NOTHING, false, BLANK, [];
    }

    method Reset()
      modifies this`acc, this`haveLast
      ensures View() == Next(foldLatin, old(View()), SessionStart, NONE)
    {
      acc := NOTHING;
      haveLast := false;
    }

    // One write of the transport; an inactive transport drops it.
    method Write(w: VbsSender.Event, active: bool)
      modifies this`snapshot, this`writes
      ensures snapshot == if active then VbsSender.Apply(old(snapshot), w) else old(snapshot)
      ensures writes == old(writes) + TakenOne(w, active)
    {
      if active {
        snapshot := VbsSender.Apply(snapshot, w);
        writes := writes + [w];
      }
    }

    method WriteTransport(codes: LaneBytes, up: Taken)
      requires codes == LaneCodes(acc.lanes)
      modifies this`snapshot, this`writes
      ensures snapshot == Put(old(snapshot), acc, up)
      ensures writes == old(writes) + EmissionWrites(acc, up)
    {
      Write(VbsSender.NextTurn(Some(acc.road), acc.glyph), up[0]);
      Write(VbsSender.Distance(acc.distance, acc.unit), up[1]);
      Write(VbsSender.LaneGuidance(Some(codes)), up[2]);
    }

    method EmitIfChanged(up: Taken)
      modifies this`last, this`haveLast, this`snapshot, this`writes
      ensures View() == Emit(old(View()), up)
      ensures writes == old(writes) + if old(View()).last != Some(acc) then EmissionWrites(acc, up) else []
    {
      if haveLast && acc == last {
        return;
      }
      var codes := EncodeLanes(acc.lanes);
      WriteTransport(codes, up);
      last := acc;
      haveLast := true;
    }

    method AbsorbGuidance(glyph: uint32, road: seq<byte>, lanes: seq<AaLane>)
      modifies this`acc
      ensures acc == Absorb(old(acc), glyph, road, lanes)
    {
      if glyph != acc.glyph || road != acc.road {
        acc := acc.(distance := 0, unit := 0);
      }
      acc := acc.(glyph := glyph, road := road);
      acc := acc.(lanes := lanes);
    }

    method FoldRoad(name: seq<byte>) returns (road: seq<byte>)
      ensures road == RoadOf(foldLatin, name)
    {
      road := CopyStr(name, ROAD_CAP);
      if foldLatin {
        road := Folded(road, 0);
      }
      road := CopyStr(road, ROAD_CAP);
    }

    method OnGuidanceFrame(g: Nav16.Guidance, up: Taken)
      modifies this`acc, this`last, this`haveLast, this`snapshot, this`writes
      ensures View() == Next(foldLatin, old(View()), OnGuidance(g), up)
      ensures writes == old(writes) + NextWrites(foldLatin, old(View()), OnGuidance(g), up)
    {
      var road := FoldRoad(g.road);
      AbsorbGuidance(Clamped(GlyphOf(g)), road, FirstLanes(g.lanes));
      EmitIfChanged(up);
    }

    method OnPositionFrame(p: Nav16.Position, up: Taken)
      modifies this`acc, this`last, this`haveLast, this`snapshot, this`writes
      ensures View() == Next(foldLatin, old(View()), OnPosition(p), up)
      ensures writes == old(writes) + NextWrites(foldLatin, old(View()), OnPosition(p), up)
    {
      if !p.haveStep {
        return;
      }
      var unit := MazdaUnit(p.step.units);
      var parsed := ParseDistX10(p.step.display);
      acc := acc.(unit := unit);
      acc := acc.(distance := ToInt32(Quantise(parsed, unit)));
      EmitIfChanged(up);
    }

    method OnStatusFrame(clusterStop: bool, status: int32, up: Taken)
      modifies this`acc, this`haveLast, this`snapshot, this`writes
      ensures View() == Next(foldLatin, old(View()), OnStatus(clusterStop, status), up)
      ensures writes == old(writes) + NextWrites(foldLatin, old(View()), OnStatus(clusterStop, status), up)
    {
      if clusterStop || status == INACTIVE || status == UNAVAILABLE {
        Write(BLANKING, up[0]);
        Reset();
      }
    }
  }

  // ---------------------------------------------------------------------------
  // Whole histories
  // ---------------------------------------------------------------------------

  // A callback, and which of its writes found the transport active.
  datatype Callback = Callback(e: Event, up: Taken)

  function Accumulated(foldLatin: bool, h: seq<Callback>): HudState {
    if h == [] then NOTHING else Ingest(foldLatin, Accumulated(foldLatin, Init(h)), Last(h).e)
  }

  // The maneuver and road announced since the last reset.
  function Announced(foldLatin: bool, h: seq<Callback>): (uint32, seq<byte>) {
    if h == [] || Resets(Last(h).e) then (0, [])
    else if Last(h).e.OnGuidance? then (Clamped(GlyphOf(Last(h).e.g)), RoadOf(foldLatin, Last(h).e.g.road))
    else Announced(foldLatin, Init(h))
  }

  predicate Reannounces(foldLatin: bool, h: seq<Callback>)
    requires h != []
  {
    Announced(foldLatin, h) != Announced(foldLatin, Init(h))
  }

  predicate HasDistance(e: Event) {
    e.OnPosition? && e.p.haveStep
  }

  // The distance of the latest position received since the maneuver or road last changed
  // or the state was reset; none before that.
  function FreshDistance(foldLatin: bool, h: seq<Callback>): (int32, byte) {
    if h == [] || Resets(Last(h).e) then (0, 0)
    else if HasDistance(Last(h).e) then ShownDistance(Last(h).e.p)
    else if Reannounces(foldLatin, h) then (0, 0)
    else FreshDistance(foldLatin, Init(h))
  }

  function LatestLanes(h: seq<Callback>): seq<AaLane> {
    if h == [] || Resets(Last(h).e) then []
    else if Last(h).e.OnGuidance? then FirstLanes(Last(h).e.g.lanes)
    else LatestLanes(Init(h))
  }

  // The accumulator never shows a distance that belongs to an earlier maneuver.
  lemma {:induction false} AccumulatorFresh(foldLatin: bool, h: seq<Callback>)
    ensures var (glyph, road) := Announced(foldLatin, h);
            var (distance, unit) := FreshDistance(foldLatin, h);
            Accumulated(foldLatin, h) == HudState(glyph, distance, unit, road, LatestLanes(h))
  {
    if h != [] {
      AccumulatorFresh(foldLatin, Init(h));
    }
  }

  // The feed after a history.
  function Fed(foldLatin: bool, start: Snapshot, h: seq<Callback>): Feed {
    if h == [] then Feed(NOTHING, None, start)
    else Next(foldLatin, Fed(foldLatin, start, Init(h)), Last(h).e, Last(h).up)
  }

  // The gate has been asked since the last reset.
  predicate Gated(h: seq<Callback>) {
    h != [] && !Resets(Last(h).e) && (AsksGate(Last(h).e) || Gated(Init(h)))
  }

  // The last callback opens the gate: it is the first to ask since the last reset, or it
  // changed something.
  predicate Opens(foldLatin: bool, h: seq<Callback>) {
    h != [] && AsksGate(Last(h).e)
    && (!Gated(Init(h)) || Accumulated(foldLatin, h) != Accumulated(foldLatin, Init(h)))
  }

  // The state the last write number k that was taken belongs to: the accumulator as of a
  // gate opening, or nothing after an ending, which is one write for all three parts.
  function Arrived(foldLatin: bool, start: Snapshot, h: seq<Callback>, k: nat): Snapshot
    requires k < 3
  {
    if h == [] then start
    else if Opens(foldLatin, h) && Last(h).up[k] then Encoded(Accumulated(foldLatin, h))
    else if Ends(Last(h).e) && Last(h).up[0] then BLANK
    else Arrived(foldLatin, start, Init(h), k)
  }

  // What the transport holds after a history, part by part.
  function Held(foldLatin: bool, start: Snapshot, h: seq<Callback>): Snapshot {
    Parts(Arrived(foldLatin, start, h, 0), Arrived(foldLatin, start, h, 1), Arrived(foldLatin, start, h, 2))
  }

  predicate SameTurn(s: Snapshot, t: Snapshot) {
    s.road == t.road && s.icon == t.icon
  }

  predicate SameDistance(s: Snapshot, t: Snapshot) {
    s.distance == t.distance && s.unit == t.unit
  }

  predicate SameLanes(s: Snapshot, t: Snapshot) {
    s.lanes == t.lanes
  }

  lemma FeedStep(foldLatin: bool, f: Feed, e: Event, up: Taken, acc: HudState, gated: bool, opens: bool)
    requires acc == Ingest(foldLatin, f.acc, e) && f.last == if gated then Some(f.acc) else None
    requires opens == (AsksGate(e) && (!gated || acc != f.acc))
    ensures Next(foldLatin, f, e, up)
         == Feed(acc, if !Resets(e) && (AsksGate(e) || gated) then Some(acc) else None,
                 if opens then Put(f.snapshot, acc, up) else if Ends(e) && up[0] then BLANK else f.snapshot)
  {
  }

  // For every history, whichever writes were dropped. The gate takes a dropped write for a
  // sent one, so the transport is up to date exactly when the last write of each kind that
  // was taken happens to carry that part of the current state.
  lemma {:induction false} SnapshotHistory(foldLatin: bool, start: Snapshot, h: seq<Callback>, acc: HudState)
    requires acc == Accumulated(foldLatin, h)
    ensures Fed(foldLatin, start, h) == Feed(acc, if Gated(h) then Some(acc) else None, Held(foldLatin, start, h))
    ensures Fed(foldLatin, start, h).snapshot == Encoded(acc) <==>
      && SameTurn(Arrived(foldLatin, start, h, 0), Encoded(acc))
      && SameDistance(Arrived(foldLatin, start, h, 1), Encoded(acc))
      && SameLanes(Arrived(foldLatin, start, h, 2), Encoded(acc))
    decreases |h|
  {
    if h != [] {
      var before := Accumulated(foldLatin, Init(h));
      SnapshotHistory(foldLatin, start, Init(h), before);
      FeedStep(foldLatin, Fed(foldLatin, start, Init(h)), Last(h).e, Last(h).up, acc, Gated(Init(h)),
               Opens(foldLatin, h));
    }
  }

  // --- frames held back --------------------------------------------------------------------

  // A left turn with one recommended lane straight ahead.
  const AHEAD: AaLane := AaLane({1}, {1})
  const LEFT_TURN: Nav16.Guidance := Nav16.NO_GUIDANCE.(haveManeuver := true, kind := 7, lanes := [AHEAD])

  lemma LeftTurnTwice(foldLatin: bool, e: Event)
    requires e == OnGuidance(LEFT_TURN)
    ensures var acc := Ingest(foldLatin, NOTHING, e);
            acc.glyph == 2 && acc.lanes == [AHEAD] && Ingest(foldLatin, acc, e) == acc
  {
    assert ManeuverGlyph(7) == 2;
  }

  // Whichever writes of the first left turn were taken, the gate holds the second one back.
  lemma HeldBack(foldLatin: bool, e: Event, up: Taken, again: Taken, once: seq<Callback>, twice: seq<Callback>)
    requires e == OnGuidance(LEFT_TURN)
    requires once == [Callback(e, up)] && twice == once + [Callback(e, again)]
    ensures var acc := Ingest(foldLatin, NOTHING, e);
            && acc.glyph == 2 && acc.lanes == [AHEAD]
            && Fed(foldLatin, BLANK, once) == Feed(acc, Some(acc), Put(BLANK, acc, up))
            && Fed(foldLatin, BLANK, twice) == Fed(foldLatin, BLANK, once)
  {
    assert Init(once) == [] && Init(twice) == once;
    LeftTurnTwice(foldLatin, e);
  }

  // A left turn dropped by an inactive transport is held back when it comes again.
  lemma DroppedFrameHeldBack(foldLatin: bool, e: Event, twice: seq<Callback>)
    requires e == OnGuidance(LEFT_TURN) && twice == [Callback(e, NONE), Callback(e, ALL)]
    ensures Fed(foldLatin, BLANK, twice).acc.glyph == 2 && Fed(foldLatin, BLANK, twice).snapshot == BLANK
  {
    HeldBack(foldLatin, e, NONE, ALL, [Callback(e, NONE)], twice);
  }

  // A sender that comes up between the first and the second write takes the lanes of the
  // turn without its glyph, and the turn is held back when it comes again.
  lemma LateActivation(foldLatin: bool, e: Event, twice: seq<Callback>)
    requires e == OnGuidance(LEFT_TURN)
    requires twice == [Callback(e, [false, true, true]), Callback(e, ALL)]
    ensures var f := Fed(foldLatin, BLANK, twice);
            f.acc.glyph == 2 && f.snapshot.icon == 0 && f.snapshot.lanes == LaneCodes([AHEAD]) != NO_LANES
  {
    HeldBack(foldLatin, e, [false, true, true], ALL, [Callback(e, [false, true, true])], twice);
    LaneCodeRange(AHEAD);
    assert LaneCodes([AHEAD])[0] != NO_LANES[0];
  }

  // --- nothing dropped since ------------------------------------------------------------------

  // The latest opening or ending since the session started had its write number k taken.
  predicate Current(foldLatin: bool, h: seq<Callback>, k: nat)
    requires k < 3
  {
    h != [] && if Opens(foldLatin, h) then Last(h).up[k]
               else if Ends(Last(h).e) then Last(h).up[0]
               else !Last(h).e.SessionStart? && Current(foldLatin, Init(h), k)
  }

  lemma EncodedNothing()
    ensures Encoded(NOTHING) == BLANK
  {
  }

  lemma {:induction false} QuietKeepsState(foldLatin: bool, h: seq<Callback>)
    requires h != [] && !Opens(foldLatin, h) && !Ends(Last(h).e) && !Last(h).e.SessionStart?
    ensures Accumulated(foldLatin, h) == Accumulated(foldLatin, Init(h))
  {
  }

  // Then that part is the encoded accumulator's: the gate holds back no change.
  lemma {:induction false} SnapshotTracks(foldLatin: bool, start: Snapshot, h: seq<Callback>, k: nat)
    requires k < 3 && Current(foldLatin, h, k)
    ensures Arrived(foldLatin, start, h, k) == Encoded(Accumulated(foldLatin, h))
  {
    EncodedNothing();
    if !Opens(foldLatin, h) && !Ends(Last(h).e) {
      QuietKeepsState(foldLatin, h);
      SnapshotTracks(foldLatin, start, Init(h), k);
    }
  }

  // It was taken whole.
  predicate Whole(foldLatin: bool, h: seq<Callback>) {
    Current(foldLatin, h, 0) && Current(foldLatin, h, 1) && Current(foldLatin, h, 2)
  }

  lemma WholeTracks(foldLatin: bool, start: Snapshot, h: seq<Callback>)
    requires Whole(foldLatin, h)
    ensures Held(foldLatin, start, h) == Encoded(Accumulated(foldLatin, h))
  {
    SnapshotTracks(foldLatin, start, h, 0);
    SnapshotTracks(foldLatin, start, h, 1);
    SnapshotTracks(foldLatin, start, h, 2);
  }

  predicate AlwaysActive(h: seq<Callback>) {
    forall i :: 0 <= i < |h| ==> h[i].up == ALL
  }

  // Whether anything has been written since the last session start.
  predicate Written(h: seq<Callback>) {
    h != [] && (AsksGate(Last(h).e) || Ends(Last(h).e) || (!Last(h).e.SessionStart? && Written(Init(h))))
  }

  lemma {:induction false} GatedIsCurrent(foldLatin: bool, h: seq<Callback>)
    requires AlwaysActive(h)
    ensures Gated(h) || Written(h) ==> Whole(foldLatin, h)
  {
    if h != [] {
      assert AlwaysActive(Init(h)) && Last(h).up == ALL;
      GatedIsCurrent(foldLatin, Init(h));
    }
  }

  // Together, with an active transport: from the first emission on it holds the latest
  // announced maneuver, road and lanes with a fresh distance after every callback.
  lemma SnapshotFresh(foldLatin: bool, start: Snapshot, h: seq<Callback>)
    requires AlwaysActive(h) && Written(h)
    ensures var (glyph, road) := Announced(foldLatin, h);
            var (distance, unit) := FreshDistance(foldLatin, h);
            Fed(foldLatin, start, h).snapshot == Encoded(HudState(glyph, distance, unit, road, LatestLanes(h)))
  {
    GatedIsCurrent(foldLatin, h);
    WholeTracks(foldLatin, start, h);
    SnapshotHistory(foldLatin, start, h, Accumulated(foldLatin, h));
    AccumulatorFresh(foldLatin, h);
  }

  // ---------------------------------------------------------------------------
  // Write by write
  // ---------------------------------------------------------------------------

  function CallbackWrites(foldLatin: bool, h: seq<Callback>): seq<VbsSender.Event>
    requires h != []
  {
    if Ends(Last(h).e) then TakenOne(BLANKING, Last(h).up[0])
    else if Opens(foldLatin, h) then EmissionWrites(Accumulated(foldLatin, h), Last(h).up)
    else []
  }

  function Writes(foldLatin: bool, h: seq<Callback>): seq<VbsSender.Event> {
    if h == [] then [] else Writes(foldLatin, Init(h)) + CallbackWrites(foldLatin, h)
  }

  lemma WritesOfCallback(foldLatin: bool, start: Snapshot, h: seq<Callback>)
    requires h != []
    ensures CallbackWrites(foldLatin, h) == NextWrites(foldLatin, Fed(foldLatin, start, Init(h)), Last(h).e, Last(h).up)
  {
    SnapshotHistory(foldLatin, start, Init(h), Accumulated(foldLatin, Init(h)));
  }
}
