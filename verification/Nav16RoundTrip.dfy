// Round trip of the navigation messages: decoding an encoded message gives its normal
// form, whatever unknown fields were mixed in at whatever nesting level.
module Nav16RoundTrip {
  import opened Machine
  import opened Lanes
  import opened Wire
  import opened Nav16

  // --- unknown fields make no difference ---------------------------------------------

  lemma SubMessage<A(!new)>(step: (A, Record) -> A, schema: Schema, a: A, ch: seq<Node>)
    requires AllOk(ch) && Ignores(step, schema)
    ensures Fold(step, a, Records(Encode(ch))) == Fold(step, a, Records(Encode(Strip(schema, ch))))
  {
    StripOk(schema, ch);
    RecordsRoundTrip(ch);
    RecordsRoundTrip(Strip(schema, ch));
    FoldStrip(step, schema, a, ch);
  }

  lemma LeavesIgnore()
    ensures Ignores(DistanceStep, DISTANCE)
    ensures Ignores(RoadStep, ROAD)
    ensures Ignores(DirectionStep, DIRECTION)
    ensures Ignores(ManeuverStep, MANEUVER)
  {
  }

  lemma LaneIgnores()
    ensures Ignores(LaneStep, LANE)
  {
    LeavesIgnore();
    forall a: AaLane, n: Node | NodeOk(n) && n.MessageNode? && n.field == 1
      ensures LaneStep(a, ToRecord(n)) == LaneStep(a, ToRecord(StripNode(LANE, n)))
    {
      SubMessage(DirectionStep, DIRECTION, NO_DIRECTION, n.children);
    }
  }

  lemma ManeuverPayload(a: Guidance, ch: seq<Node>)
    requires AllOk(ch)
    ensures DecodeManeuver(Encode(ch), a) == DecodeManeuver(Encode(Strip(MANEUVER, ch)), a)
  {
    LeavesIgnore();
    SubMessage(ManeuverStep, MANEUVER, a, ch);
  }

  lemma RoadPayload(road: seq<byte>, ch: seq<Node>)
    requires AllOk(ch)
    ensures DecodeRoad(Encode(ch), road) == DecodeRoad(Encode(Strip(ROAD, ch)), road)
  {
    LeavesIgnore();
    SubMessage(RoadStep, ROAD, road, ch);
  }

  lemma LanePayload(ch: seq<Node>)
    requires AllOk(ch)
    ensures DecodeLane(Encode(ch)) == DecodeLane(Encode(Strip(LANE, ch)))
  {
    LaneIgnores();
    SubMessage(LaneStep, LANE, NO_LANE, ch);
  }

  lemma StepPayloads(a: Guidance, f: uint32, ch: seq<Node>, sub: Schema)
    requires AllOk(ch) && 1 <= f <= 3 && sub == if f == 1 then MANEUVER else if f == 2 then ROAD else LANE
    ensures StepStep(a, Bytes(f, Encode(ch))) == StepStep(a, Bytes(f, Encode(Strip(sub, ch))))
  {
    if f == 1 {
      ManeuverPayload(a, ch);
    } else if f == 2 {
      RoadPayload(a.road, ch);
    } else {
      LanePayload(ch);
    }
  }

  lemma StepIgnores()
    ensures Ignores(StepStep, STEP)
  {
    forall a: Guidance, n: Node | NodeOk(n) && n.MessageNode? && 1 <= n.field <= 3
      ensures StepStep(a, ToRecord(n)) == StepStep(a, ToRecord(StripNode(STEP, n)))
    {
      StepPayloads(a, n.field, n.children, STEP.messages[n.field]);
    }
  }

  lemma StepPayload(sub: Schema, a: NavAcc, ch: seq<Node>)
    requires AllOk(ch) && Ignores(StepStep, sub)
    ensures EnterStep(a, Encode(ch)) == EnterStep(a, Encode(Strip(sub, ch)))
  {
    SubMessage(StepStep, sub, CountStep(a).g, ch);
  }

  lemma NavIgnoresWith(top: Schema, sub: Schema)
    requires top.strings == {} && top.messages == map[1 := sub]
    requires Ignores(StepStep, sub)
    ensures Ignores(NavStep, top)
  {
    forall a: NavAcc, n: Node | NodeOk(n) && n.MessageNode? && n.field == 1
      ensures NavStep(a, ToRecord(n)) == NavStep(a, ToRecord(StripNode(top, n)))
    {
      StepPayload(sub, a, n.children);
    }
  }

  lemma NavIgnores()
    ensures Ignores(NavStep, NAV_STATE)
  {
    StepIgnores();
    NavIgnoresWith(NAV_STATE, STEP);
  }

  lemma StepDistanceIgnores()
    ensures Ignores(StepDistanceStep, STEP_DISTANCE)
    ensures Ignores(DestDistanceStep, DEST_DISTANCE)
  {
    LeavesIgnore();
    forall a: Position, n: Node | NodeOk(n) && n.MessageNode? && n.field == 1
      ensures StepDistanceStep(a, ToRecord(n)) == StepDistanceStep(a, ToRecord(StripNode(STEP_DISTANCE, n)))
      ensures DestDistanceStep(a, ToRecord(n)) == DestDistanceStep(a, ToRecord(StripNode(DEST_DISTANCE, n)))
    {
      SubMessage(DistanceStep, DISTANCE, a.step, n.children);
      SubMessage(DistanceStep, DISTANCE, a.dest, n.children);
    }
  }

  lemma PosIgnores()
    ensures Ignores(PosStep, POSITION)
  {
    StepDistanceIgnores();
    forall a: PosAcc, n: Node | NodeOk(n) && n.MessageNode? && 1 <= n.field <= 2
      ensures PosStep(a, ToRecord(n)) == PosStep(a, ToRecord(StripNode(POSITION, n)))
    {
      if n.field == 1 {
        SubMessage(StepDistanceStep, STEP_DISTANCE, a.x, n.children);
      } else {
        SubMessage(DestDistanceStep, DEST_DISTANCE, a.x, n.children);
      }
    }
  }

  // --- canonical messages ---------------------------------------------------------------

  lemma {:induction false} AllOkConcat(xs: seq<Node>, ys: seq<Node>)
    ensures AllOk(xs + ys) <==> AllOk(xs) && AllOk(ys)
    decreases |xs|
  {
    if xs == [] {
      assert xs + ys == ys;
    } else {
      assert (xs + ys)[1..] == xs[1..] + ys;
      AllOkConcat(xs[1..], ys);
    }
  }

  // One more field at the end of a message is one more step.
  lemma FoldSnoc<A>(step: (A, Record) -> A, a: A, ns: seq<Node>, n: Node)
    ensures Fold(step, a, ToRecords(ns + [n])) == step(Fold(step, a, ToRecords(ns)), ToRecord(n))
    ensures AllOk(ns + [n]) ==> AllOk(ns) && NodeOk(n)
  {
    ToRecordsConcat(ns, [n]);
    AllOkConcat(ns, [n]);
    FoldConcat(step, a, ToRecords(ns), ToRecords([n]));
    FoldOne(step, Fold(step, a, ToRecords(ns)), n);
  }

  lemma FoldOne<A>(step: (A, Record) -> A, a: A, n: Node)
    ensures Fold(step, a, ToRecords([n])) == step(a, ToRecord(n))
    ensures AllOk([n]) <==> NodeOk(n)
  {
    assert ToRecords([n]) == [ToRecord(n)];
    assert [ToRecord(n)][1..] == [];
    assert [n][1..] == [];
  }

  lemma FoldTwo<A>(step: (A, Record) -> A, a: A, xs: seq<Node>, ys: seq<Node>)
    ensures Fold(step, a, ToRecords(xs + ys)) == Fold(step, Fold(step, a, ToRecords(xs)), ToRecords(ys))
    ensures AllOk(xs + ys) <==> AllOk(xs) && AllOk(ys)
  {
    ToRecordsConcat(xs, ys);
    AllOkConcat(xs, ys);
    FoldConcat(step, a, ToRecords(xs), ToRecords(ys));
  }

  lemma DirectionCanon(d: LaneDirectionMsg)
    ensures Fold(DirectionStep, NO_DIRECTION, ToRecords(DirectionTree(d))) == NormalDirection(d)
    ensures AllOk(DirectionTree(d))
  {
    var a, b := OptShape(d.shape), OptHighlight(d.highlighted);
    FoldTwo(DirectionStep, NO_DIRECTION, a, b);
    if d.shape.Some? {
      FoldOne(DirectionStep, NO_DIRECTION, a[0]);
    }
    var d1 := Fold(DirectionStep, NO_DIRECTION, ToRecords(a));
    if d.highlighted.Some? {
      FoldOne(DirectionStep, d1, b[0]);
    }
  }

  lemma {:induction false} LaneCanon(ds: seq<LaneDirectionMsg>)
    requires AllOk(LaneTree(ds))
    ensures Fold(LaneStep, NO_LANE, ToRecords(LaneTree(ds))) == NormalLane(ds)
  {
    if ds != [] {
      var tree := DirectionTree(Last(ds));
      FoldSnoc(LaneStep, NO_LANE, LaneTree(Init(ds)), MessageNode(1, tree));
      LaneCanon(Init(ds));
      DirectionCanon(Last(ds));
      RecordsRoundTrip(tree);
    }
  }

  function Cut<T>(s: seq<T>): seq<T> {
    if |s| > MAX_LANES then s[..MAX_LANES] else s
  }

  lemma OneLane(g: Guidance, ds: seq<LaneDirectionMsg>)
    requires AllOk(LaneTree(ds))
    ensures StepStep(g, ToRecord(MessageNode(3, LaneTree(ds))))
         == if |g.lanes| < MAX_LANES then g.(lanes := g.lanes + [NormalLane(ds)]) else g
  {
    LaneCanon(ds);
    RecordsRoundTrip(LaneTree(ds));
  }

  lemma CutSnoc(lanes: seq<seq<LaneDirectionMsg>>)
    requires lanes != []
    ensures NormalLanes(Cut(lanes))
         == if |lanes| <= MAX_LANES then NormalLanes(Cut(Init(lanes))) + [NormalLane(Last(lanes))]
            else NormalLanes(Cut(Init(lanes)))
    ensures |NormalLanes(Cut(Init(lanes)))| < MAX_LANES <==> |lanes| <= MAX_LANES
  {
    if |lanes| > MAX_LANES {
      assert Cut(Init(lanes)) == Cut(lanes);
    }
  }

  lemma {:induction false} LanesCanon(g: Guidance, lanes: seq<seq<LaneDirectionMsg>>)
    requires AllOk(LanesTree(lanes)) && g.lanes == []
    ensures Fold(StepStep, g, ToRecords(LanesTree(lanes))) == g.(lanes := NormalLanes(Cut(lanes)))
  {
    if lanes != [] {
      var before, last := Init(lanes), Last(lanes);
      FoldSnoc(StepStep, g, LanesTree(before), MessageNode(3, LaneTree(last)));
      LanesCanon(g, before);
      OneLane(g.(lanes := NormalLanes(Cut(before))), last);
      CutSnoc(lanes);
    }
  }

  lemma SignRoundTrip(v: int32)
    ensures ToInt32(SignExtend(v)) == v
  {
  }

  function WithManeuver(g: Guidance, m: Option<ManeuverMsg>): Guidance {
    var m := OrElse(m, ManeuverMsg(None, None, None));
    g.(haveManeuver := m.kind.Some?, kind := OrElse(m.kind, 0),
       exitNumber := OrElse(m.exitNumber, 0), exitAngle := OrElse(m.exitAngle, 0))
  }

  lemma ManeuverCanon(g: Guidance, m: ManeuverMsg)
    requires g.kind == 0 && g.exitNumber == 0 && g.exitAngle == 0 && !g.haveManeuver
    ensures Fold(ManeuverStep, g, ToRecords(ManeuverTree(m)))
         == WithManeuver(g, Some(m))
  {
    var a, b, c := OptVarint(1, m.kind), OptInt32(2, m.exitNumber), OptInt32(3, m.exitAngle);
    FoldTwo(ManeuverStep, g, a + b, c);
    FoldTwo(ManeuverStep, g, a, b);
    if m.kind.Some? {
      FoldOne(ManeuverStep, g, a[0]);
    }
    var g1 := Fold(ManeuverStep, g, ToRecords(a));
    if m.exitNumber.Some? {
      SignRoundTrip(m.exitNumber.value);
      FoldOne(ManeuverStep, g1, b[0]);
    }
    var g2 := Fold(ManeuverStep, g1, ToRecords(b));
    if m.exitAngle.Some? {
      SignRoundTrip(m.exitAngle.value);
      FoldOne(ManeuverStep, g2, c[0]);
    }
  }

  // A road message without a name leaves the road as it was.
  lemma RoadCanon(name: Option<seq<byte>>, tree: seq<Node>)
    requires AllOk(tree) && tree == RoadTree(name)
    ensures Fold(RoadStep, [], Records(Encode(tree))) == CopyStr(OrElse(name, []), 64)
  {
    RecordsRoundTrip(tree);
    if name.Some? {
      FoldOne(RoadStep, [], tree[0]);
    }
  }

  lemma RoadField(g: Guidance, name: Option<seq<byte>>, tree: seq<Node>)
    requires AllOk(tree) && tree == RoadTree(name) && g.road == []
    ensures StepStep(g, ToRecord(MessageNode(2, tree))) == g.(road := CopyStr(OrElse(name, []), 64))
  {
    RoadCanon(name, tree);
  }

  lemma ManeuverPart(g: Guidance, m: Option<ManeuverMsg>)
    requires g.kind == 0 && g.exitNumber == 0 && g.exitAngle == 0 && !g.haveManeuver
    requires AllOk(ManeuverPartTree(m))
    ensures Fold(StepStep, g, ToRecords(ManeuverPartTree(m))) == WithManeuver(g, m)
  {
    if m.Some? {
      FoldOne(StepStep, g, MessageNode(1, ManeuverTree(m.value)));
      RecordsRoundTrip(ManeuverTree(m.value));
      ManeuverCanon(g, m.value);
    }
  }

  lemma RoadPart(g: Guidance, road: Option<Option<seq<byte>>>)
    requires AllOk(RoadPartTree(road)) && g.road == []
    ensures Fold(StepStep, g, ToRecords(RoadPartTree(road)))
         == g.(road := CopyStr(OrElse(OrElse(road, None), []), 64))
  {
    if road.Some? {
      FoldOne(StepStep, g, MessageNode(2, RoadTree(road.value)));
      RoadField(g, road.value, RoadTree(road.value));
    }
  }

  lemma StepParts(s: StepMsg, g: Guidance, g1: Guidance, g2: Guidance)
    requires g1 == Fold(StepStep, g, ToRecords(ManeuverPartTree(s.maneuver)))
    requires g2 == Fold(StepStep, g1, ToRecords(RoadPartTree(s.road)))
    ensures Fold(StepStep, g, ToRecords(StepTree(s))) == Fold(StepStep, g2, ToRecords(LanesTree(s.lanes)))
    ensures AllOk(StepTree(s)) <==>
      AllOk(ManeuverPartTree(s.maneuver)) && AllOk(RoadPartTree(s.road)) && AllOk(LanesTree(s.lanes))
  {
    var a, b := ManeuverPartTree(s.maneuver), RoadPartTree(s.road);
    FoldTwo(StepStep, g, a + b, LanesTree(s.lanes));
    FoldTwo(StepStep, g, a, b);
  }

  lemma StepCanon(s: StepMsg, g: Guidance)
    requires AllOk(StepTree(s)) && g == NO_GUIDANCE.(nSteps := 1)
    ensures Fold(StepStep, g, ToRecords(StepTree(s))) == Normalise([s])
  {
    var g1 := Fold(StepStep, g, ToRecords(ManeuverPartTree(s.maneuver)));
    var g2 := Fold(StepStep, g1, ToRecords(RoadPartTree(s.road)));
    StepParts(s, g, g1, g2);
    ManeuverPart(g, s.maneuver);
    RoadPart(g1, s.road);
    LanesCanon(g2, s.lanes);
  }

  lemma FirstStep(a: NavAcc, s: StepMsg)
    requires AllOk(StepTree(s)) && a == NavAcc(NO_GUIDANCE, false)
    ensures EnterStep(a, Encode(StepTree(s))) == NavAcc(Normalise([s]), true)
  {
    RecordsRoundTrip(StepTree(s));
    StepCanon(s, CountStep(a).g);
  }

  lemma LaterStep(steps: seq<StepMsg>)
    requires |steps| > 1
    ensures CountStep(NavAcc(Normalise(Init(steps)), true)) == NavAcc(Normalise(steps), true)
  {
    assert Init(steps)[0] == steps[0];
  }

  lemma {:induction false} NavCanon(steps: seq<StepMsg>)
    requires AllOk(NavTree(steps))
    ensures Fold(NavStep, NavAcc(NO_GUIDANCE, false), ToRecords(NavTree(steps)))
         == NavAcc(Normalise(steps), steps != [])
  {
    if steps != [] {
      var tree := StepTree(Last(steps));
      FoldSnoc(NavStep, NavAcc(NO_GUIDANCE, false), NavTree(Init(steps)), MessageNode(1, tree));
      NavCanon(Init(steps));
      if |steps| == 1 {
        FirstStep(NavAcc(NO_GUIDANCE, false), Last(steps));
        assert steps == [Last(steps)];
      } else {
        LaterStep(steps);
      }
    }
  }

  // Every message, with arbitrary unknown fields inserted at any nesting level, decodes
  // to its normal form: step 0, the first eight lanes, shapes 0..9, truncated strings and
  // the full step count.
  lemma NavStateRoundTrip(steps: seq<StepMsg>, tree: seq<Node>, wire: seq<byte>)
    requires AllOk(tree) && Strip(NAV_STATE, tree) == NavTree(steps) && wire == Encode(tree)
    ensures DecodeNavState(wire) == Normalise(steps)
  {
    NavIgnores();
    StripOk(NAV_STATE, tree);
    SubMessage(NavStep, NAV_STATE, NavAcc(NO_GUIDANCE, false), tree);
    RecordsRoundTrip(NavTree(steps));
    NavCanon(steps);
  }

  // --- positions -------------------------------------------------------------------------

  lemma MetersPart(d: Distance, meters: Option<int32>)
    requires d.meters == 0
    ensures Fold(DistanceStep, d, ToRecords(OptInt32(1, meters))) == d.(meters := OrElse(meters, 0))
  {
    if meters.Some? {
      SignRoundTrip(meters.value);
      FoldOne(DistanceStep, d, OptInt32(1, meters)[0]);
    }
  }

  lemma DisplayPart(d: Distance, display: Option<seq<byte>>)
    requires d.display == []
    ensures Fold(DistanceStep, d, ToRecords(OptBytes(2, display))) == d.(display := CopyStr(OrElse(display, []), 16))
  {
    if display.Some? {
      FoldOne(DistanceStep, d, OptBytes(2, display)[0]);
    }
  }

  lemma UnitsPart(d: Distance, units: Option<uint32>)
    requires d.units == 0
    ensures Fold(DistanceStep, d, ToRecords(OptVarint(3, units))) == d.(units := OrElse(units, 0))
  {
    if units.Some? {
      FoldOne(DistanceStep, d, OptVarint(3, units)[0]);
    }
  }

  lemma DistanceCanon(d: DistanceMsg)
    ensures Fold(DistanceStep, NO_DISTANCE, ToRecords(DistanceTree(d))) == NormalDistance(Some(d))
  {
    var a, b, c := OptInt32(1, d.meters), OptBytes(2, d.display), OptVarint(3, d.units);
    FoldTwo(DistanceStep, NO_DISTANCE, a + b, c);
    FoldTwo(DistanceStep, NO_DISTANCE, a, b);
    MetersPart(NO_DISTANCE, d.meters);
    DisplayPart(Fold(DistanceStep, NO_DISTANCE, ToRecords(a)), d.display);
    UnitsPart(Fold(DistanceStep, NO_DISTANCE, ToRecords(a + b)), d.units);
  }

  lemma StepDistanceCanon(x: Position, d: Option<DistanceMsg>)
    requires AllOk(OptDistance(d)) && x.step == NO_DISTANCE && !x.haveStep
    ensures Fold(StepDistanceStep, x, ToRecords(OptDistance(d)))
         == x.(step := NormalDistance(d), haveStep := d.Some?)
  {
    if d.Some? {
      FoldOne(StepDistanceStep, x, OptDistance(d)[0]);
      RecordsRoundTrip(DistanceTree(d.value));
      DistanceCanon(d.value);
    }
  }

  lemma DestDistanceCanon(x: Position, d: Option<DistanceMsg>)
    requires AllOk(OptDistance(d)) && x.dest == NO_DISTANCE && !x.haveDest
    ensures Fold(DestDistanceStep, x, ToRecords(OptDistance(d)))
         == x.(dest := NormalDistance(d), haveDest := d.Some?)
  {
    if d.Some? {
      FoldOne(DestDistanceStep, x, OptDistance(d)[0]);
      RecordsRoundTrip(DistanceTree(d.value));
      DistanceCanon(d.value);
    }
  }

  function WithDestination(x: Position, d: DestinationMsg): Position {
    x.(dest := NormalDistance(d.distance), haveDest := d.distance.Some?, eta := CopyStr(OrElse(d.eta, []), 16))
  }

  lemma DestinationCanon(x: Position, d: DestinationMsg)
    requires AllOk(DestinationTree(d)) && x.dest == NO_DISTANCE && !x.haveDest && x.eta == []
    ensures Fold(DestDistanceStep, x, ToRecords(DestinationTree(d)))
         == WithDestination(x, d)
  {
    FoldTwo(DestDistanceStep, x, OptDistance(d.distance), OptBytes(2, d.eta));
    DestDistanceCanon(x, d.distance);
    if d.eta.Some? {
      FoldOne(DestDistanceStep, x.(dest := NormalDistance(d.distance), haveDest := d.distance.Some?),
              OptBytes(2, d.eta)[0]);
    }
  }

  lemma {:induction false} DestinationsCanon(x: Position, ds: seq<DestinationMsg>)
    requires AllOk(DestinationsTree(ds)) && x.dest == NO_DISTANCE && !x.haveDest && x.eta == []
    ensures Fold(PosStep, PosAcc(x, false), ToRecords(DestinationsTree(ds)))
         == PosAcc(WithDestination(x, if ds == [] then DestinationMsg(None, None) else ds[0]), ds != [])
  {
    if ds != [] {
      var tree := DestinationTree(Last(ds));
      FoldSnoc(PosStep, PosAcc(x, false), DestinationsTree(Init(ds)), MessageNode(2, tree));
      DestinationsCanon(x, Init(ds));
      if |ds| == 1 {
        RecordsRoundTrip(tree);
        DestinationCanon(x, Last(ds));
      }
    }
  }

  lemma PosStepField(a: PosAcc, d: Option<DistanceMsg>)
    requires AllOk(OptDistance(d)) && a.x.step == NO_DISTANCE && !a.x.haveStep
    ensures PosStep(a, ToRecord(MessageNode(1, OptDistance(d))))
         == a.(x := a.x.(step := NormalDistance(d), haveStep := d.Some?))
  {
    RecordsRoundTrip(OptDistance(d));
    StepDistanceCanon(a.x, d);
  }

  lemma PositionCanon(p: PositionMsg)
    requires AllOk(PositionTree(p))
    ensures Fold(PosStep, PosAcc(NO_POSITION, false), ToRecords(PositionTree(p))).x == NormalisePosition(p)
  {
    var start := PosAcc(NO_POSITION, false);
    var a := if p.step.Some? then [MessageNode(1, OptDistance(p.step.value))] else [];
    FoldTwo(PosStep, start, a, DestinationsTree(p.destinations));
    if p.step.Some? {
      FoldOne(PosStep, start, a[0]);
      PosStepField(start, p.step.value);
    }
    DestinationsCanon(Fold(PosStep, start, ToRecords(a)).x, p.destinations);
  }

  // The same for positions: the step distance and the first destination survive.
  lemma PositionRoundTrip(p: PositionMsg, tree: seq<Node>, wire: seq<byte>)
    requires AllOk(tree) && Strip(POSITION, tree) == PositionTree(p) && wire == Encode(tree)
    ensures DecodePosition(wire) == NormalisePosition(p)
  {
    PosIgnores();
    StripOk(POSITION, tree);
    SubMessage(PosStep, POSITION, PosAcc(NO_POSITION, false), tree);
    RecordsRoundTrip(PositionTree(p));
    PositionCanon(p);
  }

  // --- what the normal form of a lane is ----------------------------------------------------

  // A direction that shows in the masks.
  predicate Marks(d: LaneDirectionMsg) {
    d.shape.Some? && d.shape.value <= 9
  }

  // The masks list exactly the shapes 0..9 that occur, and those that occur highlighted.
  lemma {:induction false} NormalLaneShapes(ds: seq<LaneDirectionMsg>)
    ensures NormalLane(ds).present == set d | d in ds && Marks(d) :: d.shape.value
    ensures NormalLane(ds).highlight == set d | d in ds && Marks(d) && d.highlighted == Some(true) :: d.shape.value
  {
    if ds != [] {
      NormalLaneShapes(Init(ds));
      assert forall d :: d in ds <==> d in Init(ds) || d == Last(ds);
    }
  }

  // --- total decoding --------------------------------------------------------------------------

  predicate LanesOk(lanes: seq<AaLane>) {
    |lanes| <= MAX_LANES && forall i :: 0 <= i < |lanes| ==> LaneOk(lanes[i])
  }

  lemma {:induction false} FoldLaneOk(lane: AaLane, rs: seq<Record>)
    requires LaneOk(lane)
    ensures LaneOk(Fold(LaneStep, lane, rs))
    decreases |rs|
  {
    if rs != [] {
      FoldLaneOk(LaneStep(lane, rs[0]), rs[1..]);
    }
  }

  lemma {:induction false} FoldManeuverLanes(g: Guidance, rs: seq<Record>)
    ensures Fold(ManeuverStep, g, rs).lanes == g.lanes
    decreases |rs|
  {
    if rs != [] {
      FoldManeuverLanes(ManeuverStep(g, rs[0]), rs[1..]);
    }
  }

  lemma {:induction false} FoldStepOk(g: Guidance, rs: seq<Record>)
    requires LanesOk(g.lanes)
    ensures LanesOk(Fold(StepStep, g, rs).lanes)
    decreases |rs|
  {
    if rs != [] {
      if rs[0].Bytes? && rs[0].field == 1 {
        FoldManeuverLanes(g, Records(rs[0].payload));
      } else if rs[0].Bytes? && rs[0].field == 3 {
        FoldLaneOk(NO_LANE, Records(rs[0].payload));
      }
      FoldStepOk(StepStep(g, rs[0]), rs[1..]);
    }
  }

  lemma {:induction false} FoldNavOk(a: NavAcc, rs: seq<Record>)
    requires LanesOk(a.g.lanes)
    ensures LanesOk(Fold(NavStep, a, rs).g.lanes)
    decreases |rs|
  {
    if rs != [] {
      if rs[0].Bytes? && rs[0].field == 1 && !a.gotStep {
        FoldStepOk(a.g.(nSteps := a.g.nSteps + 1), Records(rs[0].payload));
      }
      FoldNavOk(NavStep(a, rs[0]), rs[1..]);
    }
  }

  // Whatever bytes arrive, at most eight lanes come out, highlights lie within the present
  // shapes, and every lane code is in range: 0 exactly for an empty slot, 1..48 exactly for
  // a highlighted lane.
  lemma DecodedLaneCodes(body: seq<byte>, i: nat)
    requires i < MAX_LANES
    ensures var lanes := DecodeNavState(body).lanes;
            && LanesOk(lanes)
            && CodeAt(lanes, i) <= 70
            && (CodeAt(lanes, i) == 0 <==> i >= |lanes| || lanes[i].present == {})
            && (1 <= CodeAt(lanes, i) <= 48 <==> i < |lanes| && lanes[i].highlight != {})
  {
    FoldNavOk(NavAcc(NO_GUIDANCE, false), Records(body));
    var lanes := DecodeNavState(body).lanes;
    if i < |lanes| {
      LaneCodeRange(lanes[i]);
    }
  }
}
