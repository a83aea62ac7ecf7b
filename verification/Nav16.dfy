// The GAL 1.6 navigation messages (hud_nav16.cpp): what the decoder computes from the
// records of a message, and that it reads back every encoded message.
module Nav16 {
  import opened Machine
  import opened Lanes
  import opened Wire

  // --- decoded structures --------------------------------------------------------

  datatype Guidance = Guidance(
    haveManeuver: bool,
    kind: uint32,
    exitNumber: int32,
    exitAngle: int32,
    road: seq<byte>,          // C string in char[64]
    nSteps: nat,
    lanes: seq<AaLane>)       // the first n_lanes entries

  const NO_GUIDANCE := Guidance(false, 0, 0, 0, [], 0, [])

  datatype Distance = Distance(meters: int32, display: seq<byte>, units: uint32)

  const NO_DISTANCE := Distance(0, [], 0)

  datatype Position = Position(
    haveStep: bool,
    step: Distance,
    haveDest: bool,
    dest: Distance,
    eta: seq<byte>)           // C string in char[16]

  const NO_POSITION := Position(false, NO_DISTANCE, false, NO_DISTANCE, [])

  // --- one record at each level ----------------------------------------------------

  function DistanceStep(d: Distance, r: Record): Distance {
    match r
    case Varint(f, v) => if f == 1 then d.(meters := ToInt32(v))
                         else if f == 3 then d.(units := v % 0x1_0000_0000) else d
    case Bytes(f, p) => if f == 2 then d.(display := CopyStr(p, 16)) else d
    case _ => d
  }

  function RoadStep(road: seq<byte>, r: Record): seq<byte> {
    match r
    case Bytes(f, p) => if f == 1 then CopyStr(p, 64) else road
    case _ => road
  }

  // A lane direction is collected first and only then marked in the lane.
  datatype Direction = Direction(haveShape: bool, shape: uint64, highlighted: bool)

  const NO_DIRECTION := Direction(false, 0, false)

  function DirectionStep(d: Direction, r: Record): Direction {
    match r
    case Varint(f, v) => if f == 1 then d.(shape := v, haveShape := true)
                         else if f == 2 then d.(highlighted := v != 0) else d
    case _ => d
  }

  function Mark(lane: AaLane, d: Direction): AaLane {
    if d.haveShape && d.shape <= 9
    then AaLane(lane.present + {d.shape}, if d.highlighted then lane.highlight + {d.shape} else lane.highlight)
    else lane
  }

  function DecodeDirection(p: seq<byte>, lane: AaLane): AaLane {
    Mark(lane, Fold(DirectionStep, NO_DIRECTION, Records(p)))
  }

  function LaneStep(lane: AaLane, r: Record): AaLane {
    match r
    case Bytes(f, p) => if f == 1 then DecodeDirection(p, lane) else lane
    case _ => lane
  }

  function DecodeLane(p: seq<byte>): AaLane {
    Fold(LaneStep, NO_LANE, Records(p))
  }

  function ManeuverStep(g: Guidance, r: Record): Guidance {
    match r
    case Varint(f, v) => if f == 1 then g.(kind := v % 0x1_0000_0000, haveManeuver := true)
                         else if f == 2 then g.(exitNumber := ToInt32(v))
                         else if f == 3 then g.(exitAngle := ToInt32(v)) else g
    case _ => g
  }

  function DecodeManeuver(p: seq<byte>, g: Guidance): Guidance {
    Fold(ManeuverStep, g, Records(p))
  }

  function DecodeRoad(p: seq<byte>, road: seq<byte>): seq<byte> {
    Fold(RoadStep, road, Records(p))
  }

  function StepStep(g: Guidance, r: Record): Guidance {
    match r
    case Bytes(f, p) =>
      if f == 1 then DecodeManeuver(p, g)
      else if f == 2 then g.(road := DecodeRoad(p, g.road))
      else if f == 3 then (if |g.lanes| < MAX_LANES then g.(lanes := g.lanes + [DecodeLane(p)]) else g)
      else g
    case _ => g
  }

  // Only step 0 is decoded; the others are counted.
  datatype NavAcc = NavAcc(g: Guidance, gotStep: bool)

  function DecodeStep(g: Guidance, p: seq<byte>): Guidance {
    Fold(StepStep, g, Records(p))
  }

  function CountStep(a: NavAcc): NavAcc {
    NavAcc(a.g.(nSteps := a.g.nSteps + 1), true)
  }

  function EnterStep(a: NavAcc, p: seq<byte>): NavAcc {
    if a.gotStep then CountStep(a) else NavAcc(DecodeStep(CountStep(a).g, p), true)
  }

  function NavStep(a: NavAcc, r: Record): NavAcc {
    match r
    case Bytes(f, p) => if f == 1 then EnterStep(a, p) else a
    case _ => a
  }

  function DecodeNavState(body: seq<byte>): Guidance {
    Fold(NavStep, NavAcc(NO_GUIDANCE, false), Records(body)).g
  }

  function StepDistanceStep(x: Position, r: Record): Position {
    match r
    case Bytes(f, p) =>
      if f == 1 then x.(step := Fold(DistanceStep, x.step, Records(p)), haveStep := true) else x
    case _ => x
  }

  function DestDistanceStep(x: Position, r: Record): Position {
    match r
    case Bytes(f, p) =>
      if f == 1 then x.(dest := Fold(DistanceStep, x.dest, Records(p)), haveDest := true)
      else if f == 2 then x.(eta := CopyStr(p, 16)) else x
    case _ => x
  }

  datatype PosAcc = PosAcc(x: Position, gotDest: bool)

  function PosStep(a: PosAcc, r: Record): PosAcc {
    match r
    case Bytes(f, p) =>
      if f == 1 then a.(x := Fold(StepDistanceStep, a.x, Records(p)))
      else if f == 2 then
        (if a.gotDest then a else PosAcc(Fold(DestDistanceStep, a.x, Records(p)), true))
      else a
    case _ => a
  }

  function DecodePosition(body: seq<byte>): Position {
    Fold(PosStep, PosAcc(NO_POSITION, false), Records(body)).x
  }

  // The status enum: the first varint of field 1, or -1.
  function FirstStatus(rs: seq<Record>): int32 {
    if rs == [] then -1
    else if rs[0].Varint? && rs[0].field == 1 then ToInt32(rs[0].value % 0x1_0000_0000)
    else FirstStatus(rs[1..])
  }

  // ---------------------------------------------------------------------------
  // What a sender means: messages and their canonical trees
  // ---------------------------------------------------------------------------

  datatype LaneDirectionMsg = LaneDirectionMsg(shape: Option<uint64>, highlighted: Option<bool>)

  datatype ManeuverMsg = ManeuverMsg(kind: Option<uint32>, exitNumber: Option<int32>, exitAngle: Option<int32>)

  datatype StepMsg = StepMsg(
    maneuver: Option<ManeuverMsg>,
    road: Option<Option<seq<byte>>>,   // a road message may come without a name
    lanes: seq<seq<LaneDirectionMsg>>)

  datatype DistanceMsg = DistanceMsg(meters: Option<int32>, display: Option<seq<byte>>, units: Option<uint32>)

  datatype DestinationMsg = DestinationMsg(distance: Option<DistanceMsg>, eta: Option<seq<byte>>)

  datatype PositionMsg = PositionMsg(step: Option<Option<DistanceMsg>>, destinations: seq<DestinationMsg>)

  // int32 fields travel sign-extended to 64 bits.
  function SignExtend(v: int32): uint64 {
    if v < 0 then v + 0x1_0000_0000_0000_0000 else v
  }

  function OptVarint(f: uint32, v: Option<uint32>): seq<Node> {
    if v.Some? then [VarintNode(f, v.value)] else []
  }

  function OptInt32(f: uint32, v: Option<int32>): seq<Node> {
    if v.Some? then [VarintNode(f, SignExtend(v.value))] else []
  }

  function OptBytes(f: uint32, v: Option<seq<byte>>): seq<Node> {
    if v.Some? then [BytesNode(f, v.value)] else []
  }

  function OptShape(v: Option<uint64>): seq<Node> {
    if v.Some? then [VarintNode(1, v.value)] else []
  }

  function OptHighlight(v: Option<bool>): seq<Node> {
    if v.Some? then [VarintNode(2, if v.value then 1 else 0)] else []
  }

  function DirectionTree(d: LaneDirectionMsg): seq<Node> {
    OptShape(d.shape) + OptHighlight(d.highlighted)
  }

  function LaneTree(ds: seq<LaneDirectionMsg>): seq<Node> {
    if ds == [] then [] else LaneTree(Init(ds)) + [MessageNode(1, DirectionTree(Last(ds)))]
  }

  function LanesTree(lanes: seq<seq<LaneDirectionMsg>>): seq<Node> {
    if lanes == [] then [] else LanesTree(Init(lanes)) + [MessageNode(3, LaneTree(Last(lanes)))]
  }

  function ManeuverTree(m: ManeuverMsg): seq<Node> {
    OptVarint(1, m.kind) + OptInt32(2, m.exitNumber) + OptInt32(3, m.exitAngle)
  }

  function ManeuverPartTree(m: Option<ManeuverMsg>): seq<Node> {
    if m.Some? then [MessageNode(1, ManeuverTree(m.value))] else []
  }

  function RoadTree(name: Option<seq<byte>>): seq<Node> {
    OptBytes(1, name)
  }

  function RoadPartTree(road: Option<Option<seq<byte>>>): seq<Node> {
    if road.Some? then [MessageNode(2, RoadTree(road.value))] else []
  }

  function StepTree(s: StepMsg): seq<Node> {
    ManeuverPartTree(s.maneuver) + RoadPartTree(s.road) + LanesTree(s.lanes)
  }

  function NavTree(steps: seq<StepMsg>): seq<Node> {
    if steps == [] then [] else NavTree(Init(steps)) + [MessageNode(1, StepTree(Last(steps)))]
  }

  function DistanceTree(d: DistanceMsg): seq<Node> {
    OptInt32(1, d.meters) + OptBytes(2, d.display) + OptVarint(3, d.units)
  }

  function OptDistance(d: Option<DistanceMsg>): seq<Node> {
    if d.Some? then [MessageNode(1, DistanceTree(d.value))] else []
  }

  function DestinationTree(d: DestinationMsg): seq<Node> {
    OptDistance(d.distance) + OptBytes(2, d.eta)
  }

  function DestinationsTree(ds: seq<DestinationMsg>): seq<Node> {
    if ds == [] then [] else DestinationsTree(Init(ds)) + [MessageNode(2, DestinationTree(Last(ds)))]
  }

  function PositionTree(p: PositionMsg): seq<Node> {
    (if p.step.Some? then [MessageNode(1, OptDistance(p.step.value))] else []) + DestinationsTree(p.destinations)
  }

  // --- the meaning of a message, with everything the HUD cannot hold cut off ---------

  // A direction as decoded: no shape marks nothing, no highlight is no highlight.
  function NormalDirection(d: LaneDirectionMsg): Direction {
    Direction(d.shape.Some?, OrElse(d.shape, 0), OrElse(d.highlighted, false))
  }

  // Bit s is present when some direction has shape s, highlighted when some highlighted
  // direction has; shapes above 9 leave no trace.
  function NormalLane(ds: seq<LaneDirectionMsg>): AaLane {
    if ds == [] then NO_LANE
    else Mark(NormalLane(Init(ds)), NormalDirection(Last(ds)))
  }

  function NormalLanes(lanes: seq<seq<LaneDirectionMsg>>): (r: seq<AaLane>)
    ensures |r| == |lanes|
  {
    if lanes == [] then [] else NormalLanes(Init(lanes)) + [NormalLane(Last(lanes))]
  }

  function OrElse<T>(v: Option<T>, default: T): T {
    if v.Some? then v.value else default
  }

  function Normalise(steps: seq<StepMsg>): Guidance {
    if steps == [] then NO_GUIDANCE
    else
      var s := steps[0];
      var m := OrElse(s.maneuver, ManeuverMsg(None, None, None));
      Guidance(
        m.kind.Some?, OrElse(m.kind, 0), OrElse(m.exitNumber, 0), OrElse(m.exitAngle, 0),
        CopyStr(OrElse(OrElse(s.road, None), []), 64),
        |steps|,
        NormalLanes(if |s.lanes| > MAX_LANES then s.lanes[..MAX_LANES] else s.lanes))
  }

  function NormalDistance(d: Option<DistanceMsg>): Distance {
    if d.None? then NO_DISTANCE
    else Distance(OrElse(d.value.meters, 0), CopyStr(OrElse(d.value.display, []), 16), OrElse(d.value.units, 0))
  }

  function NormalisePosition(p: PositionMsg): Position {
    var step := OrElse(p.step, None);
    var dest := if p.destinations == [] then DestinationMsg(None, None) else p.destinations[0];
    Position(step.Some?, NormalDistance(step), dest.distance.Some?, NormalDistance(dest.distance),
             CopyStr(OrElse(dest.eta, []), 16))
  }

  // --- what each decoder understands -----------------------------------------------

  const DISTANCE := Schema({1, 3}, {2}, map[])
  const ROAD := Schema({}, {1}, map[])
  const DIRECTION := Schema({1, 2}, {}, map[])
  const LANE := Schema({}, {}, map[1 := DIRECTION])
  const MANEUVER := Schema({1, 2, 3}, {}, map[])
  const STEP := Schema({}, {}, map[1 := MANEUVER, 2 := ROAD, 3 := LANE])
  const NAV_STATE := Schema({}, {}, map[1 := STEP])
  const STEP_DISTANCE := Schema({}, {}, map[1 := DISTANCE])
  const DEST_DISTANCE := Schema({}, {2}, map[1 := DISTANCE])
  const POSITION := Schema({}, {}, map[1 := STEP_DISTANCE, 2 := DEST_DISTANCE])
}
