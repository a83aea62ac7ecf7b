// The CarPlay maneuver window (nav.cpp): maneuvers arrive in indexed bursts, guidance
// messages name the imminent one, and the selected maneuver is delivered once per change.
module NavWindow {
  import opened Machine
  import opened Glyphs

  // ---------------------------------------------------------------------------
  // Messages
  // ---------------------------------------------------------------------------

  const MT_MANEUVER: nat := 0x8059
  const MT_GUIDANCE: nat := 0x8058
  const MIN_LENGTH: nat := 0x28

  function Le16(low: nat, high: nat): nat {
    low + 0x100 * high
  }

  // Little-endian fields; a field beyond the end reads as 0.
  function U16(b: seq<byte>, off: nat): uint16 {
    if off + 2 > |b| then 0 else Le16(b[off], b[off + 1])
  }

  function U32(b: seq<byte>, off: nat): uint32 {
    if off + 4 > |b| then 0
    else Le16(b[off], b[off + 1]) + 0x1_0000 * Le16(b[off + 2], b[off + 3])
  }

  function S16(b: seq<byte>, off: nat): int {
    if U16(b, off) < 0x8000 then U16(b, off) else U16(b, off) - 0x1_0000
  }

  // The text at `off`, up to its NUL, the end of the message or the buffer size.
  function Text(b: seq<byte>, off: nat, cap: nat): seq<byte>
    requires cap > 0
  {
    if off > |b| then [] else CopyStr(b[off..], cap)
  }

  lemma CopyStrStep(s: seq<byte>, cap: nat, k: nat)
    requires cap > 0 && k <= |CopyStr(s, cap)|
    ensures |CopyStr(s, cap)| > k <==> k < |s| && k < cap - 1 && s[k] != 0
  {
    var t := if |s| >= cap then s[..cap - 1] else s;
    assert CopyStr(s, cap) == UpToNul(t);
    assert k < |CopyStr(s, cap)| ==> CopyStr(s, cap)[k] == t[k];
  }

  method ReadStr(b: seq<byte>, off: nat, cap: nat) returns (out: seq<byte>)
    requires cap > 0
    ensures out == Text(b, off, cap)
  {
    out := [];
    ghost var s := if off <= |b| then b[off..] else [];
    ghost var want := CopyStr(s, cap);
    var k := 0;
    while off + k < |b| && k < cap - 1 && b[off + k] != 0
      invariant k <= |want| && k == |out| && k <= |s| && out == s[..k]
      decreases |b| - k
    {
      CopyStrStep(s, cap, k);
      out := out + [b[off + k]];
      k := k + 1;
    }
    CopyStrStep(s, cap, k);
  }

  // ---------------------------------------------------------------------------
  // Maneuvers
  // ---------------------------------------------------------------------------

  const EV_SLIGHT: nat := 3
  const EV_TURN: nat := 4
  const EV_SHARP: nat := 5
  const EV_UTURN: nat := 6
  const EV_ON_RAMP: nat := 7
  const EV_OFF_RAMP: nat := 8
  const EV_FORK: nat := 9
  const EV_ROUNDABOUT: nat := 13
  const EV_STRAIGHT: nat := 14
  const EV_FERRY: nat := 16
  const EV_DEST: nat := 19

  const LEFT: nat := 1
  const RIGHT: nat := 2
  const NO_SIDE: nat := 3

  datatype Maneuver = Maneuver(event: uint32, side: uint32, angle: int32, number: int32)

  // Types that describe the current segment rather than a maneuver to show.
  predicate IsContext(mtype: uint32) {
    mtype == 0 || mtype == 5 || mtype == 11 || mtype == 18
  }

  predicate IsRoundabout(mtype: uint32, junction: uint32) {
    junction == 1 || mtype == 6 || mtype == 7 || mtype == 19 || 28 <= mtype <= 46
  }

  function Turn(mtype: uint32, leftHand: bool): (uint32, uint32) {
    match mtype
    case 1 => (EV_TURN, LEFT)
    case 2 => (EV_TURN, RIGHT)
    case 20 => (EV_TURN, LEFT)
    case 21 => (EV_TURN, RIGHT)
    case 47 => (EV_SHARP, LEFT)
    case 48 => (EV_SHARP, RIGHT)
    case 49 => (EV_SLIGHT, LEFT)
    case 50 => (EV_SLIGHT, RIGHT)
    case 13 => (EV_FORK, LEFT)
    case 14 => (EV_FORK, RIGHT)
    case 51 => (EV_FORK, NO_SIDE)
    case 52 => (EV_FORK, LEFT)
    case 53 => (EV_FORK, RIGHT)
    case 4 => (EV_UTURN, if leftHand then RIGHT else LEFT)
    case 26 => (EV_UTURN, if leftHand then RIGHT else LEFT)
    case 8 => (EV_OFF_RAMP, NO_SIDE)
    case 22 => (EV_OFF_RAMP, LEFT)
    case 23 => (EV_OFF_RAMP, RIGHT)
    case 9 => (EV_ON_RAMP, NO_SIDE)
    case 15 => (EV_FERRY, NO_SIDE)
    case 16 => (EV_FERRY, NO_SIDE)
    case 17 => (EV_FERRY, NO_SIDE)
    case 10 => (EV_DEST, NO_SIDE)
    case 12 => (EV_DEST, NO_SIDE)
    case 27 => (EV_DEST, NO_SIDE)
    case 24 => (EV_DEST, LEFT)
    case 25 => (EV_DEST, RIGHT)
    case _ => (EV_STRAIGHT, NO_SIDE)
  }

  function Classify(mtype: uint32, junction: uint32, angle: int, driveSide: uint32): Maneuver {
    if IsRoundabout(mtype, junction) then
      Maneuver(EV_ROUNDABOUT, if driveSide == 1 then LEFT else RIGHT, Turned(angle),
               if 28 <= mtype <= 46 then mtype - 27 else 0)
    else
      Maneuver(Turn(mtype, driveSide == 1).0, Turn(mtype, driveSide == 1).1, 0, 0)
  }

  // Every classified maneuver has a table event, a side, an angle in 0..359 and an exit
  // number up to 19.
  lemma ClassifyRange(mtype: uint32, junction: uint32, angle: int, driveSide: uint32)
    ensures var m := Classify(mtype, junction, angle, driveSide);
            3 <= m.event <= 19 && 1 <= m.side <= 3 && 0 <= m.angle < 360 && 0 <= m.number <= 19
  {
    TurnedIsEuclidean(angle);
    var (event, side) := Turn(mtype, driveSide == 1);
    assert 3 <= event <= 19 && 1 <= side <= 3;
  }

  datatype Entry = Entry(idx: nat, m: Maneuver, road: seq<byte>, desc: seq<byte>)

  function Index(b: seq<byte>): nat {
    U32(b, 0x20) / 0x1_0000
  }

  function EntryOf(b: seq<byte>): Entry {
    Entry(Index(b), Classify(U32(b, 0x128), U32(b, 0x340), S16(b, 0x346), U32(b, 0x33C)),
          Text(b, 0x12C, 256), CopyStr(Text(b, 0x24, 257), 256))
  }

  // What is delivered for an entry: its own road, or its instruction text.
  datatype Shown = Shown(m: Maneuver, road: seq<byte>)

  function ShownOf(e: Entry): Shown {
    Shown(e.m, CopyStr(if e.road != [] then e.road else e.desc, 256))
  }

  // ---------------------------------------------------------------------------
  // The history of accepted messages
  // ---------------------------------------------------------------------------

  // A message, and whether a reset request was pending when it came.
  datatype Arrival = Arrival(reset: bool, b: seq<byte>)

  predicate IsManeuver(b: seq<byte>) {
    U16(b, 0) == MT_MANEUVER
  }

  predicate IsGuidance(b: seq<byte>) {
    U16(b, 0) == MT_GUIDANCE
  }

  // A maneuver message that is neither the heading nor a context entry.
  predicate Displayable(b: seq<byte>) {
    IsManeuver(b) && Index(b) != 0 && !IsContext(U32(b, 0x128))
  }

  // The index of the previous maneuver message, if any since the last reset.
  function PreviousIndex(h: seq<Arrival>): Option<nat> {
    if h == [] then None
    else if IsManeuver(Last(h).b) then Some(Index(Last(h).b))
    else if Last(h).reset then None
    else PreviousIndex(Init(h))
  }

  // A reset, or a maneuver index that restarts.
  predicate Restarts(h: seq<Arrival>, a: Arrival) {
    a.reset || (IsManeuver(a.b) && (Index(a.b) == 0 || PreviousIndex(h).None?
                                    || Index(a.b) < PreviousIndex(h).value))
  }

  // The messages since the last restart, that one included.
  function SinceRestart(h: seq<Arrival>): seq<Arrival> {
    if h == [] then []
    else if Restarts(Init(h), Last(h)) then [Last(h)]
    else SinceRestart(Init(h)) + [Last(h)]
  }

  function Displayables(h: seq<Arrival>): seq<Entry> {
    if h == [] then []
    else Displayables(Init(h)) + (if Displayable(Last(h).b) then [EntryOf(Last(h).b)] else [])
  }

  const MAX_BURST: nat := 48

  function First48(es: seq<Entry>): seq<Entry> {
    if |es| > MAX_BURST then es[..MAX_BURST] else es
  }

  function Window(h: seq<Arrival>): seq<Entry> {
    First48(Displayables(SinceRestart(h)))
  }

  function FindIndex(es: seq<Entry>, idx: nat): Option<Entry> {
    if es == [] then None else if es[0].idx == idx then Some(es[0]) else FindIndex(es[1..], idx)
  }

  // The entry a guidance head names: that index or, for a heading or context entry, the
  // next one.
  function Find(es: seq<Entry>, head: nat): Option<Entry> {
    if FindIndex(es, head).Some? then FindIndex(es, head) else FindIndex(es, head + 1)
  }

  // The head a guidance message carries.
  function HeadOf(b: seq<byte>): Option<nat> {
    if IsGuidance(b) && U16(b, 0x656) > 0 then Some(U16(b, 0x458)) else None
  }

  // The last head that named a buffered entry, since the last reset.
  function KnownHead(h: seq<Arrival>): Option<nat> {
    if h == [] then None
    else if HeadOf(Last(h).b).Some? && Find(Window(h), HeadOf(Last(h).b).value).Some? then HeadOf(Last(h).b)
    else if Last(h).reset then None
    else KnownHead(Init(h))
  }

  // A message that adds an entry to the window.
  predicate Appends(h: seq<Arrival>) {
    h != [] && Displayable(Last(h).b)
    && |Displayables(SinceRestart(h))| <= MAX_BURST
  }

  // The head in force when the last message selects: a guidance's own head, or the known
  // one when an entry is added.
  function HeadInForce(h: seq<Arrival>): Option<nat>
    requires h != []
  {
    if HeadOf(Last(h).b).Some? then HeadOf(Last(h).b)
    else if Appends(h) && !Last(h).reset then KnownHead(Init(h))
    else None
  }

  // What the last message selects.
  function Selects(h: seq<Arrival>): Option<Shown>
    requires h != []
  {
    if HeadInForce(h).None? then None
    else
      match Find(Window(h), HeadInForce(h).value)
      case None => None
      case Some(e) => Some(ShownOf(e))
  }

  // The latest selection since the last reset.
  function LatestSelection(h: seq<Arrival>): Option<Shown> {
    if h == [] then None
    else if Selects(h).Some? then Selects(h)
    else if Last(h).reset then None
    else LatestSelection(Init(h))
  }

  // The maneuvers delivered: each selection that differs from the latest one before it,
  // a reset forgetting that one.
  function Delivered(h: seq<Arrival>): seq<Shown> {
    if h == [] then []
    else
      var before := if Last(h).reset then None else LatestSelection(Init(h));
      Delivered(Init(h)) + (if Selects(h).Some? && Selects(h) != before then [Selects(h).value] else [])
  }

  lemma DeliveredUnfold(h: seq<Arrival>, sel: Option<Shown>, before: Option<Shown>)
    requires h != [] && sel == Selects(h) && before == (if Last(h).reset then None else LatestSelection(Init(h)))
    ensures LatestSelection(h) == if sel.Some? then sel else before
    ensures Delivered(h) == Delivered(Init(h)) + (if sel.Some? && sel != before then [sel.value] else [])
  {
  }

  // The maneuver delivered last is the one selected last.
  lemma {:induction false} DeliveredIsLatest(h: seq<Arrival>, latest: Option<Shown>)
    requires latest == LatestSelection(h) && latest.Some?
    ensures Delivered(h) != [] && Last(Delivered(h)) == latest.value
    decreases |h|
  {
    var before := if Last(h).reset then None else LatestSelection(Init(h));
    DeliveredUnfold(h, Selects(h), before);
    if latest == before {
      DeliveredIsLatest(Init(h), before);
    }
  }

  // A reset makes the next selection count as a change, whatever it selects.
  lemma DeliveredAfter(h: seq<Arrival>, a: Arrival)
    requires Selects(h + [a]).Some?
    ensures Delivered(h + [a])
         == if LatestSelection(h) == Selects(h + [a]) && !a.reset then Delivered(h)
            else Delivered(h) + [Selects(h + [a]).value]
  {
    assert Init(h + [a]) == h && Last(h + [a]) == a;
  }

  // ---------------------------------------------------------------------------
  // One message at a time
  // ---------------------------------------------------------------------------

  datatype View = View(window: seq<Entry>, prev: Option<nat>, head: Option<nat>, latest: Option<Shown>)

  function ViewOf(h: seq<Arrival>): View {
    View(Window(h), PreviousIndex(h), KnownHead(h), LatestSelection(h))
  }

  const CLEARED := View([], None, None, None)

  function Restarted(v: View, idx: nat): View {
    v.(prev := Some(idx), window := if idx == 0 || v.prev.None? || idx < v.prev.value then [] else v.window)
  }

  // The view after a message, and what that message selects.
  function StepManeuver(v: View, b: seq<byte>): (View, Option<Shown>) {
    var v1 := Restarted(v, Index(b));
    if !Displayable(b) || |v1.window| >= MAX_BURST then (v1, None)
    else Repaint(v1.(window := v1.window + [EntryOf(b)]))
  }

  // A grown window selects again with the known head.
  function Repaint(v: View): (View, Option<Shown>) {
    if v.head.None? || Find(v.window, v.head.value).None? then (v, None)
    else
      var shown := ShownOf(Find(v.window, v.head.value).value);
      (v.(latest := Some(shown)), Some(shown))
  }

  function StepGuidance(v: View, b: seq<byte>): (View, Option<Shown>) {
    if HeadOf(b).None? || Find(v.window, HeadOf(b).value).None? then (v, None)
    else
      var shown := ShownOf(Find(v.window, HeadOf(b).value).value);
      (v.(head := HeadOf(b), latest := Some(shown)), Some(shown))
  }

  function Step(v: View, b: seq<byte>): (View, Option<Shown>) {
    if IsManeuver(b) then StepManeuver(v, b) else if IsGuidance(b) then StepGuidance(v, b) else (v, None)
  }

  lemma First48Snoc(es: seq<Entry>, e: Entry)
    ensures First48(es + [e]) == if |First48(es)| < MAX_BURST then First48(es) + [e] else First48(es)
  {
    if |es| >= MAX_BURST {
      assert (es + [e])[..MAX_BURST] == es[..MAX_BURST];
    }
  }

  // What is left of the window when a message comes.
  function Base(h: seq<Arrival>, a: Arrival): seq<Entry> {
    if Restarts(h, a) then [] else Window(h)
  }

  lemma WindowStep(h: seq<Arrival>, a: Arrival)
    ensures Window(h + [a])
         == if Displayable(a.b) && |Base(h, a)| < MAX_BURST then Base(h, a) + [EntryOf(a.b)] else Base(h, a)
    ensures Appends(h + [a]) <==> Displayable(a.b) && |Base(h, a)| < MAX_BURST
  {
    var all := h + [a];
    assert Init(all) == h && Last(all) == a;
    var before := if Restarts(h, a) then [] else SinceRestart(h);
    assert SinceRestart(all) == before + [a];
    assert Init(before + [a]) == before && Last(before + [a]) == a;
    First48Snoc(Displayables(before), EntryOf(a.b));
    assert Displayables(before) + [] == Displayables(before);
  }

  lemma HeadStep(h: seq<Arrival>, a: Arrival)
    ensures var all := h + [a];
            KnownHead(all) == if HeadOf(a.b).Some? && Find(Window(all), HeadOf(a.b).value).Some? then HeadOf(a.b)
                              else if a.reset then None else KnownHead(h)
    ensures PreviousIndex(h + [a])
         == if IsManeuver(a.b) then Some(Index(a.b)) else if a.reset then None else PreviousIndex(h)
  {
    assert Init(h + [a]) == h && Last(h + [a]) == a;
  }

  lemma SelectsStep(h: seq<Arrival>, a: Arrival, head: Option<nat>)
    requires head == if HeadOf(a.b).Some? then HeadOf(a.b)
                     else if Appends(h + [a]) && !a.reset then KnownHead(h) else None
    ensures Selects(h + [a])
         == if head.None? || Find(Window(h + [a]), head.value).None? then None
            else Some(ShownOf(Find(Window(h + [a]), head.value).value))
    ensures LatestSelection(h + [a])
         == if Selects(h + [a]).Some? then Selects(h + [a]) else if a.reset then None else LatestSelection(h)
  {
    assert Init(h + [a]) == h && Last(h + [a]) == a;
    assert HeadInForce(h + [a]) == head;
  }

  // What a pending reset leaves.
  function Entered(v: View, reset: bool): View {
    if reset then CLEARED else v
  }

  lemma BaseOfView(h: seq<Arrival>, a: Arrival)
    ensures Base(h, a) == if IsManeuver(a.b) then Restarted(Entered(ViewOf(h), a.reset), Index(a.b)).window
                          else Entered(ViewOf(h), a.reset).window
  {
  }

  lemma ManeuverHistory(h: seq<Arrival>, a: Arrival)
    requires IsManeuver(a.b)
    ensures (ViewOf(h + [a]), Selects(h + [a])) == StepManeuver(Entered(ViewOf(h), a.reset), a.b)
  {
    WindowStep(h, a);
    BaseOfView(h, a);
    HeadStep(h, a);
    SelectsStep(h, a, if Appends(h + [a]) && !a.reset then KnownHead(h) else None);
  }

  lemma GuidanceHistory(h: seq<Arrival>, a: Arrival)
    requires !IsManeuver(a.b)
    ensures (ViewOf(h + [a]), Selects(h + [a])) == StepGuidance(Entered(ViewOf(h), a.reset), a.b)
  {
    WindowStep(h, a);
    BaseOfView(h, a);
    HeadStep(h, a);
    SelectsStep(h, a, HeadOf(a.b));
  }

  // The step by step view is what the whole history says.
  lemma StepHistory(h: seq<Arrival>, a: Arrival)
    ensures (ViewOf(h + [a]), Selects(h + [a])) == Step(Entered(ViewOf(h), a.reset), a.b)
  {
    if IsManeuver(a.b) {
      ManeuverHistory(h, a);
    } else {
      GuidanceHistory(h, a);
    }
  }
}
