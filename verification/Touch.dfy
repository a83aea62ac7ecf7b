// Multi-touch: the evdev type-B reader (touch.cpp) and the frame differ that turns
// consecutive slot snapshots into Android-style pointer events (touch_send.cpp).
module Touch {
  import opened Machine

  const MAX_FINGERS: nat := 10

  // A slot is empty exactly when its tracking id is negative.
  datatype Finger = Finger(id: int32, x: uint32, y: uint32)

  const NO_FINGER := Finger(-1, 0, 0)

  type MtState = s: seq<Finger> | |s| == MAX_FINGERS
    witness seq(MAX_FINGERS, _ => Finger(-1, 0, 0))

  const ALL_EMPTY: MtState := [
    NO_FINGER, NO_FINGER, NO_FINGER, NO_FINGER, NO_FINGER,
    NO_FINGER, NO_FINGER, NO_FINGER, NO_FINGER, NO_FINGER
  ]

  datatype Entry = Entry(slot: nat, fg: Finger)

  datatype Action = Down | Up | Move | PointerDown | PointerUp

  datatype Pointer = Pointer(id: uint32, x: uint32, y: uint32)

  datatype TouchEvent = TouchEvent(action: Action, index: nat, pointers: seq<Pointer>)

  // ---------------------------------------------------------------------------
  // Coordinate scaling
  // ---------------------------------------------------------------------------

  function ScaleX(v: uint32): (r: uint32)
    ensures 4099 * r <= 800 * v < 4099 * (r + 1)
  {
    v * 800 / 4099
  }

  function ScaleY(v: uint32): (r: uint32)
    ensures 4099 * r <= 480 * v < 4099 * (r + 1)
  {
    v * 480 / 4099
  }

  function ToPointer(f: Finger): Pointer {
    Pointer(f.id % 0x1_0000_0000, ScaleX(f.x), ScaleY(f.y))
  }

  function Pointers(es: seq<Entry>): (ps: seq<Pointer>)
    ensures |ps| == |es|
  {
    seq(|es|, i requires 0 <= i < |es| => ToPointer(es[i].fg))
  }

  function Ids(ps: seq<Pointer>): (r: seq<uint32>)
    ensures |r| == |ps|
  {
    seq(|ps|, i requires 0 <= i < |ps| => ps[i].id)
  }

  // ---------------------------------------------------------------------------
  // Slot-ordered snapshots
  // ---------------------------------------------------------------------------

  // The fingers of `st` in the slots of `S` below `k`, in slot order.
  function Entries(st: MtState, S: set<nat>, k: nat): (es: seq<Entry>)
    requires k <= MAX_FINGERS
    ensures |es| <= k
  {
    if k == 0 then []
    else Entries(st, S, k - 1) + (if k - 1 in S then [Entry(k - 1, st[k - 1])] else [])
  }

  // The whole slot-ordered snapshot of the slots in S.
  function Snapshot(st: MtState, S: set<nat>): seq<Entry> {
    Entries(st, S, |st|)
  }

  function ActiveSlots(st: MtState): set<nat> {
    set s: nat | s < MAX_FINGERS && st[s].id >= 0
  }

  // What a receiver in step with the panel holds: the active fingers in slot order.
  function ActivePointers(st: MtState): seq<Pointer> {
    Pointers(Snapshot(st, ActiveSlots(st)))
  }

  function KeptSlots(prev: MtState, cur: MtState): set<nat> {
    set s: nat | s < MAX_FINGERS && prev[s].id >= 0 && cur[s].id == prev[s].id
  }

  predicate Falls(prev: MtState, cur: MtState, s: nat) {
    s < MAX_FINGERS && prev[s].id >= 0 && cur[s].id != prev[s].id
  }

  predicate Rises(prev: MtState, cur: MtState, s: nat) {
    s < MAX_FINGERS && cur[s].id >= 0 && cur[s].id != prev[s].id
  }

  function RisenSlots(prev: MtState, cur: MtState, k: nat): set<nat> {
    set s: nat | s < k && Rises(prev, cur, s)
  }

  // Where insert_sorted places `slot`: before the first entry of a greater slot.
  function Position(es: seq<Entry>, slot: nat): (p: nat)
    ensures p <= |es|
  {
    if es == [] || es[0].slot > slot then 0 else 1 + Position(es[1..], slot)
  }

  function Insert(es: seq<Entry>, e: Entry): seq<Entry> {
    var p := Position(es, e.slot);
    es[..p] + [e] + es[p..]
  }

  function Drop<T>(s: seq<T>, i: nat): (r: seq<T>)
    requires i < |s|
    ensures |r| == |s| - 1
  {
    s[..i] + s[i + 1..]
  }

  // ---------------------------------------------------------------------------
  // The frame diff, as events
  // ---------------------------------------------------------------------------

  predicate Moved(prev: MtState, cur: MtState, k: nat)
    requires k <= MAX_FINGERS
  {
    exists s :: 0 <= s < k && prev[s].id >= 0 && cur[s].id == prev[s].id
             && (prev[s].x != cur[s].x || prev[s].y != cur[s].y)
  }

  function Survivors(prev: MtState, cur: MtState): seq<Entry> {
    Snapshot(cur, KeptSlots(prev, cur))
  }

  // The event for one finger joining the pointers of `es` for its duration: `first` when
  // it is alone, otherwise `other` with the finger's position as action index.
  function ChangeEvent(es: seq<Entry>, e: Entry, first: Action, other: Action): TouchEvent {
    var snap := Insert(es, e);
    if |snap| == 1 then TouchEvent(first, 0, Pointers(snap))
    else TouchEvent(other, Position(es, e.slot), Pointers(snap))
  }

  // Release of slot s: the survivors plus the released finger as it last was.
  function UpEvent(prev: MtState, cur: MtState, s: nat): TouchEvent
    requires s < MAX_FINGERS
  {
    ChangeEvent(Survivors(prev, cur), Entry(s, prev[s]), Up, PointerUp)
  }

  // The slots below k released by this frame, ascending.
  function FallingList(prev: MtState, cur: MtState, k: nat): (r: seq<nat>)
    requires k <= MAX_FINGERS
    ensures forall i :: 0 <= i < |r| ==> r[i] < k && Falls(prev, cur, r[i])
    ensures forall s: nat :: s < k && Falls(prev, cur, s) ==> s in r
  {
    if k == 0 then []
    else if Falls(prev, cur, k - 1) then FallingList(prev, cur, k - 1) + [k - 1]
    else FallingList(prev, cur, k - 1)
  }

  function ReleaseEvents(prev: MtState, cur: MtState, slots: seq<nat>): (es: seq<TouchEvent>)
    requires forall i :: 0 <= i < |slots| ==> slots[i] < MAX_FINGERS
    ensures |es| == |slots|
    ensures forall i :: 0 <= i < |es| ==> es[i] == UpEvent(prev, cur, slots[i])
  {
    seq(|slots|, i requires 0 <= i < |slots| => UpEvent(prev, cur, slots[i]))
  }

  function UpEvents(prev: MtState, cur: MtState): seq<TouchEvent> {
    ReleaseEvents(prev, cur, FallingList(prev, cur, |cur|))
  }

  // The slots below k taken by a new finger in this frame, ascending.
  function RisingList(prev: MtState, cur: MtState, k: nat): (r: seq<nat>)
    requires k <= MAX_FINGERS
    ensures forall i :: 0 <= i < |r| ==> r[i] < MAX_FINGERS
  {
    if k == 0 then []
    else if Rises(prev, cur, k - 1) then RisingList(prev, cur, k - 1) + [k - 1]
    else RisingList(prev, cur, k - 1)
  }

  // The incremental snapshot once the fingers of `slots` have been added in turn.
  function Grown(prev: MtState, cur: MtState, slots: seq<nat>): seq<Entry>
    requires forall i :: 0 <= i < |slots| ==> slots[i] < MAX_FINGERS
  {
    if slots == [] then Survivors(prev, cur)
    else Insert(Grown(prev, cur, Init(slots)), Entry(Last(slots), cur[Last(slots)]))
  }

  function PressEvent(prev: MtState, cur: MtState, before: seq<nat>, s: nat): TouchEvent
    requires s < MAX_FINGERS && forall i :: 0 <= i < |before| ==> before[i] < MAX_FINGERS
  {
    ChangeEvent(Grown(prev, cur, before), Entry(s, cur[s]), Down, PointerDown)
  }

  function PressEvents(prev: MtState, cur: MtState, slots: seq<nat>): seq<TouchEvent>
    requires forall i :: 0 <= i < |slots| ==> slots[i] < MAX_FINGERS
  {
    if slots == [] then []
    else PressEvents(prev, cur, Init(slots)) + [PressEvent(prev, cur, Init(slots), Last(slots))]
  }

  function DownEvents(prev: MtState, cur: MtState): seq<TouchEvent> {
    PressEvents(prev, cur, RisingList(prev, cur, |cur|))
  }

  function MoveEvents(prev: MtState, cur: MtState): seq<TouchEvent> {
    if UpEvents(prev, cur) == [] && DownEvents(prev, cur) == [] && Moved(prev, cur, |cur|)
    then [TouchEvent(Move, 0, ActivePointers(cur))]
    else []
  }

  function FrameEvents(prev: MtState, cur: MtState): seq<TouchEvent> {
    UpEvents(prev, cur) + DownEvents(prev, cur) + MoveEvents(prev, cur)
  }

  // ---------------------------------------------------------------------------
  // The receiver
  // ---------------------------------------------------------------------------

  // A receiver adopts every pointer list and forgets the indexed pointer on a release.
  function Receive(e: TouchEvent): seq<Pointer> {
    if (e.action.Up? || e.action.PointerUp?) && e.index < |e.pointers|
    then Drop(e.pointers, e.index)
    else e.pointers
  }

  function Replay(held: seq<Pointer>, es: seq<TouchEvent>): seq<Pointer> {
    if es == [] then held else Receive(es[|es| - 1])
  }

  // The MotionEvent rules an event must obey against the pointers already held.
  predicate Legal(held: seq<Pointer>, e: TouchEvent) {
    && e.index < |e.pointers| <= MAX_FINGERS
    && match e.action
       case Down => held == [] && |e.pointers| == 1
       case PointerDown => held != [] && Ids(Drop(e.pointers, e.index)) == Ids(held)
       case Up => |e.pointers| == 1 && Ids(e.pointers) == Ids(held)
       case PointerUp => |e.pointers| > 1 && Ids(e.pointers) == Ids(held)
       case Move => e.index == 0 && Ids(e.pointers) == Ids(held)
  }

  predicate LegalRun(held: seq<Pointer>, es: seq<TouchEvent>)
    decreases |es|
  {
    es == [] || (Legal(held, es[0]) && LegalRun(Receive(es[0]), es[1..]))
  }

  // ---------------------------------------------------------------------------
  // Lemmas: snapshots
  // ---------------------------------------------------------------------------

  // Inserting a finger into a slot-ordered snapshot gives the slot-ordered snapshot
  // of the larger slot set, and Position is where the finger ends up.
  lemma InsertIntoSnapshot(st: MtState, S: set<nat>, s: nat, fg: Finger)
    requires s !in S && s < MAX_FINGERS
    ensures Insert(Snapshot(st, S), Entry(s, fg)) == Snapshot(st[s := fg], S + {s})
  {
    EntriesSplit(st, S, s, fg, |st|);
    EntriesBelow(st, S, s);
    PositionUnique(Snapshot(st, S), s, |Entries(st, S, s)|);
  }

  lemma {:induction false} EntriesBelow(st: MtState, S: set<nat>, k: nat)
    requires k <= MAX_FINGERS
    ensures forall e :: e in Entries(st, S, k) ==> e.slot < k
  {
    if k > 0 {
      EntriesBelow(st, S, k - 1);
    }
  }

  lemma {:induction false} EntriesSplit(st: MtState, S: set<nat>, s: nat, fg: Finger, k: nat)
    requires s !in S && s < k <= MAX_FINGERS
    ensures Entries(st, S, s) <= Entries(st, S, k)
    ensures var es, n := Entries(st, S, k), |Entries(st, S, s)|;
            && Entries(st[s := fg], S + {s}, k) == es[..n] + [Entry(s, fg)] + es[n..]
            && forall i :: n <= i < |es| ==> es[i].slot > s
  {
    if k == s + 1 {
      EntriesFrame(st, st[s := fg], S, S + {s}, s);
      assert Entries(st, S, k) == Entries(st, S, s);
    } else {
      EntriesSplit(st, S, s, fg, k - 1);
    }
  }

  lemma {:induction false} EntriesFrame(a: MtState, b: MtState, S: set<nat>, T: set<nat>, k: nat)
    requires k <= MAX_FINGERS
    requires forall s :: 0 <= s < k ==> ((s in S <==> s in T) && (s in S ==> a[s] == b[s]))
    ensures Entries(a, S, k) == Entries(b, T, k)
  {
    if k > 0 {
      EntriesFrame(a, b, S, T, k - 1);
    }
  }

  lemma {:induction false} PositionUnique(es: seq<Entry>, slot: nat, n: nat)
    requires n <= |es|
    requires forall i :: 0 <= i < n ==> es[i].slot < slot
    requires n < |es| ==> es[n].slot > slot
    ensures Position(es, slot) == n
  {
    if n > 0 {
      PositionUnique(es[1..], slot, n - 1);
    }
  }

  // Equal tracking ids on a slot set give equal pointer-id lists.
  lemma {:induction false} EntriesSameIds(a: MtState, b: MtState, S: set<nat>, k: nat)
    requires k <= MAX_FINGERS
    requires forall s :: 0 <= s < k && s in S ==> a[s].id == b[s].id
    ensures Ids(Pointers(Entries(a, S, k))) == Ids(Pointers(Entries(b, S, k)))
  {
    if k > 0 {
      EntriesSameIds(a, b, S, k - 1);
      var ea, eb := Entries(a, S, k - 1), Entries(b, S, k - 1);
      assert |ea| == |Ids(Pointers(ea))| == |eb|;
      forall i | 0 <= i < |ea|
        ensures ToPointer(ea[i].fg).id == ToPointer(eb[i].fg).id
      {
        assert Ids(Pointers(ea))[i] == Ids(Pointers(eb))[i];
      }
    }
  }

  // Every finger held before the frame either survives or is released.
  lemma {:induction false} HeldCount(prev: MtState, cur: MtState, k: nat)
    requires k <= MAX_FINGERS
    ensures |Entries(prev, ActiveSlots(prev), k)|
         == |Entries(cur, KeptSlots(prev, cur), k)| + |FallingList(prev, cur, k)|
  {
    if k > 0 {
      HeldCount(prev, cur, k - 1);
    }
  }

  lemma {:induction false} EntriesNonempty(st: MtState, S: set<nat>, k: nat, s: nat)
    requires s in S && s < k <= MAX_FINGERS
    ensures Entries(st, S, k) != []
  {
    if s < k - 1 {
      EntriesNonempty(st, S, k - 1, s);
    }
  }

  lemma RisingInit(prev: MtState, cur: MtState, k: nat)
    requires 0 < k <= MAX_FINGERS && Rises(prev, cur, k - 1)
    ensures var r := RisingList(prev, cur, k); r != [] && Last(r) == k - 1 && Init(r) == RisingList(prev, cur, k - 1)
  {
    var before := RisingList(prev, cur, k - 1);
    assert RisingList(prev, cur, k) == before + [k - 1];
    assert Init(before + [k - 1]) == before;
  }

  // Adding risen fingers one at a time yields the snapshot of kept and risen slots.
  lemma {:induction false} GrownIsSnapshot(prev: MtState, cur: MtState, k: nat)
    requires k <= MAX_FINGERS
    ensures Grown(prev, cur, RisingList(prev, cur, k))
         == Snapshot(cur, KeptSlots(prev, cur) + RisenSlots(prev, cur, k))
  {
    var K := KeptSlots(prev, cur);
    if k == 0 {
      assert K + RisenSlots(prev, cur, 0) == K;
    } else {
      GrownIsSnapshot(prev, cur, k - 1);
      var R := K + RisenSlots(prev, cur, k - 1);
      if Rises(prev, cur, k - 1) {
        RisingInit(prev, cur, k);
        InsertIntoSnapshot(cur, R, k - 1, cur[k - 1]);
        assert cur[k - 1 := cur[k - 1]] == cur;
        assert R + {k - 1} == K + RisenSlots(prev, cur, k);
      } else {
        assert R == K + RisenSlots(prev, cur, k);
      }
    }
  }

  // There is room for one more finger as long as one slot is not yet in the snapshot.
  lemma SnapshotRoom(st: MtState, S: set<nat>, s: nat)
    requires s !in S && s < MAX_FINGERS
    ensures |Snapshot(st, S)| < MAX_FINGERS
  {
    InsertIntoSnapshot(st, S, s, NO_FINGER);
    InsertThenDrop(Snapshot(st, S), Entry(s, NO_FINGER));
  }

  lemma GrownRoom(prev: MtState, cur: MtState, s: nat)
    requires Rises(prev, cur, s)
    ensures |Grown(prev, cur, RisingList(prev, cur, s))| < MAX_FINGERS
  {
    GrownIsSnapshot(prev, cur, s);
    SnapshotRoom(cur, KeptSlots(prev, cur) + RisenSlots(prev, cur, s), s);
  }

  lemma SurvivorsRoom(prev: MtState, cur: MtState, s: nat)
    requires Falls(prev, cur, s)
    ensures |Survivors(prev, cur)| < MAX_FINGERS
  {
    SnapshotRoom(cur, KeptSlots(prev, cur), s);
  }

  lemma KeptAndRisenAreActive(prev: MtState, cur: MtState)
    ensures KeptSlots(prev, cur) + RisenSlots(prev, cur, |cur|) == ActiveSlots(cur)
  {
  }

  // ---------------------------------------------------------------------------
  // Lemmas: one frame
  // ---------------------------------------------------------------------------

  lemma PointersDrop(es: seq<Entry>, p: nat)
    requires p < |es|
    ensures Drop(Pointers(es), p) == Pointers(Drop(es, p))
  {
    var a, b := Drop(Pointers(es), p), Pointers(Drop(es, p));
    forall i | 0 <= i < |a|
      ensures a[i] == b[i]
    {
      var j := if i < p then i else i + 1;
      assert a[i] == Pointers(es)[j] && Drop(es, p)[i] == es[j];
    }
  }

  lemma InsertThenDrop(es: seq<Entry>, x: Entry)
    ensures var p := Position(es, x.slot);
            && p < |Insert(es, x)| == |es| + 1
            && Insert(es, x)[p] == x
            && Drop(Insert(es, x), p) == es
  {
  }

  // The changed finger sits at the action index; without it the old pointers remain.
  lemma ChangeEventIndex(es: seq<Entry>, x: Entry, first: Action, other: Action)
    ensures var e := ChangeEvent(es, x, first, other);
            && e.index < |e.pointers| == |es| + 1
            && e.pointers == Pointers(Insert(es, x))
            && e.pointers[e.index] == ToPointer(x.fg)
            && Drop(e.pointers, e.index) == Pointers(es)
            && e.action == if es == [] then first else other
  {
    InsertThenDrop(es, x);
    PointersDrop(Insert(es, x), Position(es, x.slot));
  }

  // A release event, once received, leaves exactly the survivors.
  lemma ReceiveUp(prev: MtState, cur: MtState, s: nat)
    requires Falls(prev, cur, s)
    ensures var e := UpEvent(prev, cur, s);
            && Receive(e) == Pointers(Survivors(prev, cur))
            && e.index < |e.pointers| == |Survivors(prev, cur)| + 1 <= MAX_FINGERS
            && e.pointers[e.index] == ToPointer(prev[s])
            && e.pointers == Pointers(Snapshot(cur[s := prev[s]], KeptSlots(prev, cur) + {s}))
            && e.action == if |e.pointers| == 1 then Up else PointerUp
  {
    ChangeEventIndex(Survivors(prev, cur), Entry(s, prev[s]), Up, PointerUp);
    InsertIntoSnapshot(cur, KeptSlots(prev, cur), s, prev[s]);
    SurvivorsRoom(prev, cur, s);
  }

  // A press event carries the new finger at its index and the old pointers around it.
  lemma ReceiveDown(prev: MtState, cur: MtState, before: seq<nat>, s: nat)
    requires s < MAX_FINGERS && forall i :: 0 <= i < |before| ==> before[i] < MAX_FINGERS
    ensures var e := PressEvent(prev, cur, before, s);
            && e.index < |e.pointers|
            && e.pointers[e.index] == ToPointer(cur[s])
            && Drop(e.pointers, e.index) == Pointers(Grown(prev, cur, before))
            && Receive(e) == Pointers(Insert(Grown(prev, cur, before), Entry(s, cur[s])))
            && e.action == if |e.pointers| == 1 then Down else PointerDown
  {
    ChangeEventIndex(Grown(prev, cur, before), Entry(s, cur[s]), Down, PointerDown);
  }

  lemma ReplayUps(prev: MtState, cur: MtState, held: seq<Pointer>)
    ensures Replay(held, UpEvents(prev, cur))
         == if FallingList(prev, cur, |cur|) == [] then held else Pointers(Survivors(prev, cur))
  {
    var falling := FallingList(prev, cur, |cur|);
    if falling != [] {
      ReceiveUp(prev, cur, falling[|falling| - 1]);
      assert UpEvents(prev, cur)[|falling| - 1] == UpEvent(prev, cur, falling[|falling| - 1]);
    }
  }

  lemma ReplaySnoc(held: seq<Pointer>, es: seq<TouchEvent>, e: TouchEvent)
    ensures Replay(held, es + [e]) == Receive(e)
  {
  }

  lemma {:induction false} NoneRising(prev: MtState, cur: MtState, k: nat)
    requires k <= MAX_FINGERS && RisingList(prev, cur, k) == []
    ensures forall s: nat :: s < k ==> !Rises(prev, cur, s)
  {
    if k > 0 {
      NoneRising(prev, cur, k - 1);
    }
  }

  lemma ReplayDowns(prev: MtState, cur: MtState, held: seq<Pointer>, slots: seq<nat>)
    requires slots != [] && forall i :: 0 <= i < |slots| ==> slots[i] < MAX_FINGERS
    ensures Replay(held, PressEvents(prev, cur, slots)) == Pointers(Grown(prev, cur, slots))
  {
    ReplaySnoc(held, PressEvents(prev, cur, Init(slots)), PressEvent(prev, cur, Init(slots), Last(slots)));
    ReceiveDown(prev, cur, Init(slots), Last(slots));
  }

  lemma ReplayConcat(held: seq<Pointer>, xs: seq<TouchEvent>, ys: seq<TouchEvent>)
    ensures Replay(held, xs + ys) == Replay(Replay(held, xs), ys)
  {
    if ys == [] {
      assert xs + ys == xs;
    }
  }

  lemma GrownIsActive(prev: MtState, cur: MtState)
    ensures Pointers(Grown(prev, cur, RisingList(prev, cur, |cur|))) == ActivePointers(cur)
  {
    GrownIsSnapshot(prev, cur, |cur|);
    KeptAndRisenAreActive(prev, cur);
  }

  // A frame that sends anything at all brings any receiver in step, whatever it held.
  lemma FrameResynchronises(prev: MtState, cur: MtState, held: seq<Pointer>)
    requires FrameEvents(prev, cur) != []
    ensures Replay(held, FrameEvents(prev, cur)) == ActivePointers(cur)
  {
    var ups, downs, moves := UpEvents(prev, cur), DownEvents(prev, cur), MoveEvents(prev, cur);
    ReplayConcat(held, ups + downs, moves);
    if moves == [] {
      ReplayConcat(held, ups, downs);
      ReplayUps(prev, cur, held);
      GrownIsActive(prev, cur);
      if downs != [] {
        ReplayDowns(prev, cur, Replay(held, ups), RisingList(prev, cur, |cur|));
      }
    }
  }

  // A frame that sends nothing has changed nothing.
  lemma SilentFrame(prev: MtState, cur: MtState)
    requires FrameEvents(prev, cur) == []
    ensures ActivePointers(prev) == ActivePointers(cur)
  {
    assert UpEvents(prev, cur) == [] && DownEvents(prev, cur) == [] && MoveEvents(prev, cur) == [];
    NoneRising(prev, cur, |cur|);
    assert !Moved(prev, cur, |cur|);
    forall s: nat | s < MAX_FINGERS
      ensures (prev[s].id < 0 && cur[s].id < 0) || prev[s] == cur[s]
    {
      assert s !in FallingList(prev, cur, |cur|);
      assert !Falls(prev, cur, s) && !Rises(prev, cur, s);
    }
    EntriesFrame(prev, cur, ActiveSlots(prev), ActiveSlots(cur), |cur|);
  }

  // Replaying a frame's events takes a receiver from the previous fingers to the current ones.
  lemma FrameReplay(prev: MtState, cur: MtState)
    ensures Replay(ActivePointers(prev), FrameEvents(prev, cur)) == ActivePointers(cur)
  {
    if FrameEvents(prev, cur) != [] {
      FrameResynchronises(prev, cur, ActivePointers(prev));
    } else {
      SilentFrame(prev, cur);
    }
  }

  // ---------------------------------------------------------------------------
  // Lemmas: the strict pointer protocol
  // ---------------------------------------------------------------------------

  lemma {:induction false} LegalRunConcat(held: seq<Pointer>, xs: seq<TouchEvent>, ys: seq<TouchEvent>)
    ensures LegalRun(held, xs + ys) <==> LegalRun(held, xs) && LegalRun(Replay(held, xs), ys)
    decreases |xs|
  {
    if xs == [] {
      assert xs + ys == ys;
    } else {
      LegalRunConcat(Receive(xs[0]), xs[1..], ys);
      assert (xs + ys)[1..] == xs[1..] + ys;
    }
  }

  lemma LegalSnoc(held: seq<Pointer>, es: seq<TouchEvent>, e: TouchEvent)
    requires LegalRun(held, es) && Legal(Replay(held, es), e)
    ensures LegalRun(held, es + [e])
  {
    LegalRunConcat(held, es, [e]);
  }

  lemma SameIdsSameLength(a: seq<Pointer>, b: seq<Pointer>)
    requires Ids(a) == Ids(b)
    ensures |a| == |b|
  {
    assert |Ids(a)| == |Ids(b)|;
  }

  // The presses of `slots` are legal from `held` and leave the receiver in step.
  predicate InStep(prev: MtState, cur: MtState, held: seq<Pointer>, slots: seq<nat>)
    requires forall i :: 0 <= i < |slots| ==> slots[i] < MAX_FINGERS
  {
    && LegalRun(held, PressEvents(prev, cur, slots))
    && Ids(Replay(held, PressEvents(prev, cur, slots))) == Ids(Pointers(Grown(prev, cur, slots)))
  }

  lemma DownLegal(prev: MtState, cur: MtState, held: seq<Pointer>, before: seq<nat>, s: nat)
    requires s < MAX_FINGERS && forall i :: 0 <= i < |before| ==> before[i] < MAX_FINGERS
    requires |Grown(prev, cur, before)| < MAX_FINGERS
    requires Ids(held) == Ids(Pointers(Grown(prev, cur, before)))
    ensures Legal(held, PressEvent(prev, cur, before, s))
  {
    SameIdsSameLength(held, Pointers(Grown(prev, cur, before)));
    ReceiveDown(prev, cur, before, s);
  }

  lemma InStepSnoc(prev: MtState, cur: MtState, held: seq<Pointer>, slots: seq<nat>)
    requires slots != [] && forall i :: 0 <= i < |slots| ==> slots[i] < MAX_FINGERS
    requires |Grown(prev, cur, Init(slots))| < MAX_FINGERS
    requires InStep(prev, cur, held, Init(slots))
    ensures InStep(prev, cur, held, slots)
  {
    var events := PressEvents(prev, cur, Init(slots));
    DownLegal(prev, cur, Replay(held, events), Init(slots), Last(slots));
    LegalSnoc(held, events, PressEvent(prev, cur, Init(slots), Last(slots)));
    ReplayDowns(prev, cur, held, slots);
  }

  lemma {:induction false} DownsLegal(prev: MtState, cur: MtState, k: nat, held: seq<Pointer>)
    requires k <= MAX_FINGERS
    requires Ids(held) == Ids(Pointers(Survivors(prev, cur)))
    ensures InStep(prev, cur, held, RisingList(prev, cur, k))
  {
    if k > 0 {
      DownsLegal(prev, cur, k - 1, held);
      if Rises(prev, cur, k - 1) {
        GrownRoom(prev, cur, k - 1);
        RisingInit(prev, cur, k);
        var slots := RisingList(prev, cur, k);
        assert Init(slots) == RisingList(prev, cur, k - 1);
        InStepSnoc(prev, cur, held, slots);
      }
    }
  }

  // With two or more releases in one frame a release event lists too few pointers.
  lemma UpEventListsTooFew(prev: MtState, cur: MtState, s: nat)
    requires Falls(prev, cur, s)
    requires |FallingList(prev, cur, |cur|)| > 1
    ensures !Legal(ActivePointers(prev), UpEvent(prev, cur, s))
  {
    var e := UpEvent(prev, cur, s);
    HeldCount(prev, cur, |cur|);
    ReceiveUp(prev, cur, s);
    if Ids(e.pointers) == Ids(ActivePointers(prev)) {
      SameIdsSameLength(e.pointers, ActivePointers(prev));
    }
  }

  lemma OnlyUpLegal(prev: MtState, cur: MtState, s: nat)
    requires Falls(prev, cur, s) && FallingList(prev, cur, |cur|) == [s]
    ensures Legal(ActivePointers(prev), UpEvent(prev, cur, s))
  {
    var K := KeptSlots(prev, cur) + {s};
    forall t: nat
      ensures t in ActiveSlots(prev) <==> t in K
    {
      assert Falls(prev, cur, t) ==> t in FallingList(prev, cur, |cur|);
    }
    EntriesSameIds(prev, cur[s := prev[s]], K, |cur|);
    assert ActiveSlots(prev) == K;
    ReceiveUp(prev, cur, s);
  }

  lemma NoReleaseKeepsIds(prev: MtState, cur: MtState)
    requires FallingList(prev, cur, |cur|) == []
    ensures Ids(ActivePointers(prev)) == Ids(Pointers(Survivors(prev, cur)))
  {
    forall t: nat
      ensures t in ActiveSlots(prev) <==> t in KeptSlots(prev, cur)
    {
      assert !Falls(prev, cur, t);
    }
    assert ActiveSlots(prev) == KeptSlots(prev, cur);
    EntriesSameIds(prev, cur, KeptSlots(prev, cur), |cur|);
  }

  lemma UpsLegal(prev: MtState, cur: MtState)
    ensures LegalRun(ActivePointers(prev), UpEvents(prev, cur)) <==> |FallingList(prev, cur, |cur|)| <= 1
  {
    var falling, ups := FallingList(prev, cur, |cur|), UpEvents(prev, cur);
    if falling != [] {
      var s := falling[0];
      assert ups[0] == UpEvent(prev, cur, s);
      if |falling| == 1 {
        OnlyUpLegal(prev, cur, s);
        assert ups[1..] == [];
      } else {
        UpEventListsTooFew(prev, cur, s);
      }
    }
  }

  lemma MoveLegal(prev: MtState, cur: MtState, held: seq<Pointer>)
    requires MoveEvents(prev, cur) != []
    requires Ids(held) == Ids(Pointers(Grown(prev, cur, RisingList(prev, cur, |cur|))))
    ensures Legal(held, MoveEvents(prev, cur)[0])
  {
    GrownIsActive(prev, cur);
    var s: nat :| s < |cur| && prev[s].id >= 0 && cur[s].id == prev[s].id;
    assert s in ActiveSlots(cur);
    EntriesNonempty(cur, ActiveSlots(cur), |cur|, s);
  }

  // A frame's events obey the pointer protocol exactly when it releases at most one slot.
  lemma StrictProtocol(prev: MtState, cur: MtState)
    ensures LegalRun(ActivePointers(prev), FrameEvents(prev, cur)) <==> |FallingList(prev, cur, |cur|)| <= 1
  {
    var held := ActivePointers(prev);
    var ups, downs, moves := UpEvents(prev, cur), DownEvents(prev, cur), MoveEvents(prev, cur);
    LegalRunConcat(held, ups, downs);
    LegalRunConcat(held, ups + downs, moves);
    UpsLegal(prev, cur);
    if |FallingList(prev, cur, |cur|)| <= 1 {
      ReplayUps(prev, cur, held);
      if FallingList(prev, cur, |cur|) == [] {
        NoReleaseKeepsIds(prev, cur);
      }
      DownsLegal(prev, cur, |cur|, Replay(held, ups));
      if moves != [] {
        ReplayConcat(held, ups, downs);
        MoveLegal(prev, cur, Replay(held, ups + downs));
      }
    }
  }
}
