// The stateful half of the touch shim: the differ object, the evdev reader and whole runs.
module TouchDevice {
  import opened Machine
  import opened Touch

  // The risen slots before the i-th one are exactly those of smaller index.
  lemma {:induction false} RisingPrefix(prev: MtState, cur: MtState, k: nat, i: nat)
    requires k <= MAX_FINGERS && i < |RisingList(prev, cur, k)|
    ensures var r := RisingList(prev, cur, k);
            Rises(prev, cur, r[i]) && RisingList(prev, cur, r[i]) == r[..i]
  {
    var r := RisingList(prev, cur, k);
    if Rises(prev, cur, k - 1) && i == |r| - 1 {
      RisingInit(prev, cur, k);
    } else {
      RisingPrefix(prev, cur, k - 1, i);
    }
  }

  lemma PressPrefix(prev: MtState, cur: MtState, i: nat)
    requires i < |RisingList(prev, cur, |cur|)|
    ensures var r := RisingList(prev, cur, |cur|);
            && r[..i + 1] == r[..i] + [r[i]]
            && |Grown(prev, cur, r[..i])| < MAX_FINGERS
            && PressEvents(prev, cur, r[..i + 1])
               == PressEvents(prev, cur, r[..i]) + [PressEvent(prev, cur, r[..i], r[i])]
  {
    var r := RisingList(prev, cur, |cur|);
    RisingPrefix(prev, cur, |cur|, i);
    GrownRoom(prev, cur, r[i]);
    assert Init(r[..i + 1]) == r[..i];
  }

  lemma WhenMoves(prev: MtState, cur: MtState)
    ensures MoveEvents(prev, cur)
         == if FallingList(prev, cur, |cur|) == [] && RisingList(prev, cur, |cur|) == [] && Moved(prev, cur, |cur|)
            then [TouchEvent(Move, 0, ActivePointers(cur))] else []
  {
  }

  // The survivors, written in slot order to the front of `out`.
  method BuildSurvivors(prev: MtState, cur: MtState, out: array<Entry>) returns (n: nat)
    requires out.Length == MAX_FINGERS
    modifies out
    ensures n <= MAX_FINGERS && out[..n] == Survivors(prev, cur)
  {
    n := 0;
    ghost var K := KeptSlots(prev, cur);
    for slot := 0 to |cur|
      invariant n <= slot && out[..n] == Entries(cur, K, slot)
    {
      if prev[slot].id >= 0 && cur[slot].id == prev[slot].id {
        out[n] := Entry(slot, cur[slot]);
        n := n + 1;
      }
    }
  }

  method FindPosition(arr: array<Entry>, n: nat, slot: nat) returns (pos: nat)
    requires n <= arr.Length
    ensures pos == Position(arr[..n], slot)
  {
    pos := 0;
    while pos < n
      invariant pos <= n
      invariant Position(arr[..n], slot) == pos + Position(arr[pos..n], slot)
    {
      if arr[pos].slot > slot { break; }
      assert arr[pos..n][1..] == arr[pos + 1..n];
      pos := pos + 1;
    }
  }

  lemma Joined(after: seq<Entry>, was: seq<Entry>, pos: nat, e: Entry)
    requires pos <= |was| && |after| == |was| + 1 && after[..pos] == was[..pos]
    requires after[pos] == e && after[pos + 1..] == was[pos..]
    ensures after == was[..pos] + [e] + was[pos..]
  {
    assert after == after[..pos] + [after[pos]] + after[pos + 1..];
  }

  // Slot-sorted insertion in place; returns where the finger was put.
  method InsertSorted(arr: array<Entry>, n: nat, slot: nat, fg: Finger) returns (pos: nat)
    requires n < arr.Length
    modifies arr
    ensures pos == Position(old(arr[..n]), slot)
    ensures arr[..n + 1] == Insert(old(arr[..n]), Entry(slot, fg))
  {
    ghost var was := arr[..n];
    pos := FindPosition(arr, n, slot);
    var i := n;
    while i > pos
      invariant pos <= i <= n
      invariant arr[..i] == was[..i]
      invariant arr[i + 1..n + 1] == was[i..]
    {
      arr[i] := arr[i - 1];
      i := i - 1;
    }
    arr[pos] := Entry(slot, fg);
    Joined(arr[..n + 1], was, pos, Entry(slot, fg));
  }

  method Copy(src: array<Entry>, n: nat) returns (dst: array<Entry>)
    requires n <= src.Length == MAX_FINGERS
    ensures fresh(dst) && dst.Length == MAX_FINGERS && dst[..n] == src[..n]
  {
    dst := new Entry[MAX_FINGERS](_ => Entry(0, NO_FINGER));
    for i := 0 to n
      invariant dst[..i] == src[..i]
    {
      dst[i] := src[i];
    }
  }

  class TouchSender {
    var prev: MtState
    var prevInit: bool
    var sent: seq<TouchEvent>    // everything handed to the phone so far

    // The snapshot the next frame is compared with.
    function Previous(): MtState
      reads this
    {
      if prevInit then prev else ALL_EMPTY
    }

    // File-scope state is zero-initialised: id 0 in every slot, not the empty marker.
    constructor ()
      ensures Previous() == ALL_EMPTY && sent == []
    {
      prev := seq(MAX_FINGERS, _ => Finger(0, 0, 0));
      prevInit := false;
      sent := [];
    }

    method Reset()
      modifies this
      ensures Previous() == ALL_EMPTY && sent == old(sent)
    {
      prevInit := false;
    }

    method SendEvent(entries: array<Entry>, n: int, action: Action, index: nat, focus: bool)
      requires n <= entries.Length
      modifies this`sent
      ensures sent == old(sent) + if 0 < n <= MAX_FINGERS && focus
                                  then [TouchEvent(action, index, Pointers(entries[..n]))] else []
    {
      if n <= 0 || n > MAX_FINGERS || !focus { return; }
      var pointers: seq<Pointer> := [];
      for i := 0 to n
        invariant pointers == Pointers(entries[..i])
      {
        pointers := pointers + [ToPointer(entries[i].fg)];
        assert entries[..i + 1] == entries[..i] + [entries[i]];
      }
      sent := sent + [TouchEvent(action, index, pointers)];
    }

    // Add one finger to the snapshot in `arr` and report it.
    method SendChange(arr: array<Entry>, n: nat, slot: nat, fg: Finger, first: Action, other: Action, focus: bool)
      requires n < arr.Length == MAX_FINGERS
      modifies this`sent, arr
      ensures arr[..n + 1] == Insert(old(arr[..n]), Entry(slot, fg))
      ensures sent == old(sent)
                      + if focus then [ChangeEvent(old(arr[..n]), Entry(slot, fg), first, other)] else []
    {
      var idx := InsertSorted(arr, n, slot, fg);
      var alone := n + 1 == 1;
      SendEvent(arr, n + 1, if alone then first else other, if alone then 0 else idx, focus);
    }

    // The steps below compare with `prev`, the remembered snapshot at frame start.

    // Step 1: one release event per fallen slot.
    method SendReleases(prev: MtState, cur: MtState, falling: seq<nat>, survivors: array<Entry>, n: nat, focus: bool)
      requires survivors.Length == MAX_FINGERS && n <= MAX_FINGERS
      requires survivors[..n] == Survivors(prev, cur)
      requires forall i :: 0 <= i < |falling| ==> falling[i] < MAX_FINGERS && Falls(prev, cur, falling[i])
      modifies this`sent
      ensures sent == old(sent) + if focus then ReleaseEvents(prev, cur, falling) else []
    {
      ghost var ups := ReleaseEvents(prev, cur, falling);
      for i := 0 to |falling|
        invariant sent == old(sent) + if focus then ups[..i] else []
      {
        var slot := falling[i];
        SurvivorsRoom(prev, cur, slot);
        var snap := Copy(survivors, n);
        SendChange(snap, n, slot, prev[slot], Up, PointerUp, focus);
        assert ups[..i + 1] == ups[..i] + [UpEvent(prev, cur, slot)];
      }
      assert ups[..|falling|] == ups;
    }

    method SendPress(prev: MtState, cur: MtState, inc: array<Entry>, n: nat, ghost before: seq<nat>, slot: nat,
                     focus: bool)
      requires n < inc.Length == MAX_FINGERS && slot < MAX_FINGERS
      requires forall i :: 0 <= i < |before| ==> before[i] < MAX_FINGERS
      requires inc[..n] == Grown(prev, cur, before)
      modifies this`sent, inc
      ensures inc[..n + 1] == Grown(prev, cur, before + [slot])
      ensures sent == old(sent) + if focus then [PressEvent(prev, cur, before, slot)] else []
    {
      assert Init(before + [slot]) == before;
      SendChange(inc, n, slot, cur[slot], Down, PointerDown, focus);
    }

    // Step 2: one press event per risen slot, over a growing snapshot.
    method SendPresses(prev: MtState, cur: MtState, rising: seq<nat>, survivors: array<Entry>, n: nat, focus: bool)
      requires survivors.Length == MAX_FINGERS && n <= MAX_FINGERS
      requires survivors[..n] == Survivors(prev, cur)
      requires rising == RisingList(prev, cur, |cur|)
      modifies this`sent
      ensures sent == old(sent) + if focus then DownEvents(prev, cur) else []
    {
      var inc := Copy(survivors, n);
      var incN: nat := n;
      for i := 0 to |rising|
        invariant incN <= MAX_FINGERS && inc[..incN] == Grown(prev, cur, rising[..i])
        invariant sent == old(sent) + if focus then PressEvents(prev, cur, rising[..i]) else []
      {
        PressPrefix(prev, cur, i);
        ghost var before, events := rising[..i], PressEvents(prev, cur, rising[..i]);
        SendPress(prev, cur, inc, incN, before, rising[i], focus);
        assert focus ==> sent == old(sent) + (events + [PressEvent(prev, cur, before, rising[i])]);
        incN := incN + 1;
      }
      assert rising[..|rising|] == rising;
    }

    // Step 3: a move event listing all current fingers.
    method SendMove(cur: MtState, focus: bool)
      requires exists s :: 0 <= s < |cur| && cur[s].id >= 0
      modifies this`sent
      ensures sent == old(sent) + if focus then [TouchEvent(Move, 0, ActivePointers(cur))] else []
    {
      ghost var t: nat :| t < |cur| && cur[t].id >= 0;
      EntriesNonempty(cur, ActiveSlots(cur), |cur|, t);
      var snap := new Entry[MAX_FINGERS](_ => Entry(0, NO_FINGER));
      var n: nat := 0;
      ghost var S := ActiveSlots(cur);
      for s := 0 to |cur|
        invariant n <= s && snap[..n] == Entries(cur, S, s) && sent == old(sent)
      {
        if cur[s].id < 0 { continue; }
        snap[n] := Entry(s, cur[s]);
        n := n + 1;
      }
      assert snap[..n] == Snapshot(cur, S) != [];
      SendEvent(snap, n, Move, 0, focus);
    }

    method SendMoveIfAlone(prev: MtState, cur: MtState, changes: nat, moved: bool, focus: bool)
      requires changes == |FallingList(prev, cur, |cur|)| + |RisingList(prev, cur, |cur|)|
      requires moved == Moved(prev, cur, |cur|)
      modifies this`sent
      ensures sent == old(sent) + if focus then MoveEvents(prev, cur) else []
    {
      WhenMoves(prev, cur);
      if changes == 0 && moved {
        SendMove(cur, focus);
      }
    }

    static method Categorise(prev: MtState, cur: MtState) returns (falling: seq<nat>, rising: seq<nat>, moved: bool)
      ensures falling == FallingList(prev, cur, |cur|)
      ensures rising == RisingList(prev, cur, |cur|)
      ensures moved == Moved(prev, cur, |cur|)
    {
      falling, rising, moved := [], [], false;
      for s := 0 to |cur|
        invariant falling == FallingList(prev, cur, s)
        invariant rising == RisingList(prev, cur, s)
        invariant moved == Moved(prev, cur, s)
      {
        var pid, cid := prev[s].id, cur[s].id;
        if pid < 0 && cid < 0 {
          continue;
        } else if pid < 0 && cid >= 0 {
          rising := rising + [s];
        } else if pid >= 0 && cid < 0 {
          falling := falling + [s];
        } else if pid != cid {
          falling := falling + [s];
          rising := rising + [s];
        } else if prev[s].x != cur[s].x || prev[s].y != cur[s].y {
          moved := true;
        }
      }
    }

    // The first frame of a session is compared with an empty panel.
    method EnsureInit()
      modifies this`prev, this`prevInit
      ensures prevInit && prev == old(Previous())
    {
      if !prevInit {
        prev := ALL_EMPTY;
        prevInit := true;
      }
    }

    method SendChanges(prev: MtState, cur: MtState, falling: seq<nat>, rising: seq<nat>, focus: bool)
      requires falling == FallingList(prev, cur, |cur|) && rising == RisingList(prev, cur, |cur|)
      modifies this`sent
      ensures sent == old(sent) + if focus then UpEvents(prev, cur) + DownEvents(prev, cur) else []
    {
      var survivors := new Entry[MAX_FINGERS](_ => Entry(0, NO_FINGER));
      var n := BuildSurvivors(prev, cur, survivors);
      ghost var before := sent;
      SendReleases(prev, cur, falling, survivors, n, focus);
      assert sent == before + if focus then UpEvents(prev, cur) else [];
      SendPresses(prev, cur, rising, survivors, n, focus);
    }

    method SendFrame(prev: MtState, cur: MtState, focus: bool)
      modifies this`sent
      ensures sent == old(sent) + if focus then FrameEvents(prev, cur) else []
    {
      var falling, rising, moved := Categorise(prev, cur);
      SendChanges(prev, cur, falling, rising, focus);
      SendMoveIfAlone(prev, cur, |falling| + |rising|, moved, focus);
    }

    // One evdev frame: exactly the specified events go out, and the frame is remembered
    // whether or not the focus gate let them through.
    method OnFrame(cur: MtState, focus: bool)
      modifies this
      ensures Previous() == cur
      ensures sent == old(sent) + if focus then FrameEvents(old(Previous()), cur) else []
    {
      EnsureInit();
      SendFrame(prev, cur, focus);
      prev := cur;
    }
  }

  // ---------------------------------------------------------------------------
  // The evdev reader
  // ---------------------------------------------------------------------------

  datatype InputEvent =
    | MtSlot(value: int32)
    | TrackingId(value: int32)
    | PositionX(value: int32)
    | PositionY(value: int32)
    | SynReport
    | SynDropped
    | Ignored          // every other type or code

  function SlotOf(value: int32): (s: nat)
    ensures s < MAX_FINGERS
  {
    if 0 <= value < MAX_FINGERS then value else 0
  }

  predicate IsFrame(ev: InputEvent) {
    ev.SynReport? || ev.SynDropped?
  }

  class TouchReader {
    var cur: MtState
    var slot: nat
    const sender: TouchSender

    ghost predicate Valid()
      reads this
    {
      slot < MAX_FINGERS
    }

    constructor (s: TouchSender)
      ensures Valid() && cur == ALL_EMPTY && slot == 0 && sender == s
    {
      cur := ALL_EMPTY;
      slot := 0;
      sender := s;
    }

    method Handle(ev: InputEvent, focus: bool)
      requires Valid()
      modifies this, sender
      ensures Valid()
      ensures slot == if ev.MtSlot? then SlotOf(ev.value) else old(slot)
      ensures cur == Write(old(cur), old(slot), ev)
      ensures !IsFrame(ev) ==> sender.sent == old(sender.sent) && sender.Previous() == old(sender.Previous())
      ensures IsFrame(ev) ==> sender.Previous() == cur
      ensures IsFrame(ev) ==>
                sender.sent == old(sender.sent) + if focus then FrameEvents(old(sender.Previous()), cur) else []
    {
      match ev {
        case MtSlot(v) =>
          if 0 <= v < MAX_FINGERS { slot := v; } else { slot := 0; }
        case TrackingId(v) =>
          cur := cur[slot := cur[slot].(id := v)];
        case PositionX(v) =>
          cur := cur[slot := cur[slot].(x := v % 0x1_0000_0000)];
        case PositionY(v) =>
          cur := cur[slot := cur[slot].(y := v % 0x1_0000_0000)];
        case SynReport =>
          sender.OnFrame(cur, focus);
        case SynDropped =>
          cur := ALL_EMPTY;
          sender.OnFrame(cur, focus);
        case Ignored =>
      }
    }
  }

  // The slot contents after one event.
  function Write(cur: MtState, slot: nat, ev: InputEvent): MtState
    requires slot < MAX_FINGERS
  {
    match ev
    case TrackingId(v) => cur[slot := cur[slot].(id := v)]
    case PositionX(v) => cur[slot := cur[slot].(x := v % 0x1_0000_0000)]
    case PositionY(v) => cur[slot := cur[slot].(y := v % 0x1_0000_0000)]
    case SynDropped => ALL_EMPTY
    case _ => cur
  }

  // ---------------------------------------------------------------------------
  // Whole runs from a fresh session
  // ---------------------------------------------------------------------------

  function SelectedSlot(evs: seq<InputEvent>): (s: nat)
    ensures s < MAX_FINGERS
  {
    if evs == [] then 0
    else if Last(evs).MtSlot? then SlotOf(Last(evs).value)
    else SelectedSlot(Init(evs))
  }

  // What the kernel has said about the panel so far.
  function Panel(evs: seq<InputEvent>): MtState {
    if evs == [] then ALL_EMPTY else Write(Panel(Init(evs)), SelectedSlot(Init(evs)), Last(evs))
  }

  // The panel as of the last completed frame.
  function LastFrame(evs: seq<InputEvent>): MtState {
    if evs == [] then ALL_EMPTY
    else if IsFrame(Last(evs)) then Panel(evs)
    else LastFrame(Init(evs))
  }

  // The events the phone sees over a run with focus held.
  function Trace(evs: seq<InputEvent>): seq<TouchEvent> {
    if evs == [] then []
    else if IsFrame(Last(evs)) then Trace(Init(evs)) + FrameEvents(LastFrame(Init(evs)), Panel(evs))
    else Trace(Init(evs))
  }

  predicate SingleReleases(evs: seq<InputEvent>) {
    evs == [] ||
    (SingleReleases(Init(evs)) &&
     (IsFrame(Last(evs)) ==> |FallingList(LastFrame(Init(evs)), Panel(evs), |Panel(evs)|)| <= 1))
  }

  // Feeding a whole stream to the reader produces Trace and leaves it at Panel/LastFrame.
  method RunReader(evs: seq<InputEvent>) returns (reader: TouchReader)
    ensures fresh(reader) && fresh(reader.sender) && reader.Valid()
    ensures reader.sender.sent == Trace(evs)
    ensures reader.cur == Panel(evs) && reader.slot == SelectedSlot(evs)
    ensures reader.sender.Previous() == LastFrame(evs)
  {
    var sender := new TouchSender();
    reader := new TouchReader(sender);
    for i := 0 to |evs|
      invariant fresh(reader) && fresh(reader.sender) && reader.Valid()
      invariant reader.sender.sent == Trace(evs[..i])
      invariant reader.cur == Panel(evs[..i]) && reader.slot == SelectedSlot(evs[..i])
      invariant reader.sender.Previous() == LastFrame(evs[..i])
    {
      assert Init(evs[..i + 1]) == evs[..i] && Last(evs[..i + 1]) == evs[i];
      reader.Handle(evs[i], true);
    }
    assert evs[..|evs|] == evs;
  }

  // In every run the phone ends up holding exactly the fingers of the last frame.
  lemma {:induction false} RunReplay(evs: seq<InputEvent>)
    ensures Replay([], Trace(evs)) == ActivePointers(LastFrame(evs))
  {
    if evs == [] {
      EntriesFrame(ALL_EMPTY, ALL_EMPTY, ActiveSlots(ALL_EMPTY), {}, |ALL_EMPTY|);
      EmptySnapshot(ALL_EMPTY, |ALL_EMPTY|);
    } else {
      RunReplay(Init(evs));
      if IsFrame(Last(evs)) {
        ReplayConcat([], Trace(Init(evs)), FrameEvents(LastFrame(Init(evs)), Panel(evs)));
        FrameReplay(LastFrame(Init(evs)), Panel(evs));
      }
    }
  }

  // ---------------------------------------------------------------------------
  // The panel, read off the stream slot by slot
  // ---------------------------------------------------------------------------

  // The last tracking id received while slot s was selected, since the last overflow.
  function LastId(evs: seq<InputEvent>, s: nat): int32 {
    if evs == [] || Last(evs).SynDropped? then -1
    else if Last(evs).TrackingId? && SelectedSlot(evs) == s then Last(evs).value
    else LastId(Init(evs), s)
  }

  // The last horizontal position, as the unsigned number it is kept in.
  function LastX(evs: seq<InputEvent>, s: nat): uint32 {
    if evs == [] || Last(evs).SynDropped? then 0
    else if Last(evs).PositionX? && SelectedSlot(evs) == s then Last(evs).value % 0x1_0000_0000
    else LastX(Init(evs), s)
  }

  // The last vertical position.
  function LastY(evs: seq<InputEvent>, s: nat): uint32 {
    if evs == [] || Last(evs).SynDropped? then 0
    else if Last(evs).PositionY? && SelectedSlot(evs) == s then Last(evs).value % 0x1_0000_0000
    else LastY(Init(evs), s)
  }

  // The slot selected is the one named last; a slot out of range selects slot 0.
  lemma {:induction false} SlotSelected(evs: seq<InputEvent>, i: nat)
    requires i < |evs| && evs[i].MtSlot? && forall j :: i < j < |evs| ==> !evs[j].MtSlot?
    ensures SelectedSlot(evs) == if 0 <= evs[i].value < 10 then evs[i].value else 0
    decreases |evs|
  {
    if i < |evs| - 1 {
      SlotSelected(Init(evs), i);
    }
  }

  lemma {:induction false} PanelSlot(evs: seq<InputEvent>, s: nat)
    requires s < MAX_FINGERS
    ensures Panel(evs)[s] == Finger(LastId(evs, s), LastX(evs, s), LastY(evs, s))
  {
    if evs != [] {
      PanelSlot(Init(evs), s);
    }
  }

  // The stream up to its last completed frame.
  function UpToFrame(evs: seq<InputEvent>): seq<InputEvent> {
    if evs == [] || Last(evs).SynReport? || Last(evs).SynDropped? then evs else UpToFrame(Init(evs))
  }

  lemma {:induction false} LastFrameIsPanel(evs: seq<InputEvent>)
    ensures LastFrame(evs) == Panel(UpToFrame(evs))
  {
    if evs != [] {
      LastFrameIsPanel(Init(evs));
    }
  }

  // The fingers down in the slots below k: ids, and positions in the phone's 800 by 480.
  function Touching(evs: seq<InputEvent>, k: nat): seq<Pointer> {
    if k == 0 then []
    else Touching(evs, k - 1)
         + if LastId(evs, k - 1) >= 0
           then [Pointer(LastId(evs, k - 1), LastX(evs, k - 1) * 800 / 4099, LastY(evs, k - 1) * 480 / 4099)]
           else []
  }

  lemma PointersSnoc(es: seq<Entry>, e: Entry)
    ensures Pointers(es + [e]) == Pointers(es) + [ToPointer(e.fg)]
  {
  }

  lemma EntriesStep(st: MtState, k: nat)
    requires 0 < k <= MAX_FINGERS
    ensures Pointers(Entries(st, ActiveSlots(st), k))
         == Pointers(Entries(st, ActiveSlots(st), k - 1)) + if st[k - 1].id >= 0 then [ToPointer(st[k - 1])] else []
  {
    PointersSnoc(Entries(st, ActiveSlots(st), k - 1), Entry(k - 1, st[k - 1]));
  }

  lemma {:induction false} TouchingPanel(evs: seq<InputEvent>, st: MtState, k: nat)
    requires k <= MAX_FINGERS && st == Panel(evs)
    ensures Pointers(Entries(st, ActiveSlots(st), k)) == Touching(evs, k)
  {
    if k > 0 {
      TouchingPanel(evs, st, k - 1);
      PanelSlot(evs, k - 1);
      EntriesStep(st, k);
    }
  }

  // In every run the phone ends up with a pointer for each slot whose finger was down at
  // the last completed frame, in slot order, where that finger was last reported.
  lemma PointersReported(evs: seq<InputEvent>)
    ensures Replay([], Trace(evs)) == Touching(UpToFrame(evs), 10)
  {
    RunReplay(evs);
    LastFrameIsPanel(evs);
    TouchingPanel(UpToFrame(evs), Panel(UpToFrame(evs)), 10);
  }

  lemma {:induction false} EmptySnapshot(st: MtState, k: nat)
    requires k <= MAX_FINGERS
    ensures Entries(st, {}, k) == []
  {
    if k > 0 {
      EmptySnapshot(st, k - 1);
    }
  }

  // A run obeys the pointer protocol throughout exactly when no frame releases two slots.
  lemma {:induction false} RunStrict(evs: seq<InputEvent>)
    ensures LegalRun([], Trace(evs)) <==> SingleReleases(evs)
  {
    if evs != [] {
      RunStrict(Init(evs));
      if IsFrame(Last(evs)) {
        var before, frame := Trace(Init(evs)), FrameEvents(LastFrame(Init(evs)), Panel(evs));
        LegalRunConcat([], before, frame);
        RunReplay(Init(evs));
        StrictProtocol(LastFrame(Init(evs)), Panel(evs));
      }
    }
  }

  lemma OneMore(evs: seq<InputEvent>, ev: InputEvent) returns (more: seq<InputEvent>)
    ensures more == evs + [ev] && Init(more) == evs && Last(more) == ev
    ensures Panel(more) == Write(Panel(evs), SelectedSlot(evs), ev)
    ensures SelectedSlot(more) == if ev.MtSlot? then SlotOf(ev.value) else SelectedSlot(evs)
    ensures LastFrame(more) == if IsFrame(ev) then Panel(more) else LastFrame(evs)
  {
    more := evs + [ev];
    assert Init(more) == evs;
  }

  const TWO_FINGERS: seq<InputEvent> := [MtSlot(0), TrackingId(5), MtSlot(1), TrackingId(6), SynReport]
  const BOTH_LIFTED: seq<InputEvent> := [MtSlot(0), TrackingId(-1), MtSlot(1), TrackingId(-1), SynReport]

  // Two fingers put down in one frame and lifted in the next.
  lemma TwoDown() returns (evs: seq<InputEvent>)
    ensures evs == TWO_FINGERS
    ensures LastFrame(evs) == Panel(evs) && Panel(evs)[0].id == 5 && Panel(evs)[1].id == 6
  {
    evs := [];
    evs := OneMore(evs, MtSlot(0));
    evs := OneMore(evs, TrackingId(5));
    evs := OneMore(evs, MtSlot(1));
    evs := OneMore(evs, TrackingId(6));
    evs := OneMore(evs, SynReport);
  }

  lemma BothUp() returns (before: seq<InputEvent>, evs: seq<InputEvent>)
    ensures evs == TWO_FINGERS + BOTH_LIFTED && before == Init(evs)
    ensures LastFrame(before)[0].id == 5 && LastFrame(before)[1].id == 6
    ensures Panel(evs)[0].id == -1 && Panel(evs)[1].id == -1
  {
    evs := TwoDown();
    evs := OneMore(evs, MtSlot(0));
    evs := OneMore(evs, TrackingId(-1));
    evs := OneMore(evs, MtSlot(1));
    before := OneMore(evs, TrackingId(-1));
    evs := OneMore(before, SynReport);
  }

  lemma TwoFall(prev: MtState, cur: MtState)
    requires Falls(prev, cur, 0) && Falls(prev, cur, 1)
    ensures |FallingList(prev, cur, |cur|)| > 1
  {
    var falling := FallingList(prev, cur, |cur|);
    var i :| 0 <= i < |falling| && falling[i] == 0;
    var j :| 0 <= j < |falling| && falling[j] == 1;
    assert i != j;
  }

  // Lifting two fingers together is a run the strict protocol excludes.
  lemma TwoReleasesBreakProtocol()
    ensures !LegalRun([], Trace(TWO_FINGERS + BOTH_LIFTED))
  {
    var before, evs := BothUp();
    TwoFall(LastFrame(before), Panel(evs));
    RunStrict(evs);
  }
}
