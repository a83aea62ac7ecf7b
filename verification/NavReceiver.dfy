// The CarPlay maneuver receiver as it runs (nav.cpp): the fixed burst buffer, the head
// selection, the change detection and the reset request.
module NavReceiver {
  import opened Machine
  import opened Glyphs
  import opened NavWindow
  import opened CarplaySender

  // Never equal to a classified maneuver.
  const NEVER_EMITTED := Shown(Maneuver(0xFFFF_FFFF, 0xFFFF_FFFF, 0x7FFF_FFFF, 0x7FFF_FFFF), [])

  const NO_INDEX: nat := 0xFFFF_FFFF

  // --- selection ---------------------------------------------------------------------

  lemma {:induction false} FindIndexFrom(es: seq<Entry>, k: nat, idx: nat)
    requires k <= |es| && forall i :: 0 <= i < k ==> es[i].idx != idx
    ensures FindIndex(es, idx) == FindIndex(es[k..], idx)
    decreases k
  {
    if k > 0 {
      FindIndexFrom(es[1..], k - 1, idx);
      assert es[1..][k - 1..] == es[k..];
    } else {
      assert es[k..] == es;
    }
  }

  // The first of the buffered entries with this index, or -1.
  method FindFirst(buf: array<Entry>, count: nat, idx: nat) returns (sel: int)
    requires count <= buf.Length
    ensures -1 <= sel < count
    ensures FindIndex(buf[..count], idx) == if sel < 0 then None else Some(buf[sel])
  {
    for i := 0 to count
      invariant forall j :: 0 <= j < i ==> buf[j].idx != idx
    {
      if buf[i].idx == idx {
        FindIndexFrom(buf[..count], i, idx);
        assert buf[..count][i..][0] == buf[i];
        return i;
      }
    }
    FindIndexFrom(buf[..count], count, idx);
    return -1;
  }

  method SelectByHead(buf: array<Entry>, count: nat, head: nat) returns (sel: int)
    requires count <= buf.Length
    ensures -1 <= sel < count
    ensures Find(buf[..count], head) == if sel < 0 then None else Some(buf[sel])
  {
    sel := FindFirst(buf, count, head);
    if sel < 0 {
      sel := FindFirst(buf, count, head + 1);
    }
  }

  // --- entries are classified -----------------------------------------------------------

  predicate Classified(es: seq<Entry>) {
    forall i :: 0 <= i < |es| ==> es[i].m.event < 0x100
  }

  lemma EntryClassified(b: seq<byte>)
    ensures EntryOf(b).m.event < 0x100
  {
    ClassifyRange(U32(b, 0x128), U32(b, 0x340), S16(b, 0x346), U32(b, 0x33C));
  }

  // Reads a displayable maneuver out of its message, short messages included.
  method BuildEntry(b: seq<byte>) returns (e: Entry)
    ensures e == EntryOf(b)
  {
    var road := ReadStr(b, 0x12C, 256);
    var text := ReadStr(b, 0x24, 257);
    var m := Classify(U32(b, 0x128), U32(b, 0x340), S16(b, 0x346), U32(b, 0x33C));
    e := Entry(Index(b), m, road, CopyStr(text, 256));
  }

  // --- the distance readout ---------------------------------------------------------------

  // What a guidance message hands to the distance display: metres times 1000 below a
  // kilometre, else metres as thousandths of a kilometre; nothing outside 1..100000 m.
  function GuidanceDistance(b: seq<byte>): seq<(int32, uint32)> {
    var metres := ToInt32(U32(b, 0x34C));
    if !IsGuidance(b) || |b| < 0x350 || metres <= 0 || metres > 100000 then []
    else if metres < 1000 then [(metres * 1000, 1)]
    else [(metres, 3)]
  }

  // The HUD then shows metres exactly, and kilometres cut to one decimal, far below the
  // 16 bits of its distance field.
  lemma GuidanceDistanceShown(b: seq<byte>)
    requires GuidanceDistance(b) != []
    ensures var (value, unit) := GuidanceDistance(b)[0];
            var metres := ToInt32(U32(b, 0x34C));
            && 0 < CDiv(value, 100) < 0x1_0000
            && (metres < 1000 ==> DistanceUnit(unit) == 1 && CDiv(value, 100) == 10 * metres)
            && (metres >= 1000 ==>
                  DistanceUnit(unit) == 3 && 100 * CDiv(value, 100) <= metres < 100 * CDiv(value, 100) + 100)
  {
  }

  // --- the receiver ------------------------------------------------------------------------

  // The sentinel form of an optional selection.
  function Emitted(latest: Option<Shown>): Shown {
    if latest.Some? then latest.value else NEVER_EMITTED
  }

  class NavState {
    const buf: array<Entry>
    var bufCount: nat
    var prevIdx: nat
    var lastHead: nat
    var lastHeadValid: bool
    var emit: Shown
    var resetReq: bool
    // the messages accepted, and the maneuvers and distances delivered so far
    ghost var arrivals: seq<Arrival>
    ghost var delivered: seq<Shown>
    ghost var distances: seq<(int32, uint32)>

    // The fields hold this view.
    ghost predicate Holds(v: View)
      reads this`bufCount, this`prevIdx, this`lastHead, this`lastHeadValid, this`emit, buf
    {
      && buf.Length == MAX_BURST && bufCount <= MAX_BURST
      && buf[..bufCount] == v.window && Classified(v.window)
      && prevIdx == (if v.prev.Some? then v.prev.value else NO_INDEX)
      && (v.prev.Some? ==> v.prev.value < 0x1_0000)
      && lastHeadValid == v.head.Some? && (lastHeadValid ==> lastHead == v.head.value)
      && emit == Emitted(v.latest) && (v.latest.Some? ==> v.latest.value.m.event < 0x100)
    }

    ghost predicate Valid()
      reads this, buf
    {
      Holds(ViewOf(arrivals)) && delivered == Delivered(arrivals)
    }

    constructor ()
      ensures Valid() && fresh(buf) && arrivals == [] && !resetReq
    {
      buf := new Entry[MAX_BURST];
      bufCount, prevIdx, lastHead, lastHeadValid := 0, NO_INDEX, 0, false;
      emit, resetReq := NEVER_EMITTED, false;
      arrivals, delivered, distances := [], [], [];
    }

    // From the sender thread, when it wiped the HUD.
    method RequestReset()
      modifies this`resetReq
      ensures resetReq
    {
      resetReq := true;
    }

    method ClearState(ghost v: View)
      requires Holds(v)
      modifies this`bufCount, this`prevIdx, this`lastHead, this`lastHeadValid, this`emit
      ensures Holds(CLEARED)
    {
      bufCount, lastHeadValid, lastHead, prevIdx := 0, false, 0, NO_INDEX;
      emit := NEVER_EMITTED;
    }

    // Deliver the selected entry, unless it is what was emitted last.
    method EmitSelection(e: Entry, ghost v: View)
      requires Holds(v) && e.m.event < 0x100
      modifies this`emit, this`delivered
      ensures Holds(v.(latest := Some(ShownOf(e))))
      ensures delivered == old(delivered) + (if v.latest == Some(ShownOf(e)) then [] else [ShownOf(e)])
    {
      var shown := ShownOf(e);
      if shown != emit {
        emit := shown;
        delivered := delivered + [shown];
      }
    }

    method OnIndex(idx: nat, ghost v: View)
      requires Holds(v) && idx < 0x1_0000
      modifies this`bufCount, this`prevIdx
      ensures Holds(Restarted(v, idx))
    {
      var burstStart := idx == 0 || idx < prevIdx;
      prevIdx := idx;
      if burstStart {
        bufCount := 0;
      }
    }

    method Append(e: Entry, ghost v: View)
      requires Holds(v) && bufCount < MAX_BURST && e.m.event < 0x100
      modifies this`bufCount, buf
      ensures Holds(v.(window := v.window + [e]))
    {
      buf[bufCount] := e;
      bufCount := bufCount + 1;
      assert buf[..bufCount] == old(buf[..bufCount]) + [e];
    }

    method RepaintKnownHead(ghost v: View)
      requires Holds(v)
      modifies this`emit, this`delivered
      ensures Holds(Repaint(v).0) && delivered == old(delivered) + Change(v.latest, Repaint(v).1)
    {
      if lastHeadValid {
        var sel := SelectByHead(buf, bufCount, lastHead);
        if sel >= 0 {
          assert v.window[sel].m.event < 0x100;
          EmitSelection(buf[sel], v);
        }
      }
    }

    method OnManeuver(b: seq<byte>, ghost v: View)
      requires Holds(v) && IsManeuver(b)
      modifies this`bufCount, this`prevIdx, this`emit, this`delivered, buf
      ensures Holds(StepManeuver(v, b).0)
      ensures delivered == old(delivered) + Change(v.latest, StepManeuver(v, b).1)
    {
      var idx := Index(b);
      OnIndex(idx, v);
      ghost var v1 := Restarted(v, idx);
      if idx == 0 || IsContext(U32(b, 0x128)) {
        return;
      }
      if bufCount >= MAX_BURST {
        return;
      }
      EntryClassified(b);
      var e := BuildEntry(b);
      Append(e, v1);
      RepaintKnownHead(v1.(window := v1.window + [e]));
    }

    method OnHead(b: seq<byte>, ghost v: View)
      requires Holds(v) && IsGuidance(b)
      modifies this`lastHead, this`lastHeadValid, this`emit, this`delivered
      ensures Holds(StepGuidance(v, b).0)
      ensures delivered == old(delivered) + Change(v.latest, StepGuidance(v, b).1)
    {
      var cnt := U16(b, 0x656);
      if cnt > 0 {
        var head := U16(b, 0x458);
        var sel := SelectByHead(buf, bufCount, head);
        if sel >= 0 {
          lastHead := head;
          lastHeadValid := true;
          assert v.window[sel].m.event < 0x100;
          EmitSelection(buf[sel], v.(head := Some(head)));
        }
      }
    }

    method OnDistance(b: seq<byte>)
      requires IsGuidance(b)
      modifies this`distances
      ensures distances == old(distances) + GuidanceDistance(b)
    {
      if |b| >= 0x350 {
        var metres := ToInt32(U32(b, 0x34C));
        if 0 < metres <= 100000 {
          distances := distances + [if metres < 1000 then (metres * 1000, 1) else (metres, 3)];
        }
      }
    }

    method Dispatch(b: seq<byte>, ghost v: View)
      requires Holds(v)
      modifies this`bufCount, this`prevIdx, this`lastHead, this`lastHeadValid, this`emit,
               this`delivered, this`distances, buf
      ensures Holds(Step(v, b).0)
      ensures delivered == old(delivered) + Change(v.latest, Step(v, b).1)
      ensures distances == old(distances) + GuidanceDistance(b)
    {
      if IsManeuver(b) {
        OnManeuver(b, v);
      } else if IsGuidance(b) {
        OnHead(b, v);
        OnDistance(b);
      }
    }

    // One message from the device manager.
    method NavOnDevmgrMsg(b: seq<byte>)
      requires Valid()
      modifies this, buf
      ensures Valid()
      ensures |b| < MIN_LENGTH ==>
        arrivals == old(arrivals) && resetReq == old(resetReq) && distances == old(distances)
      ensures |b| >= MIN_LENGTH ==> arrivals == old(arrivals) + [Arrival(old(resetReq), b)] && !resetReq
      ensures |b| >= MIN_LENGTH ==> distances == old(distances) + GuidanceDistance(b)
    {
      if |b| < MIN_LENGTH {
        return;
      }
      ghost var a, h, v := Arrival(resetReq, b), arrivals, ViewOf(arrivals);
      NextArrival(h, a, v);
      TakeReset(v);
      Dispatch(b, Entered(v, a.reset));
      arrivals := h + [a];
    }

    // A pending reset is taken on the thread that owns the state.
    method TakeReset(ghost v: View)
      requires Holds(v)
      modifies this`resetReq, this`bufCount, this`prevIdx, this`lastHead, this`lastHeadValid, this`emit
      ensures Holds(Entered(v, old(resetReq))) && !resetReq
    {
      if resetReq {
        resetReq := false;
        ClearState(v);
      }
    }
  }

  // What a selection adds to the deliveries.
  function Change(latest: Option<Shown>, sel: Option<Shown>): seq<Shown> {
    if sel.Some? && sel != latest then [sel.value] else []
  }

  lemma NextArrival(h: seq<Arrival>, a: Arrival, v: View)
    requires v == ViewOf(h)
    ensures ViewOf(h + [a]) == Step(Entered(v, a.reset), a.b).0
    ensures Delivered(h + [a])
         == Delivered(h) + Change(Entered(v, a.reset).latest, Step(Entered(v, a.reset), a.b).1)
  {
    StepHistory(h, a);
    assert Init(h + [a]) == h && Last(h + [a]) == a;
  }
}
