// The VBS transport as it runs (vbs_tx.cpp): the producers' writes, the sender's turn and
// the frames it queues.
module VbsSender {
  import opened Machine
  import opened Lanes
  import opened Seqlock
  import opened VbsTx

  // What the navigation callbacks report; a null road or lane pointer is None.
  datatype Event =
    | Status(status: uint32)
    | NextTurn(road: Option<seq<byte>>, icon: uint32)
    | Distance(value: int32, unit: byte)
    | LaneGuidance(lanes: Option<LaneBytes>)

  const ROAD_CAP: nat := 64

  const STATUS_START: uint32 := 1

  // Only a start status writes nothing.
  predicate Writes(e: Event) {
    e.Status? ==> e.status != STATUS_START
  }

  function Apply(s: Snapshot, e: Event): Snapshot {
    match e
    case Status(status) => if status != STATUS_START then BLANK else s
    case NextTurn(road, icon) => s.(road := if road.Some? then CopyStr(road.value, ROAD_CAP) else [], icon := icon)
    case Distance(value, unit) => s.(distance := value, unit := unit)
    case LaneGuidance(lanes) => s.(lanes := if lanes.Some? then lanes.value else NO_LANES)
  }

  // Every status but the start one (1) blanks the snapshot; the other calls leave each
  // other's parts alone.
  lemma WritesKeepParts(s: Snapshot, status: uint32, road: seq<byte>, icon: uint32, value: int32, unit: byte,
                        lanes: LaneBytes)
    requires 0 !in road && |road| < 64
    ensures Apply(s, Status(status)) == if status == 1 then s else Snapshot([], 0, 0, 0, NO_LANES)
    ensures Apply(s, NextTurn(Some(road), icon)) == Snapshot(road, icon, s.distance, s.unit, s.lanes)
    ensures Apply(s, Distance(value, unit)) == Snapshot(s.road, s.icon, value, unit, s.lanes)
    ensures Apply(s, LaneGuidance(Some(lanes))) == Snapshot(s.road, s.icon, s.distance, s.unit, lanes)
  {
  }

  // Every call is accepted.
  const EVERYTHING := Arrival(true, true, true)

  method AnyVisible(codes: LaneBytes) returns (visible: bool)
    ensures visible == Visible(codes)
  {
    visible := false;
    for i := 0 to |codes|
      invariant visible == Visible(codes[..i])
    {
      assert codes[..i + 1] == codes[..i] + [codes[i]];
      if codes[i] != 0 {
        assert codes[..i + 1][i] != 0;
        visible := true;
        assert codes[i] == codes[..|codes|][i];
        return;
      }
    }
    assert codes[..|codes|] == codes;
  }

  method EncodeWire(codes: LaneBytes) returns (wire: seq<byte>)
    ensures wire == WireLanes(codes)
  {
    wire := [];
    for i := 0 to |codes|
      invariant wire == WireLanes(codes[..i])
    {
      assert Init(codes[..i + 1]) == codes[..i];
      var code := codes[i];
      wire := wire + [if code == 0 then LANE_HIDDEN else GlyphA(code) % 0x100];
    }
    assert codes[..|codes|] == codes;
  }

  class VbsTxState {
    // shared between the threads
    var snapshot: Snapshot
    var gSeq: uint32
    var active: bool
    var hudAbsent: bool
    // the sender's own
    var prev: Snapshot
    var syncBit: byte
    var lastProcessed: uint32
    // everything queued to the cluster so far
    ghost var sent: seq<Frame>

    ghost function Cluster(): Cluster
      reads this
    {
      ShowAll(DARK, sent)
    }

    // What the sender knows: the cluster shows `prev`, in step.
    ghost predicate Valid()
      reads this
    {
      Synchronised(Sender(prev, syncBit, Cluster()))
    }

    constructor ()
      ensures Valid() && snapshot == BLANK && gSeq == 0 && !active && !hudAbsent
      ensures prev == BLANK && syncBit == 0 && lastProcessed == 0 && sent == []
    {
      snapshot, gSeq, active, hudAbsent := BLANK, 0, false, false;
      prev, syncBit, lastProcessed, sent := BLANK, 0, 0, [];
      new;
      FirstSynchronised();
    }

    method SeqlockBegin()
      modifies this`gSeq
      ensures gSeq == Wrap(old(gSeq) + 1)
    {
      gSeq := (gSeq + 1) % 0x1_0000_0000;
    }

    method SeqlockEnd()
      modifies this`gSeq
      ensures gSeq == Wrap(old(gSeq) + 1)
    {
      gSeq := (gSeq + 1) % 0x1_0000_0000;
    }

    // An event is one write between two increments, or nothing while the sender is down.
    method OnStatus(status: uint32)
      modifies this`snapshot, this`gSeq
      ensures var e := Event.Status(status);
              if active && Writes(e) then snapshot == Apply(old(snapshot), e) && gSeq == Wrap(old(gSeq) + 2)
              else snapshot == old(snapshot) && gSeq == old(gSeq)
    {
      if !active {
        return;
      }
      if status != STATUS_START {
        SeqlockBegin();
        snapshot := BLANK;
        SeqlockEnd();
      }
    }

    method OnNextTurn(road: Option<seq<byte>>, icon: uint32)
      modifies this`snapshot, this`gSeq
      ensures if active then snapshot == Apply(old(snapshot), NextTurn(road, icon)) && gSeq == Wrap(old(gSeq) + 2)
              else snapshot == old(snapshot) && gSeq == old(gSeq)
    {
      if !active {
        return;
      }
      SeqlockBegin();
      if road.Some? {
        snapshot := snapshot.(road := CopyStr(road.value, ROAD_CAP));
      } else {
        snapshot := snapshot.(road := []);
      }
      snapshot := snapshot.(icon := icon);
      SeqlockEnd();
    }

    method OnDistance(value: int32, unit: byte)
      modifies this`snapshot, this`gSeq
      ensures if active then snapshot == Apply(old(snapshot), Distance(value, unit)) && gSeq == Wrap(old(gSeq) + 2)
              else snapshot == old(snapshot) && gSeq == old(gSeq)
    {
      if !active {
        return;
      }
      SeqlockBegin();
      snapshot := snapshot.(distance := value);
      snapshot := snapshot.(unit := unit);
      SeqlockEnd();
    }

    method OnLanes(lanes: Option<LaneBytes>)
      modifies this`snapshot, this`gSeq
      ensures if active then snapshot == Apply(old(snapshot), LaneGuidance(lanes)) && gSeq == Wrap(old(gSeq) + 2)
              else snapshot == old(snapshot) && gSeq == old(gSeq)
    {
      if !active {
        return;
      }
      SeqlockBegin();
      if lanes.Some? {
        snapshot := snapshot.(lanes := lanes.value);
      } else {
        snapshot := snapshot.(lanes := NO_LANES);
      }
      SeqlockEnd();
    }

    // Sends what changed between `prev` and `cur`.
    method SendOne(cur: Snapshot)
      modifies this`syncBit, this`sent
      ensures if hudAbsent then syncBit == old(syncBit) && sent == old(sent)
              else syncBit == NextSync(cur, prev, old(syncBit))
                   && sent == old(sent) + DiffFrames(cur, prev, old(syncBit))
    {
      if hudAbsent {
        return;
      }
      var eventChanged := cur.road != prev.road || cur.icon != prev.icon;
      var distanceChanged := eventChanged || cur.distance != prev.distance || cur.unit != prev.unit;
      var lanesChanged := cur.lanes != prev.lanes;
      if !eventChanged && !distanceChanged && !lanesChanged {
        return;
      }
      var sendStreet := eventChanged || lanesChanged;
      var sendDisplay := distanceChanged || sendStreet;
      var visible := AnyVisible(cur.lanes);
      var sendLanes := lanesChanged || (sendStreet && visible);
      if sendStreet {
        syncBit := syncBit % 7 + 1;
      }
      if sendDisplay {
        sent := sent + [DisplayOf(cur, syncBit)];
      }
      if sendStreet {
        sent := sent + [StreetOf(cur, syncBit)];
      }
      if sendLanes {
        var wire := EncodeWire(cur.lanes);
        sent := sent + [SetLanes(wire)];
      }
    }

    // One turn of the sender loop, with the snapshot and counter it accepted. With the HUD
    // present a cluster in step then shows what a full redraw of that snapshot would show;
    // with the HUD absent the snapshot is only taken over.
    method SenderTurn(snap: Snapshot, s2: uint32)
      modifies this`prev, this`syncBit, this`lastProcessed, this`sent
      ensures lastProcessed == s2
      ensures s2 == old(lastProcessed) ==> prev == old(prev) && sent == old(sent) && syncBit == old(syncBit)
      ensures s2 != old(lastProcessed) ==>
        Sender(prev, syncBit, Cluster())
        == TakeTurn(old(Sender(prev, syncBit, Cluster())), Turn(snap, hudAbsent, EVERYTHING))
      ensures old(Valid()) && (s2 == old(lastProcessed) || !hudAbsent) ==> Valid()
      ensures old(Valid()) && s2 != old(lastProcessed) && !hudAbsent ==> Seen(Cluster()) == ViewOf(snap)
    {
      if s2 != lastProcessed {
        AllArrive(Cluster(), DiffFrames(snap, prev, syncBit));
        ShowAllConcat(DARK, sent, DiffFrames(snap, prev, syncBit));
        if Valid() {
          DiffShows(Cluster(), snap, prev, syncBit);
        }
        SendOne(snap);
        prev := snap;
        lastProcessed := s2;
      }
    }

    // The clear frames of a sender that winds down: the maneuver and the lanes go, the
    // street strip is left to fade.
    method SenderTeardown()
      modifies this`sent
      ensures hudAbsent ==> sent == old(sent)
      ensures !hudAbsent ==>
        Seen(Cluster()) == ViewOf(BLANK).(text := old(Seen(Cluster()).text))
    {
      if !hudAbsent {
        ghost var clear, hidden := DisplayOf(BLANK, 0), SetLanes(DARK.lanes);
        ShowAllConcat(DARK, sent, [clear, hidden]);
        ShowTwo(Cluster(), clear, hidden);
        sent := sent + [clear, hidden];
        FirstSynchronised();
      }
    }
  }
}
