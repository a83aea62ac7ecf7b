// The svcjcinavi transport as it runs (svcnavi_tx.cpp): the same snapshot and producers as
// the VBS transport, but every fresh snapshot is signalled, without a diff.
module SvcnaviSender {
  import opened Machine
  import opened Lanes
  import opened VbsTx
  import Merge
  import Nav16
  import Nav16Feed
  import Nav16RoundTrip

  // The GuidanceChangedForHUD signal.
  datatype Signal = Signal(icon: uint32, distance: int32, unit: byte, street: seq<byte>,
                           speedLimit: uint16, speedUnit: byte, lanes: LaneBytes)

  function SignalOf(s: Snapshot): Signal {
    Signal(s.icon, s.distance, s.unit, s.road, Merge.SENTINEL, 0, s.lanes)
  }

  class SvcnaviTxState {
    var lastProcessed: uint32
    ghost var sent: seq<Signal>

    constructor ()
      ensures lastProcessed == 0 && sent == []
    {
      lastProcessed, sent := 0, [];
    }

    method EmitGuidance(icon: uint32, distance: int32, unit: byte, street: seq<byte>, lanes: Option<LaneBytes>)
      modifies this`sent
      ensures sent == old(sent) + [Signal(icon, distance, unit, street, Merge.SENTINEL, 0,
                                          if lanes.Some? then lanes.value else NO_LANES)]
    {
      sent := sent + [Signal(icon, distance, unit, street, Merge.SENTINEL, 0,
                             if lanes.Some? then lanes.value else NO_LANES)];
    }

    // One turn of the sender loop, with the snapshot and counter it accepted.
    method SenderTurn(snap: Snapshot, s2: uint32)
      modifies this`lastProcessed, this`sent
      ensures lastProcessed == s2
      ensures sent == old(sent) + (if s2 != old(lastProcessed) then [SignalOf(snap)] else [])
    {
      if s2 != lastProcessed {
        EmitGuidance(snap.icon, snap.distance, snap.unit, snap.road, Some(snap.lanes));
        lastProcessed := s2;
      }
    }

    // The blanking signal of a sender that winds down.
    method SenderTeardown()
      modifies this`sent
      ensures sent == old(sent) + [SignalOf(BLANK)]
    {
      EmitGuidance(0, 0, 0, [], None);
    }
  }

  lemma CodeKept(lanes: seq<AaLane>, i: nat)
    requires i < MAX_LANES && CodeAt(lanes, i) <= 0x46
    ensures Nav16Feed.LaneCodes(lanes)[i] == CodeAt(lanes, i)
  {
  }

  // The receiving service accepts lane arguments from 0 to 0x46 only. Whatever bytes the
  // phone sent, the lanes decoded from them are signalled within that range, unchanged by
  // the cast to a byte.
  lemma SignalledLanesAccepted(body: seq<byte>, lanes: seq<AaLane>, i: nat)
    requires i < MAX_LANES && lanes == Nav16.DecodeNavState(body).lanes
    ensures CodeAt(lanes, i) <= 0x46 && Nav16Feed.LaneCodes(lanes)[i] == CodeAt(lanes, i)
    ensures Nav16Feed.FirstLanes(lanes) == lanes
  {
    Nav16RoundTrip.DecodedLaneCodes(body, i);
    CodeKept(lanes, i);
  }
}
