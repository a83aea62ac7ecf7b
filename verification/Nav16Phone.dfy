// From the phone's frames to the cluster (hud_nav16.cpp, hud.cpp, vbs_tx.cpp): dispatch on
// the message id, decoding, accumulation and display, end to end.
module Nav16Phone {
  import opened Machine
  import opened Wire
  import opened VbsTx
  import opened Nav16Feed
  import Nav16
  import Nav16Reader
  import Nav16RoundTrip

  const CLUSTER_STOP: nat := 0x8002
  const STATUS: nat := 0x8003
  const NAV_STATE: nat := 0x8006
  const POSITION: nat := 0x8007

  // The big-endian message id in front of the body.
  function MessageId(frame: seq<byte>): nat
    requires |frame| >= 2
  {
    (frame[0] as int) * 0x100 + frame[1]
  }

  // The callback a frame leads to; other messages lead to none.
  function EventOf(frame: seq<byte>): Option<Event> {
    if |frame| < 2 then None
    else if MessageId(frame) == NAV_STATE then Some(OnGuidance(Nav16.DecodeNavState(frame[2..])))
    else if MessageId(frame) == POSITION then Some(OnPosition(Nav16.DecodePosition(frame[2..])))
    else if MessageId(frame) == STATUS then Some(OnStatus(false, Nav16.FirstStatus(Records(frame[2..]))))
    else if MessageId(frame) == CLUSTER_STOP then Some(OnStatus(true, -1))
    else None
  }

  method HudNav16Feed(frame: seq<byte>, feed: Nav16FeedState, up: Taken)
    modifies feed
    ensures feed.View() == match EventOf(frame)
                           case None => old(feed.View())
                           case Some(e) => Next(feed.foldLatin, old(feed.View()), e, up)
    ensures feed.writes == old(feed.writes)
                           + match EventOf(frame)
                             case None => []
                             case Some(e) => NextWrites(feed.foldLatin, old(feed.View()), e, up)
  {
    if |frame| < 2 {
      return;
    }
    var id := MessageId(frame);
    if id == NAV_STATE {
      var g := Nav16Reader.HudNav16DecodeNavstate(frame[2..]);
      feed.OnGuidanceFrame(g, up);
    } else if id == POSITION {
      var p := Nav16Reader.HudNav16DecodePosition(frame[2..]);
      feed.OnPositionFrame(p, up);
    } else if id == STATUS {
      var _, status := Nav16Reader.HudNav16ReadStatus(frame[2..]);
      feed.OnStatusFrame(false, status, up);
    } else if id == CLUSTER_STOP {
      feed.OnStatusFrame(true, -1, up);
    }
  }

  // A change gate that remembers what the transport holds.
  predicate Tracking(f: Feed) {
    f.last.Some? ==> f.snapshot == Encoded(f.last.value)
  }

  lemma EventOfNavState(steps: seq<Nav16.StepMsg>, tree: seq<Node>, frame: seq<byte>)
    requires AllOk(tree) && Strip(Nav16.NAV_STATE, tree) == Nav16.NavTree(steps)
    requires frame == [0x80, 0x06] + Encode(tree)
    ensures EventOf(frame) == Some(OnGuidance(Nav16.Normalise(steps)))
  {
    Nav16RoundTrip.NavStateRoundTrip(steps, tree, frame[2..]);
  }

  // A navigation state sent by the phone, with any unknown fields mixed in, leaves the
  // transport holding the first step's glyph, its road as the font can draw it and the
  // codes of its first eight lanes; the held distance survives only if neither glyph nor
  // road changed.
  lemma NavStateReachesSnapshot(foldLatin: bool, f: Feed, steps: seq<Nav16.StepMsg>, tree: seq<Node>)
    requires AllOk(tree) && Strip(Nav16.NAV_STATE, tree) == Nav16.NavTree(steps)
    requires Tracking(f)
    ensures EventOf([0x80, 0x06] + Encode(tree)).Some?
    ensures var f' := Next(foldLatin, f, EventOf([0x80, 0x06] + Encode(tree)).value, ALL);
            var g := Nav16.Normalise(steps);
            var glyph, road := Clamped(GlyphOf(g)), RoadOf(foldLatin, g.road);
            && Tracking(f')
            && f'.snapshot == Encoded(Absorb(f.acc, glyph, road, FirstLanes(g.lanes)))
  {
    EventOfNavState(steps, tree, [0x80, 0x06] + Encode(tree));
  }

  // And a sender in step, whatever copies it took meanwhile, shows exactly that on the
  // cluster once it has taken the copy after the last write.
  lemma NavStateReachesCluster(foldLatin: bool, f: Feed, steps: seq<Nav16.StepMsg>, tree: seq<Node>,
                               st: Sender, meanwhile: seq<Snapshot>)
    requires AllOk(tree) && Strip(Nav16.NAV_STATE, tree) == Nav16.NavTree(steps)
    requires Tracking(f) && Synchronised(st)
    ensures EventOf([0x80, 0x06] + Encode(tree)).Some?
    ensures var f' := Next(foldLatin, f, EventOf([0x80, 0x06] + Encode(tree)).value, ALL);
            var st' := Process(ProcessAll(st, meanwhile), f'.snapshot);
            var g := Nav16.Normalise(steps);
            && Synchronised(st')
            && Seen(st'.cluster).icon == Clamped(GlyphOf(g))
            && Seen(st'.cluster).lanes == WireLanes(LaneCodes(FirstLanes(g.lanes)))
            && Seen(st'.cluster).text == CopyStr(RoadOf(foldLatin, g.road), ROAD_CAP)
  {
    NavStateReachesSnapshot(foldLatin, f, steps, tree);
    var f' := Next(foldLatin, f, EventOf([0x80, 0x06] + Encode(tree)).value, ALL);
    DisplayRefinement(st, meanwhile);
    var before := ProcessAll(st, meanwhile);
    DiffShows(before.cluster, f'.snapshot, before.prev, before.sync);
  }

  lemma EventOfPosition(p: Nav16.PositionMsg, tree: seq<Node>, frame: seq<byte>)
    requires AllOk(tree) && Strip(Nav16.POSITION, tree) == Nav16.PositionTree(p)
    requires frame == [0x80, 0x07] + Encode(tree)
    ensures EventOf(frame) == Some(OnPosition(Nav16.NormalisePosition(p)))
  {
    Nav16RoundTrip.PositionRoundTrip(p, tree, frame[2..]);
  }

  // A position that carries a step distance puts that distance, parsed and quantised, on
  // the cluster in the unit the HUD knows it by; one without changes nothing.
  lemma PositionReachesCluster(foldLatin: bool, f: Feed, p: Nav16.PositionMsg, tree: seq<Node>,
                               st: Sender, meanwhile: seq<Snapshot>)
    requires AllOk(tree) && Strip(Nav16.POSITION, tree) == Nav16.PositionTree(p)
    requires Tracking(f) && Synchronised(st)
    ensures EventOf([0x80, 0x07] + Encode(tree)).Some?
    ensures var f' := Next(foldLatin, f, EventOf([0x80, 0x07] + Encode(tree)).value, ALL);
            var st' := Process(ProcessAll(st, meanwhile), f'.snapshot);
            var x := Nav16.NormalisePosition(p);
            && Tracking(f') && Synchronised(st')
            && (x.haveStep ==>
                  && Seen(st'.cluster).distance == ShownDistance(x).0 % 0x1_0000
                  && Seen(st'.cluster).unit == ShownDistance(x).1)
            && (!x.haveStep ==> f' == f)
  {
    EventOfPosition(p, tree, [0x80, 0x07] + Encode(tree));
    var f' := Next(foldLatin, f, EventOf([0x80, 0x07] + Encode(tree)).value, ALL);
    DisplayRefinement(st, meanwhile);
    var before := ProcessAll(st, meanwhile);
    DiffShows(before.cluster, f'.snapshot, before.prev, before.sync);
  }
}
