// The VBS transport (vbs_tx.cpp): producers write a snapshot, a sender turns the
// difference to the previous snapshot into HUD frames, and the cluster shows frames.
module VbsTx {
  import opened Machine
  import opened Lanes

  type LaneBytes = s: seq<byte> | |s| == 8 witness [0, 0, 0, 0, 0, 0, 0, 0]

  const NO_LANES: LaneBytes := [0, 0, 0, 0, 0, 0, 0, 0]

  datatype Snapshot = Snapshot(road: seq<byte>, icon: uint32, distance: int32, unit: byte, lanes: LaneBytes)

  const BLANK := Snapshot([], 0, 0, 0, NO_LANES)

  datatype Display = Display(icon: uint32, distance: uint16, unit: byte,
                             speedLimit: uint16, speedUnit: byte, sync: byte)

  datatype Street = Street(text: seq<byte>, sync: byte)

  datatype Frame = SetDisplay(d: Display) | SetStreet(s: Street) | SetLanes(glyphs: seq<byte>)

  // ---------------------------------------------------------------------------
  // The cluster
  // ---------------------------------------------------------------------------

  // What each frame type set last, and whether the lane array belongs to the current
  // sync generation: a frame with another sync value starts a new one.
  datatype Cluster = Cluster(display: Display, street: Street, lanes: seq<byte>, sync: byte, lanesCurrent: bool)

  const LANE_HIDDEN: byte := 0xFF

  const DARK := Cluster(Display(0, 0, 0, 0, 0, 0), Street([], 0),
                        [0xFF, 0xFF, 0xFF, 0xFF, 0xFF, 0xFF, 0xFF, 0xFF], 0, true)

  function Show(c: Cluster, f: Frame): Cluster {
    match f
    case SetDisplay(d) => c.(display := d, sync := d.sync, lanesCurrent := c.lanesCurrent && d.sync == c.sync)
    case SetStreet(m) => c.(street := m, sync := m.sync, lanesCurrent := c.lanesCurrent && m.sync == c.sync)
    case SetLanes(glyphs) => c.(lanes := glyphs, lanesCurrent := true)
  }

  function ShowAll(c: Cluster, frames: seq<Frame>): Cluster {
    if frames == [] then c else Show(ShowAll(c, Init(frames)), Last(frames))
  }

  lemma {:induction false} ShowAllConcat(c: Cluster, xs: seq<Frame>, ys: seq<Frame>)
    ensures ShowAll(c, xs + ys) == ShowAll(ShowAll(c, xs), ys)
    decreases |ys|
  {
    if ys == [] {
      assert xs + ys == xs;
    } else {
      assert Init(xs + ys) == xs + Init(ys);
      ShowAllConcat(c, xs, Init(ys));
    }
  }

  // What the driver sees.
  datatype View = View(icon: uint32, distance: uint16, unit: byte, speedLimit: uint16, speedUnit: byte,
                       text: seq<byte>, lanes: seq<byte>)

  function Seen(c: Cluster): View {
    View(c.display.icon, c.display.distance, c.display.unit, c.display.speedLimit, c.display.speedUnit,
         c.street.text, c.lanes)
  }

  // An empty slot is hidden, any other code is drawn with its glyph.
  function WireLane(code: byte): byte {
    if code == 0 then LANE_HIDDEN else GlyphA(code) % 0x100
  }

  function WireLanes(codes: seq<byte>): (r: seq<byte>)
    ensures |r| == |codes|
  {
    if codes == [] then [] else WireLanes(Init(codes)) + [WireLane(Last(codes))]
  }

  function ViewOf(s: Snapshot): View {
    View(s.icon, s.distance % 0x1_0000, s.unit, 0, 0, s.road, WireLanes(s.lanes))
  }

  predicate Visible(codes: seq<byte>) {
    exists i :: 0 <= i < |codes| && codes[i] != 0
  }

  // The maneuver and street frames carry the same sync, and visible lanes were sent in
  // the generation it names.
  predicate InStep(c: Cluster, sync: byte, lanes: seq<byte>) {
    && c.display.sync == c.street.sync == c.sync == sync
    && (Visible(lanes) ==> c.lanesCurrent)
  }

  // ---------------------------------------------------------------------------
  // The diff
  // ---------------------------------------------------------------------------

  function Bump(sync: byte): byte {
    sync % 7 + 1
  }

  // Every bump is a change the cluster can see, one place on in the cycle 1..7.
  lemma BumpAdvances(sync: byte)
    ensures 1 <= Bump(sync) <= 7 && Bump(sync) != sync
    ensures 1 <= sync <= 7 ==> Bump(sync) == if sync == 7 then 1 else sync + 1
  {
  }

  // A new road, glyph or lane array starts a new sync generation.
  predicate NewInstance(cur: Snapshot, prev: Snapshot) {
    cur.road != prev.road || cur.icon != prev.icon || cur.lanes != prev.lanes
  }

  function NextSync(cur: Snapshot, prev: Snapshot, sync: byte): byte {
    if NewInstance(cur, prev) then Bump(sync) else sync
  }

  function DisplayOf(s: Snapshot, sync: byte): Frame {
    SetDisplay(Display(s.icon, s.distance % 0x1_0000, s.unit, 0, 0, sync))
  }

  function StreetOf(s: Snapshot, sync: byte): Frame {
    SetStreet(Street(s.road, sync))
  }

  function LaneFrames(cur: Snapshot, prev: Snapshot): seq<Frame> {
    if cur.lanes != prev.lanes || Visible(cur.lanes) then [SetLanes(WireLanes(cur.lanes))] else []
  }

  // The frames that take the cluster from `prev` to `cur`.
  function DiffFrames(cur: Snapshot, prev: Snapshot, sync: byte): seq<Frame> {
    if cur == prev then []
    else if !NewInstance(cur, prev) then [DisplayOf(cur, sync)]
    else [DisplayOf(cur, Bump(sync)), StreetOf(cur, Bump(sync))] + LaneFrames(cur, prev)
  }

  // A full redraw, whatever was shown before.
  function Redraw(cur: Snapshot, sync: byte): seq<Frame> {
    [DisplayOf(cur, sync), StreetOf(cur, sync), SetLanes(WireLanes(cur.lanes))]
  }

  lemma ShowTwo(c: Cluster, f: Frame, g: Frame)
    ensures ShowAll(c, [f]) == Show(c, f)
    ensures ShowAll(c, [f, g]) == Show(Show(c, f), g)
  {
    assert Init([f]) == [] && Init([f, g]) == [f];
  }

  lemma RedrawShows(c: Cluster, cur: Snapshot, sync: byte)
    ensures var after := ShowAll(c, Redraw(cur, sync));
            InStep(after, sync, cur.lanes) && Seen(after) == ViewOf(cur)
  {
    var two := [DisplayOf(cur, sync), StreetOf(cur, sync)];
    ShowTwo(c, two[0], two[1]);
    assert Init(Redraw(cur, sync)) == two;
  }

  // Display refinement, one step: the differences leave the cluster showing what a full
  // redraw of the current snapshot would show, in step.
  lemma DiffShows(c: Cluster, cur: Snapshot, prev: Snapshot, sync: byte)
    requires InStep(c, sync, prev.lanes) && Seen(c) == ViewOf(prev)
    ensures var after := ShowAll(c, DiffFrames(cur, prev, sync));
            && InStep(after, NextSync(cur, prev, sync), cur.lanes)
            && Seen(after) == ViewOf(cur)
            && Seen(after) == Seen(ShowAll(c, Redraw(cur, NextSync(cur, prev, sync))))
  {
    var next := NextSync(cur, prev, sync);
    RedrawShows(c, cur, next);
    var display, msg2 := DisplayOf(cur, next), StreetOf(cur, next);
    ShowTwo(c, display, msg2);
    if NewInstance(cur, prev) {
      var two := [display, msg2];
      if LaneFrames(cur, prev) == [] {
        assert DiffFrames(cur, prev, sync) == two;
      } else {
        assert Init(DiffFrames(cur, prev, sync)) == two;
      }
    }
  }

  // --- any sequence of snapshots ------------------------------------------------------

  datatype Sender = Sender(prev: Snapshot, sync: byte, cluster: Cluster)

  const FIRST := Sender(BLANK, 0, DARK)

  function Process(st: Sender, cur: Snapshot): Sender {
    Sender(cur, NextSync(cur, st.prev, st.sync), ShowAll(st.cluster, DiffFrames(cur, st.prev, st.sync)))
  }

  function ProcessAll(st: Sender, snaps: seq<Snapshot>): Sender {
    if snaps == [] then st else Process(ProcessAll(st, Init(snaps)), Last(snaps))
  }

  predicate Synchronised(st: Sender) {
    InStep(st.cluster, st.sync, st.prev.lanes) && Seen(st.cluster) == ViewOf(st.prev)
  }

  lemma {:induction false} DisplayRefinement(st: Sender, snaps: seq<Snapshot>)
    requires Synchronised(st)
    ensures Synchronised(ProcessAll(st, snaps))
    ensures snaps != [] ==> ProcessAll(st, snaps).prev == Last(snaps)
  {
    if snaps != [] {
      var before := ProcessAll(st, Init(snaps));
      DisplayRefinement(st, Init(snaps));
      DiffShows(before.cluster, Last(snaps), before.prev, before.sync);
    }
  }

  lemma FirstSynchronised()
    ensures Synchronised(FIRST)
  {
    var codes := NO_LANES;
    assert Init(codes) == [0, 0, 0, 0, 0, 0, 0];
    AllHidden(codes);
  }

  lemma {:induction false} AllHidden(codes: seq<byte>)
    requires !Visible(codes)
    ensures forall i :: 0 <= i < |codes| ==> WireLanes(codes)[i] == LANE_HIDDEN
  {
    if codes != [] {
      assert forall i :: 0 <= i < |codes| ==> codes[i] == 0;
      AllHidden(Init(codes));
    }
  }

  // --- frames that do not arrive --------------------------------------------------------

  // Which frames of one turn reach the cluster. With the HUD absent nothing is even sent.
  datatype Arrival = Arrival(display: bool, street: bool, lanes: bool)

  predicate Arrives(f: Frame, a: Arrival) {
    match f
    case SetDisplay(_) => a.display
    case SetStreet(_) => a.street
    case SetLanes(_) => a.lanes
  }

  function ShowArriving(c: Cluster, frames: seq<Frame>, a: Arrival): Cluster {
    if frames == [] then c
    else
      var before := ShowArriving(c, Init(frames), a);
      if Arrives(Last(frames), a) then Show(before, Last(frames)) else before
  }

  predicate SameDisplay(v: View, w: View) {
    v.icon == w.icon && v.distance == w.distance && v.unit == w.unit
    && v.speedLimit == w.speedLimit && v.speedUnit == w.speedUnit
  }

  lemma ShowSnoc(c: Cluster, fs: seq<Frame>, f: Frame, a: Arrival)
    ensures ShowArriving(c, fs + [f], a)
         == if Arrives(f, a) then Show(ShowArriving(c, fs, a), f) else ShowArriving(c, fs, a)
  {
    assert Init(fs + [f]) == fs && Last(fs + [f]) == f;
  }

  lemma OneArriving(c: Cluster, f: Frame, a: Arrival)
    ensures ShowArriving(c, [f], a) == if Arrives(f, a) then Show(c, f) else c
  {
    assert [] + [f] == [f];
    ShowSnoc(c, [], f, a);
  }

  lemma TwoArriving(c: Cluster, f: Frame, g: Frame, a: Arrival)
    requires f.SetDisplay? && g.SetStreet?
    ensures Seen(ShowArriving(c, [f, g], a))
         == Partial(Seen(c), f.d, if a.street then g.s.text else c.street.text, c.lanes, a.display)
  {
    OneArriving(c, f, a);
    assert [f] + [g] == [f, g];
    ShowSnoc(c, [f], g, a);
  }

  lemma ThreeArriving(c: Cluster, f: Frame, g: Frame, h: Frame, a: Arrival)
    requires f.SetDisplay? && g.SetStreet? && h.SetLanes?
    ensures Seen(ShowArriving(c, [f, g, h], a))
         == Partial(Seen(c), f.d, if a.street then g.s.text else c.street.text,
                    if a.lanes then h.glyphs else c.lanes, a.display)
  {
    TwoArriving(c, f, g, a);
    assert [f, g] + [h] == [f, g, h];
    ShowSnoc(c, [f, g], h, a);
  }

  function Partial(v: View, d: Display, text: seq<byte>, lanes: seq<byte>, shown: bool): View {
    if shown then View(d.icon, d.distance, d.unit, d.speedLimit, d.speedUnit, text, lanes)
    else v.(text := text, lanes := lanes)
  }

  predicate SendsStreet(cur: Snapshot, prev: Snapshot) {
    NewInstance(cur, prev)
  }

  predicate SendsLanes(cur: Snapshot, prev: Snapshot) {
    NewInstance(cur, prev) && (cur.lanes != prev.lanes || Visible(cur.lanes))
  }

  // What a turn leaves on any cluster.
  lemma ArrivingTurn(c: Cluster, cur: Snapshot, prev: Snapshot, sync: byte, a: Arrival)
    ensures Seen(ShowArriving(c, DiffFrames(cur, prev, sync), a))
         == Partial(Seen(c), DisplayOf(cur, sync).d,
                    if a.street && SendsStreet(cur, prev) then cur.road else c.street.text,
                    if a.lanes && SendsLanes(cur, prev) then WireLanes(cur.lanes) else c.lanes,
                    a.display && cur != prev)
  {
    var next := NextSync(cur, prev, sync);
    var display, street, lanes := DisplayOf(cur, next), StreetOf(cur, next), SetLanes(WireLanes(cur.lanes));
    if cur == prev {
    } else if !NewInstance(cur, prev) {
      OneArriving(c, display, a);
    } else if LaneFrames(cur, prev) == [] {
      assert DiffFrames(cur, prev, sync) == [display, street];
      TwoArriving(c, display, street, a);
    } else {
      assert DiffFrames(cur, prev, sync) == [display, street, lanes];
      ThreeArriving(c, display, street, lanes, a);
    }
  }

  // The sender advances `prev` even when a frame is lost. A cluster that was up to date
  // stays so exactly when every lost part of the display did not change anyway.
  lemma LostFrames(c: Cluster, cur: Snapshot, prev: Snapshot, sync: byte, a: Arrival)
    requires Seen(c) == ViewOf(prev)
    ensures Seen(ShowArriving(c, DiffFrames(cur, prev, sync), a)) == ViewOf(cur) <==>
      && (a.display || SameDisplay(ViewOf(cur), ViewOf(prev)))
      && (a.street || cur.road == prev.road)
      && (a.lanes || WireLanes(cur.lanes) == WireLanes(prev.lanes))
  {
    ArrivingTurn(c, cur, prev, sync, a);
  }

  // One turn of the sender: with the HUD absent it only takes the snapshot over.
  datatype Turn = Turn(cur: Snapshot, absent: bool, arrival: Arrival)

  function TakeTurn(st: Sender, t: Turn): Sender {
    if t.absent then st.(prev := t.cur)
    else Sender(t.cur, NextSync(t.cur, st.prev, st.sync),
                ShowArriving(st.cluster, DiffFrames(t.cur, st.prev, st.sync), t.arrival))
  }

  function TakeTurns(st: Sender, turns: seq<Turn>): Sender {
    if turns == [] then st else TakeTurn(TakeTurns(st, Init(turns)), Last(turns))
  }

  function LastTaken(first: Snapshot, turns: seq<Turn>): Snapshot {
    if turns == [] then first else Last(turns).cur
  }

  // What the last frame of each kind that was sent and arrived carried.
  function ArrivedDisplay(v: View, first: Snapshot, turns: seq<Turn>): View {
    if turns == [] then v
    else
      var t, prev := Last(turns), LastTaken(first, Init(turns));
      if !t.absent && t.arrival.display && t.cur != prev then ViewOf(t.cur)
      else ArrivedDisplay(v, first, Init(turns))
  }

  function ArrivedStreet(v: View, first: Snapshot, turns: seq<Turn>): seq<byte> {
    if turns == [] then v.text
    else
      var t, prev := Last(turns), LastTaken(first, Init(turns));
      if !t.absent && t.arrival.street && SendsStreet(t.cur, prev) then t.cur.road
      else ArrivedStreet(v, first, Init(turns))
  }

  function ArrivedLanes(v: View, first: Snapshot, turns: seq<Turn>): seq<byte> {
    if turns == [] then v.lanes
    else
      var t, prev := Last(turns), LastTaken(first, Init(turns));
      if !t.absent && t.arrival.lanes && SendsLanes(t.cur, prev) then WireLanes(t.cur.lanes)
      else ArrivedLanes(v, first, Init(turns))
  }

  lemma TakeTurnShows(st: Sender, t: Turn, v: View)
    requires v == Seen(st.cluster)
    ensures var after := Seen(TakeTurn(st, t).cluster);
            && SameDisplay(after, if !t.absent && t.arrival.display && t.cur != st.prev then ViewOf(t.cur) else v)
            && after.text == (if !t.absent && t.arrival.street && SendsStreet(t.cur, st.prev) then t.cur.road
                              else v.text)
            && after.lanes == (if !t.absent && t.arrival.lanes && SendsLanes(t.cur, st.prev)
                               then WireLanes(t.cur.lanes) else v.lanes)
  {
    if !t.absent {
      ArrivingTurn(st.cluster, t.cur, st.prev, st.sync, t.arrival);
    }
  }

  // Whatever is lost, over any run: each part of the cluster shows what the last arrived
  // frame of its kind carried. It is up to date exactly when each of these agrees with the
  // latest snapshot.
  lemma {:induction false} LossyRun(st: Sender, turns: seq<Turn>)
    ensures var after, v := TakeTurns(st, turns), Seen(st.cluster);
            && after.prev == LastTaken(st.prev, turns)
            && SameDisplay(Seen(after.cluster), ArrivedDisplay(v, st.prev, turns))
            && Seen(after.cluster).text == ArrivedStreet(v, st.prev, turns)
            && Seen(after.cluster).lanes == ArrivedLanes(v, st.prev, turns)
  {
    if turns != [] {
      LossyRun(st, Init(turns));
      var before := TakeTurns(st, Init(turns));
      TakeTurnShows(before, Last(turns), Seen(before.cluster));
    }
  }

  lemma LossyUpToDate(st: Sender, turns: seq<Turn>)
    ensures var after, v := TakeTurns(st, turns), Seen(st.cluster);
            Seen(after.cluster) == ViewOf(after.prev) <==>
              && SameDisplay(ArrivedDisplay(v, st.prev, turns), ViewOf(after.prev))
              && ArrivedStreet(v, st.prev, turns) == after.prev.road
              && ArrivedLanes(v, st.prev, turns) == WireLanes(after.prev.lanes)
  {
    LossyRun(st, turns);
  }

  // A turn that sends all three kinds, all arriving, repairs every earlier loss.
  lemma TurnRepairs(st: Sender, t: Turn)
    requires !t.absent && t.arrival == Arrival(true, true, true) && SendsLanes(t.cur, st.prev)
    ensures Seen(TakeTurn(st, t).cluster) == ViewOf(t.cur)
  {
    TakeTurnShows(st, t, Seen(st.cluster));
  }

  // Without losses a turn is the one of the refinement.
  lemma {:induction false} AllArrive(c: Cluster, frames: seq<Frame>)
    ensures ShowArriving(c, frames, Arrival(true, true, true)) == ShowAll(c, frames)
  {
    if frames != [] {
      AllArrive(c, Init(frames));
    }
  }
}
