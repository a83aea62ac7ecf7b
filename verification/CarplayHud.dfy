// The CarPlay HUD sender (hud_send.cpp): what its producers, its keep-alive loop and its
// navigation-end handling do, one atomic action at a time.
module CarplayHud {
  import opened Machine
  import opened Glyphs
  import opened Translit
  import opened VbsTx

  datatype Config = Config(speedLimit: bool, debug: bool, normalize: bool)

  datatype Maneuver = Maneuver(road: seq<byte>, side: uint32, event: uint32, angle: int32, number: int32,
                               distance: int32, unit: byte, timeUntil: int32)

  const NO_MANEUVER := Maneuver([], 0, 0, 0, 0, 0, 0, 0)

  // ---------------------------------------------------------------------------
  // What one push sends
  // ---------------------------------------------------------------------------

  function Icon(m: Maneuver): nat {
    if m.event == ROUNDABOUT_ENTER_AND_EXIT then RoundaboutCarplay(m.angle, m.side == 1)
    else if m.event < 20 then TurnIcons(m.event)[SideIndex(m.side)]
    else 0
  }

  const SPACE: seq<byte> := [0x20]

  const QUESTION_MARK: byte := 0x3F

  // An empty street draws garbage, so it is sent as a space.
  function StreetText(cfg: Config, road: seq<byte>): seq<byte> {
    var text := if cfg.normalize then Folded(road, QUESTION_MARK) else road;
    if text == [] then SPACE else text
  }

  function Decimal(n: nat): seq<byte> {
    (if n < 10 then [] else Decimal(n / 10)) + [0x30 + n % 10]
  }

  function Signed(x: int): seq<byte> {
    if x < 0 then [0x2D] + Decimal(-x) else Decimal(x)
  }

  // "EV=%u S=%u A=%d" in 32 characters.
  function DebugLabel(m: Maneuver): seq<byte> {
    CopyStr([0x45, 0x56, 0x3D] + Decimal(m.event) + [0x20, 0x53, 0x3D] + Decimal(m.side)
            + [0x20, 0x41, 0x3D] + Signed(m.angle), 33)
  }

  // The debug overlay replaces a maneuver without a glyph.
  predicate Overlay(cfg: Config, m: Maneuver) {
    cfg.debug && Icon(m) == 0
  }

  function Clamp16(x: int): uint16 {
    if x < 0 then 0 else if x > 0xFFFF then 0xFFFF else x
  }

  function DisplayFrame(cfg: Config, m: Maneuver, painted: uint16, sync: byte): Frame {
    SetDisplay(Display(if Overlay(cfg, m) then STRAIGHT_ICON else Icon(m), Clamp16(m.distance),
                       if m.unit != 0 then m.unit else 1, painted, if painted != 0 then 1 else 0, sync))
  }

  function StreetFrame(cfg: Config, m: Maneuver, sync: byte): Frame {
    SetStreet(Street(if Overlay(cfg, m) then DebugLabel(m) else StreetText(cfg, m.road), sync))
  }

  // Whether each of the two calls was accepted.
  datatype Rc = Rc(display: bool, street: bool)

  datatype Sent = Sent(frames: seq<Frame>, sync: byte, ok: bool)

  // The street frame always follows the display frame, unless that one failed.
  function Pair(display: Frame, street: Frame, sync: byte, rc: Rc): Sent {
    if rc.display then Sent([display, street], sync, rc.street) else Sent([display], sync, false)
  }

  predicate ManeuverChanged(cur: Maneuver, prev: Maneuver) {
    cur.road != prev.road || cur.event != prev.event || cur.side != prev.side || cur.number != prev.number
  }

  predicate DistanceChanged(cur: Maneuver, prev: Maneuver) {
    ManeuverChanged(cur, prev) || cur.distance != prev.distance || cur.unit != prev.unit || cur.angle != prev.angle
  }

  function Push(cfg: Config, cur: Maneuver, bump: bool, sync: byte, painted: uint16, rc: Rc): Sent {
    var sync' := if bump || Overlay(cfg, cur) then Bump(sync) else sync;
    Pair(DisplayFrame(cfg, cur, painted, sync'), StreetFrame(cfg, cur, sync'), sync', rc)
  }

  function Clear(sync: byte, rc: Rc): Sent {
    if rc.display
    then Sent([SetDisplay(DARK.display), SetStreet(Street(SPACE, Bump(sync)))], Bump(sync), rc.street)
    else Sent([SetDisplay(DARK.display)], sync, false)
  }

  // ---------------------------------------------------------------------------
  // The two threads
  // ---------------------------------------------------------------------------

  // Where the sender loop is, with the locals it carries.
  datatype Phase =
    | Waiting
    | Read(snap: Maneuver, count: nat)
    | Chosen(cur: Maneuver, count: nat, splim: uint16, painted: uint16)
    | Painted(splim: uint16)
    | Committing(keepSplim: uint16)   // a clear went out, its state is about to be stored

  datatype State = State(
    // shared
    snapshot: Maneuver, count: nat, guidance: bool, clearReq: bool, fullClearReq: bool, tick: nat, hudAbsent: bool,
    // the sender's own
    prev: Maneuver, sync: byte, lastProcessed: nat, prevSplim: uint16, phase: Phase,
    // every frame handed to the transport
    sent: seq<Frame>)

  // After the startup clear.
  const START := State(NO_MANEUVER, 0, false, false, false, 0, false, NO_MANEUVER, 1, 0, 0, Waiting, [])

  datatype Event =
    // producers; a producer call is a write and a store to g_have_guidance
    | WriteTurn(road: seq<byte>, side: uint32, event: uint32, angle: int32, number: int32)
    | WriteDistance(distance: int32, unit: byte, timeUntil: int32)
    | WriteBlank
    | Raise
    | Lower
    // other threads
    | Tick
    | RequestClear
    | RequestFullClear
    | HudStatus(absent: bool)
    // the sender loop
    | ReadSnapshot
    | Choose(limit: uint16, over: bool)
    | Paint(rc: Rc)
    | TakeRequests(rc: Rc)
    | Commit

  function Deliver(s: State, out: Sent): State {
    s.(sent := s.sent + out.frames, sync := out.sync)
  }

  // With the speed limit shown and no live route the sender paints a blank maneuver.
  function Chooses(cfg: Config, s: State, limit: uint16, over: bool): Phase
    requires s.phase.Read?
  {
    var splim := if cfg.speedLimit then limit else 0;
    var painted := if splim != 0 && over && s.tick % 2 == 1 then 0 else splim;
    Chosen(if cfg.speedLimit && !s.guidance then NO_MANEUVER else s.phase.snap, s.phase.count, splim, painted)
  }

  function Paints(cfg: Config, s: State, rc: Rc): State
    requires s.phase.Chosen?
  {
    var p := s.phase;
    var splimChanged := p.splim != s.prevSplim;
    var after := s.(phase := Painted(p.splim));
    if p.count != s.lastProcessed || splimChanged then
      var next := after.(prev := p.cur, prevSplim := p.splim, lastProcessed := p.count);
      if s.hudAbsent || !(DistanceChanged(p.cur, s.prev) || splimChanged) then next
      else Deliver(next, Push(cfg, p.cur, ManeuverChanged(p.cur, s.prev), s.sync, p.painted, rc))
    else if (s.guidance || s.prevSplim != 0) && !s.hudAbsent then
      Deliver(after, Push(cfg, s.prev, false, s.sync, p.painted, rc))
    else after
  }

  // Whether a navigation-end keeps the speed-limit sign.
  predicate KeepsSign(cfg: Config, s: State)
    requires s.phase.Painted?
  {
    !s.fullClearReq && cfg.speedLimit && s.phase.splim > 0
  }

  // What a clear request sends: a blank push around the sign, or a wipe.
  function Requested(cfg: Config, absent: bool, keepSign: bool, prev: Maneuver, sync: byte, splim: uint16, rc: Rc)
    : Sent
  {
    if absent then Sent([], sync, true)
    else if keepSign then Push(cfg, NO_MANEUVER, ManeuverChanged(NO_MANEUVER, prev), sync, splim, rc)
    else Clear(sync, rc)
  }

  function ClearOutcome(cfg: Config, s: State, rc: Rc): Sent
    requires s.phase.Painted?
  {
    Requested(cfg, s.hudAbsent, KeepsSign(cfg, s), s.prev, s.sync, s.phase.splim, rc)
  }

  function TakesRequests(cfg: Config, s: State, rc: Rc): State
    requires s.phase.Painted?
  {
    var taken := s.(clearReq := false, fullClearReq := false, phase := Waiting);
    if !s.clearReq && !s.fullClearReq then taken
    else
      var out := ClearOutcome(cfg, s, rc);
      var keep := if KeepsSign(cfg, s) then s.phase.splim else 0;
      Deliver(taken.(phase := if out.ok then Committing(keep) else Waiting), out)
  }

  function Commits(s: State): State
    requires s.phase.Committing?
  {
    s.(guidance := false, prev := NO_MANEUVER, prevSplim := s.phase.keepSplim, lastProcessed := s.count,
       phase := Waiting)
  }

  // A sender action that is not its turn does nothing.
  function Next(cfg: Config, s: State, e: Event): State {
    match e
    case WriteTurn(road, side, event, angle, number) =>
      s.(snapshot := s.snapshot.(road := road, side := side, event := event, angle := angle, number := number),
         count := s.count + 2)
    case WriteDistance(distance, unit, timeUntil) =>
      s.(snapshot := s.snapshot.(distance := distance, unit := unit, timeUntil := timeUntil), count := s.count + 2)
    case WriteBlank => s.(snapshot := NO_MANEUVER, count := s.count + 2)
    case Raise => s.(guidance := true)
    case Lower => s.(guidance := false)
    case Tick => s.(tick := s.tick + 1)
    case RequestClear => s.(clearReq := true)
    case RequestFullClear => s.(fullClearReq := true)
    case HudStatus(absent) => s.(hudAbsent := absent)
    case ReadSnapshot => if s.phase.Waiting? then s.(phase := Read(s.snapshot, s.count)) else s
    case Choose(limit, over) => if s.phase.Read? then s.(phase := Chooses(cfg, s, limit, over)) else s
    case Paint(rc) => if s.phase.Chosen? then Paints(cfg, s, rc) else s
    case TakeRequests(rc) => if s.phase.Painted? then TakesRequests(cfg, s, rc) else s
    case Commit => if s.phase.Committing? then Commits(s) else s
  }

  function Exec(cfg: Config, s: State, events: seq<Event>): State {
    if events == [] then s else Next(cfg, Exec(cfg, s, Init(events)), Last(events))
  }

  // --- pairing -----------------------------------------------------------------------

  // Every push pairs a display frame with a street frame of the same sync; only a failed
  // display frame goes without.
  lemma PushPairs(cfg: Config, cur: Maneuver, bump: bool, sync: byte, painted: uint16, rc: Rc)
    ensures var out := Push(cfg, cur, bump, sync, painted, rc);
            && 1 <= |out.frames| <= 2 && out.frames[0].SetDisplay? && out.frames[0].d.sync == out.sync
            && (|out.frames| == 2 <==> rc.display)
            && (|out.frames| == 2 ==> out.frames[1].SetStreet? && out.frames[1].s.sync == out.sync)
            && (bump ==> out.sync != sync)
  {
  }

  // --- navigation end ------------------------------------------------------------------

  predicate BlankFrame(f: Frame) {
    match f
    case SetDisplay(d) => d.icon == 0 && d.distance == 0
    case SetStreet(m) => m.text == SPACE
    case SetLanes(_) => false
  }

  predicate AllBlank(frames: seq<Frame>) {
    forall i :: 0 <= i < |frames| ==> BlankFrame(frames[i])
  }

  // The sender holds nothing but a blank maneuver, and no route is live.
  predicate Quiet(s: State) {
    !s.guidance && s.prev == NO_MANEUVER && (s.phase.Chosen? ==> s.phase.cur == NO_MANEUVER)
  }

  lemma BlankPush(cfg: Config, bump: bool, sync: byte, painted: uint16, rc: Rc)
    requires !cfg.debug
    ensures AllBlank(Push(cfg, NO_MANEUVER, bump, sync, painted, rc).frames)
  {
    assert TurnIcons(NO_MANEUVER.event) == [0, 0, 0];
  }

  // The step adds only blank frames.
  predicate AddsBlank(s: State, s': State) {
    s.sent <= s'.sent && AllBlank(s'.sent[|s.sent|..])
  }

  lemma DeliverBlank(s: State, out: Sent)
    requires AllBlank(out.frames)
    ensures AddsBlank(s, Deliver(s, out))
  {
    assert Deliver(s, out).sent[|s.sent|..] == out.frames;
  }

  lemma QuietPaint(cfg: Config, s: State, rc: Rc)
    requires cfg.speedLimit && !cfg.debug && Quiet(s) && s.phase.Chosen?
    ensures Quiet(Paints(cfg, s, rc)) && AddsBlank(s, Paints(cfg, s, rc))
  {
    BlankPush(cfg, false, s.sync, s.phase.painted, rc);
    DeliverBlank(s, Push(cfg, NO_MANEUVER, false, s.sync, s.phase.painted, rc));
    assert s.sent[|s.sent|..] == [];
  }

  lemma QuietClear(cfg: Config, s: State, rc: Rc)
    requires cfg.speedLimit && !cfg.debug && Quiet(s) && s.phase.Painted?
    ensures Quiet(TakesRequests(cfg, s, rc)) && AddsBlank(s, TakesRequests(cfg, s, rc))
  {
    BlankPush(cfg, false, s.sync, s.phase.splim, rc);
    var out := ClearOutcome(cfg, s, rc);
    assert AllBlank(out.frames);
    DeliverBlank(s, out);
    assert s.sent[|s.sent|..] == [];
  }

  lemma QuietStep(cfg: Config, s: State, e: Event)
    requires cfg.speedLimit && !cfg.debug && Quiet(s) && !e.Raise?
    ensures Quiet(Next(cfg, s, e)) && AddsBlank(s, Next(cfg, s, e))
  {
    if e.Paint? && s.phase.Chosen? {
      QuietPaint(cfg, s, e.rc);
    } else if e.TakeRequests? && s.phase.Painted? {
      QuietClear(cfg, s, e.rc);
    } else {
      assert s.sent[|s.sent|..] == [];
    }
  }

  // Events in which no producer raises g_have_guidance.
  predicate NoRoute(events: seq<Event>) {
    forall i :: 0 <= i < |events| ==> !events[i].Raise?
  }

  lemma {:induction false} QuietRun(cfg: Config, s: State, events: seq<Event>)
    requires cfg.speedLimit && !cfg.debug && Quiet(s) && NoRoute(events)
    ensures Quiet(Exec(cfg, s, events)) && AddsBlank(s, Exec(cfg, s, events))
  {
    if events != [] {
      var before := Exec(cfg, s, Init(events));
      QuietRun(cfg, s, Init(events));
      assert Last(events) == events[|events| - 1];
      QuietStep(cfg, before, Last(events));
      var after := Next(cfg, before, Last(events));
      assert after.sent[|s.sent|..] == before.sent[|s.sent|..] + after.sent[|before.sent|..];
    } else {
      assert s.sent[|s.sent|..] == [];
    }
  }

  // The run ends by storing a successful clear.
  predicate EndsInClear(cfg: Config, s0: State, events: seq<Event>) {
    events != [] && Last(events).Commit? && Exec(cfg, s0, Init(events)).phase.Committing?
  }

  // What the producer thread still owes: a turn is written and then raised, a stop is
  // lowered and then blanked, a start is a raise and a distance a write of its own.
  datatype Pending = Ready | OwesRaise | OwesBlank

  function Obeys(p: Option<Pending>, e: Event): Option<Pending> {
    match e
    case WriteTurn(_, _, _, _, _) => if p == Some(Ready) then Some(OwesRaise) else None
    case WriteDistance(_, _, _) => if p == Some(Ready) then p else None
    case Lower => if p == Some(Ready) then Some(OwesBlank) else None
    case WriteBlank => if p == Some(OwesBlank) then Some(Ready) else None
    case Raise => if p == Some(Ready) || p == Some(OwesRaise) then Some(Ready) else None
    case _ => p
  }

  function Producing(p: Option<Pending>, events: seq<Event>): Option<Pending> {
    if events == [] then p else Obeys(Producing(p, Init(events)), Last(events))
  }

  // The producer's events are those of its calls, the last one perhaps unfinished.
  predicate Producible(events: seq<Event>) {
    Producing(Some(Ready), events).Some?
  }

  lemma {:induction false} ProducingConcat(p: Option<Pending>, xs: seq<Event>, ys: seq<Event>)
    ensures Producing(p, xs + ys) == Producing(Producing(p, xs), ys)
    decreases |ys|
  {
    if ys == [] {
      assert xs + ys == xs;
    } else {
      assert Init(xs + ys) == xs + Init(ys) && Last(xs + ys) == Last(ys);
      ProducingConcat(p, xs, Init(ys));
    }
  }

  // The producer has finished every call.
  predicate AtRest(events: seq<Event>) {
    Producing(Some(Ready), events) == Some(Ready)
  }

  // After a successful clear, every frame of every continuation the producer can make is
  // blank until it raises g_have_guidance, whatever state the sender came up in.
  ghost predicate StaysBlank(cfg: Config) {
    forall s0: State, before: seq<Event>, after: seq<Event> ::
      EndsInClear(cfg, s0, before) && NoRoute(after) && Producible(before + after) ==>
      AddsBlank(Exec(cfg, s0, before), Exec(cfg, Exec(cfg, s0, before), after))
  }

  lemma Then(cfg: Config, s0: State, events: seq<Event>, s: State, e: Event)
    returns (events': seq<Event>, s': State)
    requires s == Exec(cfg, s0, events)
    ensures s' == Next(cfg, s, e) && s' == Exec(cfg, s0, events')
    ensures events' != [] && Init(events') == events && Last(events') == e
    ensures NoRoute(events) && !e.Raise? ==> NoRoute(events')
    ensures Producing(Some(Ready), events') == Obeys(Producing(Some(Ready), events), e)
  {
    events', s' := events + [e], Next(cfg, s, e);
    assert Init(events') == events && Last(events') == e;
  }

  const OK := Rc(true, true)

  // One turn of the sender loop up to its requests.
  function Painting(cfg: Config, s: State, limit: uint16): State
    requires s.phase.Waiting?
  {
    s.(phase := Chooses(cfg, s.(phase := Read(s.snapshot, s.count)), limit, false))
  }

  lemma TurnStart(cfg: Config, s0: State, events: seq<Event>, s: State, limit: uint16)
    returns (events': seq<Event>, s': State)
    requires s == Exec(cfg, s0, events) && s.phase.Waiting?
    ensures s' == Exec(cfg, s0, events') && s' == Painting(cfg, s, limit)
    ensures NoRoute(events) ==> NoRoute(events')
    ensures AtRest(events) ==> AtRest(events')
  {
    events', s' := Then(cfg, s0, events, s, ReadSnapshot);
    events', s' := Then(cfg, s0, events', s', Choose(limit, false));
  }

  lemma PaintsFacts(cfg: Config, s: State, rc: Rc)
    requires s.phase.Chosen?
    ensures var s' := Paints(cfg, s, rc);
            && s'.phase == Painted(s.phase.splim) && s'.snapshot == s.snapshot && s'.count == s.count
            && s'.clearReq == s.clearReq && s'.hudAbsent == s.hudAbsent
  {
  }

  lemma Turn(cfg: Config, s0: State, events: seq<Event>, s: State, limit: uint16)
    returns (events': seq<Event>, s': State)
    requires s == Exec(cfg, s0, events) && s.phase.Waiting?
    ensures s' == Exec(cfg, s0, events') && s' == Paints(cfg, Painting(cfg, s, limit), OK)
    ensures s'.phase.Painted? && s'.snapshot == s.snapshot && s'.count == s.count
    ensures s'.clearReq == s.clearReq && s'.hudAbsent == s.hudAbsent
    ensures NoRoute(events) ==> NoRoute(events')
    ensures AtRest(events) ==> AtRest(events')
  {
    var mid;
    events', mid := TurnStart(cfg, s0, events, s, limit);
    PaintsFacts(cfg, mid, OK);
    events', s' := Then(cfg, s0, events', mid, Paint(OK));
  }

  // A requested clear that goes through.
  lemma Finish(cfg: Config, events: seq<Event>, s: State) returns (events': seq<Event>, s': State)
    requires s == Exec(cfg, START, events) && s.phase.Painted? && s.clearReq
    ensures s' == Exec(cfg, START, events') && EndsInClear(cfg, START, events')
    ensures AtRest(events) ==> AtRest(events')
    ensures s'.phase.Waiting? && s'.snapshot == s.snapshot && s'.hudAbsent == s.hudAbsent
    ensures s'.lastProcessed == s'.count == s.count && s'.prev == NO_MANEUVER && !s'.guidance
    ensures s'.prevSplim == if KeepsSign(cfg, s) then s.phase.splim else 0
  {
    assert ClearOutcome(cfg, s, OK).ok;
    events', s' := Then(cfg, START, events, s, TakeRequests(OK));
    events', s' := Then(cfg, START, events', s', Event.Commit);
  }

  const LEFT_TURN := NO_MANEUVER.(side := 1, event := 4)

  // A route starts, its turn to the left is written and raised.
  lemma RouteStarts(cfg: Config) returns (events: seq<Event>, s: State)
    ensures s == Exec(cfg, START, events) && AtRest(events)
    ensures s == START.(snapshot := LEFT_TURN, count := 2, guidance := true, clearReq := true)
  {
    events, s := Then(cfg, START, [], START, Raise);
    events, s := Then(cfg, START, events, s, WriteTurn([], 1, 4, 0, 0));
    events, s := Then(cfg, START, events, s, Raise);
    events, s := Then(cfg, START, events, s, RequestClear);
  }

  // A turn to the left that was shown, then a navigation end.
  lemma StaleSnapshot(cfg: Config) returns (before: seq<Event>, s: State)
    requires !cfg.speedLimit
    ensures EndsInClear(cfg, START, before) && s == Exec(cfg, START, before) && AtRest(before)
    ensures s.phase.Waiting? && !s.hudAbsent && s.snapshot == LEFT_TURN
    ensures s.lastProcessed == s.count && s.prev == NO_MANEUVER
  {
    before, s := RouteStarts(cfg);
    before, s := Turn(cfg, START, before, s, 0);
    before, s := Finish(cfg, before, s);
  }

  lemma PaintsLeft(cfg: Config, s: State)
    requires s.phase.Chosen? && s.phase.cur.event == 4 && s.phase.cur.side == 1
    requires s.phase.count != s.lastProcessed && !s.hudAbsent && s.prev == NO_MANEUVER
    ensures !AddsBlank(s, Paints(cfg, s, OK))
  {
    assert TurnIcons(s.phase.cur.event) == [2, 3, 1];
    var s' := Paints(cfg, s, OK);
    assert s'.sent[|s.sent|..][0].d.icon == 2;
  }

  lemma PaintsOverlay(cfg: Config, s: State)
    requires cfg.debug && s.phase.Chosen? && s.phase.cur == NO_MANEUVER
    requires s.phase.splim != s.prevSplim && !s.hudAbsent
    ensures !AddsBlank(s, Paints(cfg, s, OK))
  {
    assert TurnIcons(NO_MANEUVER.event) == [0, 0, 0];
    var s' := Paints(cfg, s, OK);
    assert s'.sent[|s.sent|..][0].d.icon == STRAIGHT_ICON;
  }

  // Without the speed limit a distance update repaints the maneuver that ended.
  lemma StaleManeuverReturns(cfg: Config) returns (before: seq<Event>, after: seq<Event>)
    requires !cfg.speedLimit
    ensures EndsInClear(cfg, START, before) && NoRoute(after) && Producible(before + after)
    ensures !AddsBlank(Exec(cfg, START, before), Exec(cfg, Exec(cfg, START, before), after))
  {
    var s0, s;
    before, s0 := StaleSnapshot(cfg);
    after, s := Then(cfg, s0, [], s0, WriteDistance(100, 1, 0));
    PaintsLeft(cfg, Painting(cfg, s, 0));
    after, s := Turn(cfg, s0, after, s, 0);
    ProducingConcat(Some(Ready), before, after);
  }

  // With the debug overlay a new speed limit draws the overlay's own glyph.
  lemma OverlayAppears(cfg: Config) returns (before: seq<Event>, after: seq<Event>)
    requires cfg.speedLimit && cfg.debug
    ensures EndsInClear(cfg, START, before) && NoRoute(after) && Producible(before + after)
    ensures !AddsBlank(Exec(cfg, START, before), Exec(cfg, Exec(cfg, START, before), after))
  {
    var s0, s;
    before, s0 := Then(cfg, START, [], START, RequestClear);
    before, s0 := Turn(cfg, START, before, s0, 0);
    before, s0 := Finish(cfg, before, s0);
    PaintsOverlay(cfg, Painting(cfg, s0, 50));
    after, s := Turn(cfg, s0, [], s0, 50);
    ProducingConcat(Some(Ready), before, after);
  }

  // The navigation end holds exactly when the speed limit is shown and the debug overlay
  // is off.
  lemma NavEndExactly(cfg: Config)
    ensures StaysBlank(cfg) <==> cfg.speedLimit && !cfg.debug
  {
    if cfg.speedLimit && !cfg.debug {
      forall s0: State, before: seq<Event>, after: seq<Event>
        | EndsInClear(cfg, s0, before) && NoRoute(after) && Producible(before + after)
        ensures AddsBlank(Exec(cfg, s0, before), Exec(cfg, Exec(cfg, s0, before), after))
      {
        QuietRun(cfg, Exec(cfg, s0, before), after);
      }
    } else if !cfg.speedLimit {
      var before, after := StaleManeuverReturns(cfg);
    } else {
      var before, after := OverlayAppears(cfg);
    }
  }

  // A producer raises g_have_guidance only after its write. A sender that reads in
  // between counts the write as processed, and takes over the maneuver exactly when the
  // route was already live or the speed limit is not shown; otherwise the maneuver waits
  // for the next write.
  lemma TurnAdopts(cfg: Config, s: State, limit: uint16, rc: Rc)
    requires s.phase.Waiting? && s.count != s.lastProcessed
    ensures var s' := Paints(cfg, Painting(cfg, s, limit), rc);
            && s'.lastProcessed == s'.count
            && (s'.prev == s.snapshot <==> !cfg.speedLimit || s.guidance || s.snapshot == NO_MANEUVER)
  {
    PaintsFacts(cfg, Painting(cfg, s, limit), rc);
  }
}
