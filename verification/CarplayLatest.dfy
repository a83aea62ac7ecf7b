// Whether a sleeping CarPlay sender shows what was written last (hud_send.cpp): which
// maneuver its latest read or clear left it with, over every run.
module CarplayLatest {
  import opened Machine
  import VbsTx
  import opened CarplayHud
  import opened CarplayDisplay

  // ---------------------------------------------------------------------------
  // What a run left the sender with
  // ---------------------------------------------------------------------------

  // A sender thread as it comes up; with count 0 nothing was ever written.
  predicate ComesUp(s: State) {
    s.phase.Waiting? && s.prev == NO_MANEUVER && s.lastProcessed == 0 && (s.count == 0 ==> s.snapshot == NO_MANEUVER)
  }

  // A choice that finds no live route withholds the snapshot while the limit is shown.
  function Withholds(cfg: Config, s: State, e: Event, before: bool): bool {
    if e.Choose? && s.phase.Read? then cfg.speedLimit && !s.guidance else before
  }

  // A refreshing paint takes over the snapshot read unless it was withheld; a clear that
  // went through drops it.
  function Takes(s: State, e: Event, withheld: bool, before: bool): bool {
    if e.Paint? && s.phase.Chosen? && Refreshes(s) then !withheld
    else if e.Commit? && s.phase.Committing? then false
    else before
  }

  // The latest choice of the run withheld the snapshot.
  predicate Withheld(cfg: Config, s0: State, events: seq<Event>) {
    events != [] && Withholds(cfg, Exec(cfg, s0, Init(events)), Last(events), Withheld(cfg, s0, Init(events)))
  }

  // The latest refreshing paint or clear of the run was a paint that took the snapshot over.
  predicate TookOver(cfg: Config, s0: State, events: seq<Event>) {
    events != []
    && Takes(Exec(cfg, s0, Init(events)), Last(events), Withheld(cfg, s0, Init(events)),
             TookOver(cfg, s0, Init(events)))
  }

  // ---------------------------------------------------------------------------
  // The invariant
  // ---------------------------------------------------------------------------

  function OrNone(taken: bool, m: Maneuver): Maneuver {
    if taken then m else NO_MANEUVER
  }

  // A copy whose count is still current is the current snapshot.
  predicate CopyOk(s: State, withheld: bool) {
    match s.phase
    case Read(snap, count) => s.lastProcessed <= count <= s.count && (count == s.count ==> snap == s.snapshot)
    case Chosen(cur, count, _, _) =>
      s.lastProcessed <= count <= s.count && (count == s.count ==> cur == OrNone(!withheld, s.snapshot))
    case _ => true
  }

  predicate Follows(s: State, withheld: bool, took: bool) {
    && s.lastProcessed <= s.count && CopyOk(s, withheld)
    && (s.lastProcessed == s.count ==> s.prev == OrNone(took, s.snapshot))
  }

  lemma PaintFollows(cfg: Config, s: State, e: Event, withheld: bool, took: bool)
    requires Follows(s, withheld, took) && e.Paint?
    ensures Follows(Next(cfg, s, e), withheld, Takes(s, e, withheld, took))
  {
    if s.phase.Chosen? {
      PaintsFacts(cfg, s, e.rc);
    }
  }

  lemma LoopFollows(cfg: Config, s: State, e: Event, withheld: bool, took: bool)
    requires Follows(s, withheld, took) && (e.ReadSnapshot? || e.Choose? || e.TakeRequests? || e.Commit?)
    ensures Follows(Next(cfg, s, e), Withholds(cfg, s, e, withheld), Takes(s, e, withheld, took))
  {
  }

  lemma OthersFollow(cfg: Config, s: State, e: Event, withheld: bool, took: bool)
    requires Follows(s, withheld, took)
    requires !(e.ReadSnapshot? || e.Choose? || e.Paint? || e.TakeRequests? || e.Commit?)
    ensures Follows(Next(cfg, s, e), withheld, took)
  {
  }

  lemma {:induction false} RunFollows(cfg: Config, s0: State, events: seq<Event>)
    requires ComesUp(s0)
    ensures Follows(Exec(cfg, s0, events), Withheld(cfg, s0, events), TookOver(cfg, s0, events))
  {
    if events != [] {
      var s, e := Exec(cfg, s0, Init(events)), Last(events);
      var withheld, took := Withheld(cfg, s0, Init(events)), TookOver(cfg, s0, Init(events));
      RunFollows(cfg, s0, Init(events));
      if e.Paint? {
        PaintFollows(cfg, s, e, withheld, took);
      } else if e.ReadSnapshot? || e.Choose? || e.TakeRequests? || e.Commit? {
        LoopFollows(cfg, s, e, withheld, took);
      } else {
        OthersFollow(cfg, s, e, withheld, took);
      }
    }
  }

  // Over every run: a sender with no count left to process holds the maneuver written last
  // exactly when its latest paint or clear took that over, or there is none.
  lemma SleepsUpToDate(cfg: Config, s0: State, events: seq<Event>, s: State)
    requires ComesUp(s0) && s == Exec(cfg, s0, events) && s.lastProcessed == s.count
    ensures s.prev == OrNone(TookOver(cfg, s0, events), s.snapshot)
    ensures s.prev == s.snapshot <==> TookOver(cfg, s0, events) || s.snapshot == NO_MANEUVER
  {
    RunFollows(cfg, s0, events);
  }

  // With accepted sends that is what the cluster shows from the first frame on, around the
  // limit, or it is wiped while there is nothing to show.
  lemma SleepingSenderShows(cfg: Config, c0: VbsTx.Cluster, s0: State, events: seq<Event>, s: State)
    requires ComesUp(s0) && Keeps(cfg, c0, s0) && AllAccept(events)
    requires s == Exec(cfg, s0, events) && s.phase.Waiting? && s.lastProcessed == s.count
    requires s.sent != [] || Displayed(cfg, c0, s0)
    ensures var m := OrNone(TookOver(cfg, s0, events), s.snapshot);
            || ShowsManeuver(cfg, ClusterOf(c0, s), m)
            || (ShowsNothing(ClusterOf(c0, s)) && !DistanceChanged(m, NO_MANEUVER))
  {
    RunFollows(cfg, s0, events);
    CarplayRefinement(cfg, c0, s0, events);
  }

  // ---------------------------------------------------------------------------
  // When nothing is missed, and when something is
  // ---------------------------------------------------------------------------

  // No clear goes through, and every choice finds a live route or no limit to show.
  predicate Undisturbed(cfg: Config, s0: State, events: seq<Event>) {
    events == [] ||
    (Undisturbed(cfg, s0, Init(events)) && !Last(events).Commit?
     && (Last(events).Choose? ==> !cfg.speedLimit || Exec(cfg, s0, Init(events)).guidance))
  }

  // Nothing was withheld, and either a snapshot was taken over or none was processed.
  predicate Taking(s: State, withheld: bool, took: bool) {
    !withheld && (took || s.lastProcessed == 0) && (s.count == 0 ==> s.snapshot == NO_MANEUVER)
  }

  lemma StepTakes(cfg: Config, s: State, e: Event, withheld: bool, took: bool)
    requires Taking(s, withheld, took) && !e.Commit? && (e.Choose? ==> !cfg.speedLimit || s.guidance)
    ensures Taking(Next(cfg, s, e), Withholds(cfg, s, e, withheld), Takes(s, e, withheld, took))
  {
    if e.Paint? && s.phase.Chosen? {
      PaintsFacts(cfg, s, e.rc);
    }
  }

  lemma {:induction false} UndisturbedTakes(cfg: Config, s0: State, events: seq<Event>)
    requires ComesUp(s0) && Undisturbed(cfg, s0, events)
    ensures Taking(Exec(cfg, s0, events), Withheld(cfg, s0, events), TookOver(cfg, s0, events))
  {
    if events != [] {
      UndisturbedTakes(cfg, s0, Init(events));
      StepTakes(cfg, Exec(cfg, s0, Init(events)), Last(events), Withheld(cfg, s0, Init(events)),
                TookOver(cfg, s0, Init(events)));
    }
  }

  // Such a run misses nothing.
  lemma NothingMissed(cfg: Config, s0: State, events: seq<Event>, s: State)
    requires ComesUp(s0) && Undisturbed(cfg, s0, events)
    requires s == Exec(cfg, s0, events) && s.lastProcessed == s.count
    ensures s.prev == s.snapshot
  {
    UndisturbedTakes(cfg, s0, events);
    RunFollows(cfg, s0, events);
  }

  // A turn written and raised between the sender's read and its clear counts as processed,
  // and its route as over.
  lemma TurnMissed(cfg: Config) returns (events: seq<Event>, s: State)
    ensures AtRest(events) && s == Exec(cfg, START, events) && ComesUp(START)
    ensures s.phase.Waiting? && s.lastProcessed == s.count && !s.guidance
    ensures s.snapshot == LEFT_TURN && s.prev == NO_MANEUVER && !TookOver(cfg, START, events)
  {
    events, s := Then(cfg, START, [], START, RequestClear);
    events, s := Turn(cfg, START, events, s, 0);
    events, s := TurnWritten(cfg, events, s);
    events, s := Finish(cfg, events, s);
    SleepsUpToDate(cfg, START, events, s);
  }

  lemma TurnWritten(cfg: Config, before: seq<Event>, s0: State) returns (events: seq<Event>, s: State)
    requires s0 == Exec(cfg, START, before) && AtRest(before) && s0.snapshot == NO_MANEUVER
    ensures s == Exec(cfg, START, events) && AtRest(events)
    ensures s == s0.(snapshot := LEFT_TURN, count := s0.count + 2, guidance := true)
  {
    events, s := Then(cfg, START, before, s0, Raise);
    events, s := Then(cfg, START, events, s, WriteTurn([], 1, 4, 0, 0));
    events, s := Then(cfg, START, events, s, Raise);
  }
}
