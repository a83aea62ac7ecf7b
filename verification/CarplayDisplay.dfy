// What the CarPlay sender leaves on the cluster (hud_send.cpp) while its sends are
// accepted: the maneuver it holds with the limit it painted, or a wiped display, and when
// that is the maneuver written last.
module CarplayDisplay {
  import opened Machine
  import opened VbsTx
  import opened CarplayHud

  // What a sender whose cluster showed c0 when it came up has made of it.
  function ClusterOf(c0: Cluster, s: State): Cluster {
    ShowAll(c0, s.sent)
  }

  // The maneuver block and the street of one push, both with its sync, around whatever
  // limit it painted.
  predicate ShowsManeuver(cfg: Config, c: Cluster, m: Maneuver) {
    && SetDisplay(c.display) == DisplayFrame(cfg, m, c.display.speedLimit, c.sync)
    && SetStreet(c.street) == StreetFrame(cfg, m, c.sync)
  }

  // A clear blanks the display frame, sync included, and bumps the sync of the street.
  predicate ShowsNothing(c: Cluster) {
    c.display == DARK.display && c.street == Street(SPACE, c.sync)
  }

  // The maneuver the cluster should show: once a clear went out, none.
  function Holds(s: State): Maneuver {
    if s.phase.Committing? then NO_MANEUVER else s.prev
  }

  predicate Displayed(cfg: Config, c0: Cluster, s: State) {
    && ClusterOf(c0, s).sync == s.sync
    && (ShowsManeuver(cfg, ClusterOf(c0, s), Holds(s))
        || (ShowsNothing(ClusterOf(c0, s)) && s.sync != 0 && !DistanceChanged(Holds(s), NO_MANEUVER)))
  }

  // Display and street carry one sync exactly when a maneuver was pushed last.
  lemma OneSync(cfg: Config, c0: Cluster, s: State)
    requires Displayed(cfg, c0, s)
    ensures ClusterOf(c0, s).display.sync == ClusterOf(c0, s).street.sync
            <==> ShowsManeuver(cfg, ClusterOf(c0, s), Holds(s))
  {
  }

  // Fields the display does not show make no difference.
  lemma SameShown(cfg: Config, c: Cluster, m: Maneuver, n: Maneuver)
    requires ShowsManeuver(cfg, c, m) && !DistanceChanged(m, n)
    ensures ShowsManeuver(cfg, c, n)
  {
  }

  lemma PushShows(cfg: Config, c: Cluster, m: Maneuver, bump: bool, sync: byte, painted: uint16)
    ensures var out := Push(cfg, m, bump, sync, painted, OK);
            var after := ShowAll(c, out.frames);
            && out.ok && after.sync == out.sync
            && ShowsManeuver(cfg, after, m) && after.display.speedLimit == painted
  {
    var out := Push(cfg, m, bump, sync, painted, OK);
    ShowTwo(c, out.frames[0], out.frames[1]);
  }

  lemma ClearShows(c: Cluster, sync: byte)
    ensures var out := Clear(sync, OK);
            var after := ShowAll(c, out.frames);
            out.ok && out.sync != 0 && after.sync == out.sync && ShowsNothing(after)
  {
    var out := Clear(sync, OK);
    ShowTwo(c, out.frames[0], out.frames[1]);
    BumpAdvances(sync);
  }

  lemma DeliverShows(c0: Cluster, s: State, s': State, out: Sent)
    requires s'.sent == s.sent + out.frames
    ensures ClusterOf(c0, s') == ShowAll(ClusterOf(c0, s), out.frames)
  {
    ShowAllConcat(c0, s.sent, out.frames);
  }

  // A paint that has something to send, or a frame to keep alive.
  predicate Pushes(cfg: Config, s: State)
    requires s.phase.Chosen?
  {
    if Refreshes(s)
    then DistanceChanged(s.phase.cur, s.prev) || s.phase.splim != s.prevSplim
    else s.guidance || s.prevSplim != 0
  }

  // What a pushing paint pushes: a fresh snapshot, or the frame held.
  predicate Refreshes(s: State)
    requires s.phase.Chosen?
  {
    s.phase.count != s.lastProcessed || s.phase.splim != s.prevSplim
  }

  lemma PaintPushes(cfg: Config, s: State, m: Maneuver, bump: bool, out: Sent)
    requires s.phase.Chosen? && !s.hudAbsent && Pushes(cfg, s)
    requires m == if Refreshes(s) then s.phase.cur else s.prev
    requires bump == (Refreshes(s) && ManeuverChanged(s.phase.cur, s.prev))
    requires out == Push(cfg, m, bump, s.sync, s.phase.painted, OK)
    ensures var after := Paints(cfg, s, OK);
            after.sent == s.sent + out.frames && after.sync == out.sync && after.prev == m && after.phase.Painted?
  {
  }

  lemma PaintSkips(cfg: Config, s: State)
    requires s.phase.Chosen? && !s.hudAbsent && !Pushes(cfg, s)
    ensures var after := Paints(cfg, s, OK);
            && after.sent == s.sent && after.sync == s.sync && after.phase.Painted?
            && !DistanceChanged(s.prev, after.prev)
  {
  }

  lemma PushedDisplayed(cfg: Config, c0: Cluster, s: State, after: State, bump: bool, painted: uint16, out: Sent)
    requires out == Push(cfg, after.prev, bump, s.sync, painted, OK)
    requires after.sent == s.sent + out.frames && after.sync == out.sync && after.phase.Painted?
    ensures Displayed(cfg, c0, after)
    ensures ShowsManeuver(cfg, ClusterOf(c0, after), after.prev) && ClusterOf(c0, after).display.speedLimit == painted
  {
    DeliverShows(c0, s, after, out);
    PushShows(cfg, ClusterOf(c0, s), after.prev, bump, s.sync, painted);
  }

  lemma SkippedDisplayed(cfg: Config, c0: Cluster, s: State, after: State)
    requires Displayed(cfg, c0, s) && !s.phase.Committing? && !after.phase.Committing?
    requires after.sent == s.sent && after.sync == s.sync && !DistanceChanged(s.prev, after.prev)
    ensures Displayed(cfg, c0, after)
  {
    if ShowsManeuver(cfg, ClusterOf(c0, s), s.prev) {
      SameShown(cfg, ClusterOf(c0, s), s.prev, after.prev);
    }
  }

  // After a paint the cluster shows what the sender holds; a pushing one shows it with the
  // limit painted now, whatever was shown before.
  lemma PaintShows(cfg: Config, c0: Cluster, s: State, after: State)
    requires s.phase.Chosen? && !s.hudAbsent && after == Paints(cfg, s, OK)
    ensures Displayed(cfg, c0, s) || Pushes(cfg, s) ==> Displayed(cfg, c0, after)
    ensures Pushes(cfg, s) ==>
      && ShowsManeuver(cfg, ClusterOf(c0, after), after.prev)
      && ClusterOf(c0, after).display.speedLimit == s.phase.painted
    ensures !Pushes(cfg, s) ==> after.sent == s.sent
  {
    if Pushes(cfg, s) {
      var bump := Refreshes(s) && ManeuverChanged(s.phase.cur, s.prev);
      var out := Push(cfg, if Refreshes(s) then s.phase.cur else s.prev, bump, s.sync, s.phase.painted, OK);
      PaintPushes(cfg, s, if Refreshes(s) then s.phase.cur else s.prev, bump, out);
      PushedDisplayed(cfg, c0, s, after, bump, s.phase.painted, out);
    } else {
      PaintSkips(cfg, s);
      if Displayed(cfg, c0, s) {
        SkippedDisplayed(cfg, c0, s, after);
      }
    }
  }

  // A clear request blanks what was shown before, or leaves it alone.
  lemma ClearRequestShows(cfg: Config, c0: Cluster, s: State, after: State)
    requires s.phase.Painted? && !s.hudAbsent && after == TakesRequests(cfg, s, OK)
    ensures Displayed(cfg, c0, s) || s.clearReq || s.fullClearReq ==> Displayed(cfg, c0, after)
    ensures !s.clearReq && !s.fullClearReq ==> after.sent == s.sent
  {
    if s.clearReq || s.fullClearReq {
      DeliverShows(c0, s, after, ClearOutcome(cfg, s, OK));
      if KeepsSign(cfg, s) {
        PushShows(cfg, ClusterOf(c0, s), NO_MANEUVER, ManeuverChanged(NO_MANEUVER, s.prev), s.sync, s.phase.splim);
      } else {
        ClearShows(ClusterOf(c0, s), s.sync);
      }
    }
  }

  // The HUD stays present and every call is accepted.
  predicate Accepts(e: Event) {
    && (e.Paint? || e.TakeRequests? ==> e.rc == OK)
    && (e.HudStatus? ==> !e.absent)
  }

  predicate AllAccept(events: seq<Event>) {
    forall i :: 0 <= i < |events| ==> Accepts(events[i])
  }

  // Nothing was sent yet, or the cluster shows what the sender holds.
  predicate Keeps(cfg: Config, c0: Cluster, s: State) {
    !s.hudAbsent && (s.sent == [] || Displayed(cfg, c0, s))
  }

  lemma QuietStepShows(cfg: Config, c0: Cluster, s: State, s': State)
    requires s'.sent == s.sent && s'.sync == s.sync && Holds(s') == Holds(s)
    ensures Displayed(cfg, c0, s) ==> Displayed(cfg, c0, s')
  {
  }

  lemma StepShows(cfg: Config, c0: Cluster, s: State, e: Event)
    requires Keeps(cfg, c0, s) && Accepts(e)
    ensures Keeps(cfg, c0, Next(cfg, s, e))
    ensures Displayed(cfg, c0, s) ==> Displayed(cfg, c0, Next(cfg, s, e))
  {
    if e.Paint? && s.phase.Chosen? {
      PaintShows(cfg, c0, s, Paints(cfg, s, OK));
    } else if e.TakeRequests? && s.phase.Painted? {
      ClearRequestShows(cfg, c0, s, TakesRequests(cfg, s, OK));
    } else {
      QuietStepShows(cfg, c0, s, Next(cfg, s, e));
    }
  }

  // Display refinement: after any run with accepted sends, from the first frame on, the
  // cluster shows the maneuver the sender holds, or is wiped while that is none; a sender
  // that starts on such a cluster needs no frame for that.
  lemma {:induction false} CarplayRefinement(cfg: Config, c0: Cluster, s0: State, events: seq<Event>)
    requires AllAccept(events) && Keeps(cfg, c0, s0)
    ensures var s := Exec(cfg, s0, events);
            && Keeps(cfg, c0, s)
            && (s.sent != [] || Displayed(cfg, c0, s0) ==> Displayed(cfg, c0, s))
  {
    if events != [] {
      CarplayRefinement(cfg, c0, s0, Init(events));
      assert Last(events) == events[|events| - 1];
      StepShows(cfg, c0, Exec(cfg, s0, Init(events)), Last(events));
    }
  }

  // The start-up clear, sent when no route is live, leaves such a cluster.
  lemma StartDisplayed(cfg: Config, c: Cluster, c0: Cluster)
    requires c0 == ShowAll(c, Clear(0, OK).frames)
    ensures Displayed(cfg, c0, START)
  {
    ClearShows(c, 0);
  }
}
