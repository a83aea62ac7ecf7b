// What the driver reads of a CarPlay maneuver (hud_send.cpp), field by field: icon, street,
// distance and unit of the maneuver held, the speed limit polled, and when the cluster is
// told to refresh.
module CarplayReads {
  import opened Machine
  import opened CarplayHud
  import opened CarplayDisplay
  import CarplayLatest
  import Letters
  import Translit
  import VbsTx

  // ---------------------------------------------------------------------------
  // The maneuver
  // ---------------------------------------------------------------------------

  // A road reads as it was sent; with folding on, letter by letter, a question mark for
  // what the font lacks. No road is a blank.
  predicate ReadsStreet(normalize: bool, text: seq<byte>, road: seq<byte>) {
    && (road == [] ==> text == [0x20])
    && (road != [] && !normalize ==> text == road)
    && (road != [] && normalize && Translit.Decode(road).Some? ==>
          Translit.Decode(text) == Some(Letters.ReadAll(Translit.Decode(road).value, 0x3F)))
  }

  // The distance is cut to 16 bits at its ends, a missing unit is metres.
  predicate ReadsManeuver(cfg: Config, c: VbsTx.Cluster, m: Maneuver) {
    && c.display.distance == (if m.distance < 0 then 0 else if m.distance > 65535 then 65535 else m.distance)
    && c.display.unit == (if m.unit == 0 then 1 else m.unit)
    && c.display.speedUnit == (if c.display.speedLimit == 0 then 0 else 1)
    && c.display.sync == c.street.sync == c.sync
    && if cfg.debug && Icon(m) == 0 then c.display.icon == 1
       else c.display.icon == Icon(m) && ReadsStreet(cfg.normalize, c.street.text, m.road)
  }

  predicate ReadsNothing(c: VbsTx.Cluster) {
    c.display.icon == 0 && c.display.distance == 0 && c.display.speedLimit == 0 && c.street.text == [0x20]
  }

  lemma StreetReads(cfg: Config, road: seq<byte>)
    ensures ReadsStreet(cfg.normalize, StreetText(cfg, road), road)
  {
    if cfg.normalize && road != [] && Translit.Decode(road).Some? {
      Letters.FoldedReads(road, Translit.Decode(road).value, 0x3F);
    }
  }

  lemma ManeuverReads(cfg: Config, c: VbsTx.Cluster, m: Maneuver)
    requires ShowsManeuver(cfg, c, m)
    ensures ReadsManeuver(cfg, c, m)
  {
    StreetReads(cfg, m.road);
  }

  lemma NothingReads(c: VbsTx.Cluster)
    requires ShowsNothing(c)
    ensures ReadsNothing(c)
  {
  }

  // Nothing of this maneuver would show, but for its road's blank.
  predicate Invisible(m: Maneuver) {
    m.road == [] && m.event == 0 && m.side == 0 && m.number == 0 && m.distance == 0 && m.unit == 0 && m.angle == 0
  }

  // After any run with accepted sends, from the first frame on, the cluster reads as the
  // maneuver the sender holds, or as nothing while that is none.
  lemma CarplayRead(cfg: Config, c0: VbsTx.Cluster, s0: State, events: seq<Event>, s: State)
    requires AllAccept(events) && Keeps(cfg, c0, s0) && s == Exec(cfg, s0, events)
    requires s.sent != [] || Displayed(cfg, c0, s0)
    ensures var c := ClusterOf(c0, s);
            ReadsManeuver(cfg, c, Holds(s)) || (ReadsNothing(c) && Invisible(Holds(s)))
  {
    CarplayRefinement(cfg, c0, s0, events);
    if ShowsManeuver(cfg, ClusterOf(c0, s), Holds(s)) {
      ManeuverReads(cfg, ClusterOf(c0, s), Holds(s));
    } else {
      NothingReads(ClusterOf(c0, s));
    }
  }

  // A sleeping sender's cluster reads as the maneuver written last, exactly when its latest
  // paint or clear took that over.
  lemma LatestRead(cfg: Config, c0: VbsTx.Cluster, s0: State, events: seq<Event>, s: State)
    requires CarplayLatest.ComesUp(s0) && Keeps(cfg, c0, s0) && AllAccept(events)
    requires s == Exec(cfg, s0, events) && s.phase.Waiting? && s.lastProcessed == s.count
    requires s.sent != [] || Displayed(cfg, c0, s0)
    ensures var c := ClusterOf(c0, s);
            var m := if CarplayLatest.TookOver(cfg, s0, events) then s.snapshot else NO_MANEUVER;
            ReadsManeuver(cfg, c, m) || (ReadsNothing(c) && Invisible(m))
  {
    CarplayLatest.SleepsUpToDate(cfg, s0, events, s);
    CarplayRead(cfg, c0, s0, events, s);
  }

  // --- the debug label ------------------------------------------------------------------

  lemma {:induction false} DecimalNoNul(n: nat)
    ensures 0 !in Decimal(n) && Decimal(n) != []
    ensures n < 10 ==> |Decimal(n)| == 1
    ensures n < 100 ==> |Decimal(n)| <= 2
  {
    if n >= 10 {
      DecimalNoNul(n / 10);
    }
  }

  lemma PrefixKept(full: seq<byte>, p: seq<byte>, cap: nat)
    requires p <= full && 0 !in p && |p| < cap
    ensures p <= CopyStr(full, cap)
  {
    var r := CopyStr(full, cap);
    assert forall i :: 0 <= i < |p| ==> full[i] == p[i] && p[i] != 0;
  }

  // For an event of the table the label starts "EV=", the event, " S=", the side.
  lemma LabelReads(m: Maneuver)
    requires m.event < 20 && m.side < 10
    ensures [0x45, 0x56, 0x3D] + Decimal(m.event) + [0x20, 0x53, 0x3D] + Decimal(m.side) <= DebugLabel(m)
  {
    DecimalNoNul(m.event);
    DecimalNoNul(m.side);
    var p := [0x45, 0x56, 0x3D] + Decimal(m.event) + [0x20, 0x53, 0x3D] + Decimal(m.side);
    PrefixKept(p + [0x20, 0x41, 0x3D] + Signed(m.angle), p, 33);
  }

  // ---------------------------------------------------------------------------
  // The speed limit
  // ---------------------------------------------------------------------------

  // The limit as the sign shows it: none with the sign off, dark on odd ticks while the car
  // is too fast, otherwise the one polled.
  predicate ReadsLimit(cfg: Config, limit: uint16, over: bool, tick: nat, shown: uint16) {
    shown == if !cfg.speedLimit || (over && tick % 2 == 1) then 0 else limit
  }

  // A turn that pushes shows the maneuver it chose around the limit it polled.
  lemma LimitShown(cfg: Config, c0: VbsTx.Cluster, s: State, limit: uint16, over: bool, mid: State, after: State)
    requires s.phase.Read? && !s.hudAbsent
    requires mid == Next(cfg, s, Choose(limit, over)) && after == Next(cfg, mid, Paint(OK)) && Pushes(cfg, mid)
    ensures ReadsLimit(cfg, limit, over, s.tick, ClusterOf(c0, after).display.speedLimit)
    ensures ReadsManeuver(cfg, ClusterOf(c0, after), after.prev)
  {
    PaintShows(cfg, c0, mid, after);
    ManeuverReads(cfg, ClusterOf(c0, after), after.prev);
  }

  // Too fast, the sign blinks: of two ticks in a row exactly one shows the limit.
  lemma SignBlinks(cfg: Config, s: State, limit: uint16)
    requires s.phase.Read? && cfg.speedLimit && limit != 0
    ensures var now := Next(cfg, s, Choose(limit, true)).phase;
            var later := Next(cfg, Next(cfg, s, Tick), Choose(limit, true)).phase;
            && {now.painted, later.painted} == {0, limit}
            && now.splim == later.splim == limit
  {
  }

  // A new limit is always painted; without one or a new write a standing limit is kept
  // alive, and so is a live route.
  lemma LimitPainted(cfg: Config, s: State, limit: uint16, over: bool)
    requires s.phase.Read?
    ensures var mid, splim := Next(cfg, s, Choose(limit, over)), if cfg.speedLimit then limit else 0;
            && (splim != s.prevSplim ==> Refreshes(mid) && Pushes(cfg, mid))
            && (splim == s.prevSplim && s.phase.count == s.lastProcessed ==>
                  !Refreshes(mid) && (Pushes(cfg, mid) <==> s.guidance || splim != 0))
  {
  }

  // With the HUD absent nothing is sent.
  lemma AbsentSilent(cfg: Config, s: State, e: Event)
    requires s.hudAbsent
    ensures Next(cfg, s, e).sent == s.sent && Next(cfg, s, e).sync == s.sync
  {
  }

  // ---------------------------------------------------------------------------
  // Refreshes and clears
  // ---------------------------------------------------------------------------

  lemma PushSync(cfg: Config, cur: Maneuver, bump: bool, sync: byte, painted: uint16)
    ensures Push(cfg, cur, bump, sync, painted, OK).sync != sync <==> bump || (cfg.debug && Icon(cur) == 0)
  {
    VbsTx.BumpAdvances(sync);
  }

  // The cluster is told to refresh exactly when the maneuver taken over has another road,
  // event, side or number, or the overlay shows.
  lemma RefreshExactly(cfg: Config, s: State, after: State)
    requires s.phase.Chosen? && !s.hudAbsent && Pushes(cfg, s) && Refreshes(s) && after == Paints(cfg, s, OK)
    ensures var cur, prev := s.phase.cur, s.prev;
            after.sync != s.sync <==>
              || cur.road != prev.road || cur.event != prev.event || cur.side != prev.side || cur.number != prev.number
              || (cfg.debug && Icon(cur) == 0)
  {
    var bump := ManeuverChanged(s.phase.cur, s.prev);
    PaintPushes(cfg, s, s.phase.cur, bump, Push(cfg, s.phase.cur, bump, s.sync, s.phase.painted, OK));
    PushSync(cfg, s.phase.cur, bump, s.sync, s.phase.painted);
  }

  // A request to clear: a gone session wipes everything, a navigation end keeps the sign
  // when there is one and wipes everything otherwise.
  lemma ClearRead(cfg: Config, c0: VbsTx.Cluster, s: State, after: State)
    requires s.phase.Painted? && !s.hudAbsent && (s.clearReq || s.fullClearReq)
    requires after == Next(cfg, s, TakeRequests(OK))
    ensures var c := ClusterOf(c0, after);
            if !s.fullClearReq && cfg.speedLimit && s.phase.splim > 0
            then ReadsManeuver(cfg, c, NO_MANEUVER) && c.display.speedLimit == s.phase.splim
            else ReadsNothing(c)
    ensures !after.clearReq && !after.fullClearReq && after.phase.Committing?
    ensures var done := Next(cfg, after, Commit);
            && !done.guidance && done.prev == NO_MANEUVER
            && done.prevSplim == if !s.fullClearReq && cfg.speedLimit then s.phase.splim else 0
  {
    DeliverShows(c0, s, after, ClearOutcome(cfg, s, OK));
    if KeepsSign(cfg, s) {
      PushShows(cfg, ClusterOf(c0, s), NO_MANEUVER, ManeuverChanged(NO_MANEUVER, s.prev), s.sync, s.phase.splim);
      ManeuverReads(cfg, ClusterOf(c0, after), NO_MANEUVER);
    } else {
      ClearShows(ClusterOf(c0, s), s.sync);
      NothingReads(ClusterOf(c0, after));
    }
  }
}
