// The accumulator and the transport together (hud.cpp, vbs_tx.cpp): one callback is up to
// three seqlock writes, the transport may drop any of them, and the sender may read after
// each.
module FeedRuns {
  import opened Machine
  import opened Seqlock
  import opened VbsTx
  import opened Nav16Feed
  import opened Transports
  import VbsSender

  // ---------------------------------------------------------------------------
  // What all the writes of a history leave
  // ---------------------------------------------------------------------------

  // The snapshot after a sequence of writes.
  function After(start: Snapshot, ws: seq<VbsSender.Event>): Snapshot {
    if ws == [] then start else VbsSender.Apply(After(start, Init(ws)), Last(ws))
  }

  lemma {:induction false} AfterConcat(start: Snapshot, xs: seq<VbsSender.Event>, ys: seq<VbsSender.Event>)
    ensures After(start, xs + ys) == After(After(start, xs), ys)
    decreases |ys|
  {
    if ys == [] {
      assert xs + ys == xs;
    } else {
      assert Init(xs + ys) == xs + Init(ys);
      AfterConcat(start, xs, Init(ys));
    }
  }

  lemma AfterOne(s: Snapshot, w: VbsSender.Event, up: bool)
    ensures After(s, TakenOne(w, up)) == if up then VbsSender.Apply(s, w) else s
  {
    if up {
      assert Init([w]) == [];
    }
  }

  lemma EmissionPuts(s: Snapshot, acc: HudState, up: Taken)
    ensures After(s, EmissionWrites(acc, up)) == Put(s, acc, up)
  {
    var turn := VbsSender.NextTurn(Some(acc.road), acc.glyph);
    var distance := VbsSender.Distance(acc.distance, acc.unit);
    var lanes := VbsSender.LaneGuidance(Some(LaneCodes(acc.lanes)));
    var s1 := if up[0] then VbsSender.Apply(s, turn) else s;
    var s2 := if up[1] then VbsSender.Apply(s1, distance) else s1;
    AfterOne(s, turn, up[0]);
    AfterConcat(s, TakenOne(turn, up[0]), TakenOne(distance, up[1]));
    AfterOne(s1, distance, up[1]);
    AfterConcat(s, TakenOne(turn, up[0]) + TakenOne(distance, up[1]), TakenOne(lanes, up[2]));
    AfterOne(s2, lanes, up[2]);
  }

  lemma CallbackHeld(foldLatin: bool, start: Snapshot, h: seq<Callback>, before: Snapshot)
    requires h != [] && before == Held(foldLatin, start, Init(h))
    ensures After(before, CallbackWrites(foldLatin, h)) == Held(foldLatin, start, h)
  {
    if Ends(Last(h).e) {
      AfterOne(before, BLANKING, Last(h).up[0]);
    } else if Opens(foldLatin, h) {
      EmissionPuts(before, Accumulated(foldLatin, h), Last(h).up);
    }
  }

  lemma {:induction false} WritesHeld(foldLatin: bool, start: Snapshot, h: seq<Callback>)
    ensures After(start, Writes(foldLatin, h)) == Held(foldLatin, start, h)
  {
    if h != [] {
      WritesHeld(foldLatin, start, Init(h));
      AfterConcat(start, Writes(foldLatin, Init(h)), CallbackWrites(foldLatin, h));
      CallbackHeld(foldLatin, start, h, Held(foldLatin, start, Init(h)));
    }
  }

  // ---------------------------------------------------------------------------
  // Which writes a copy has seen
  // ---------------------------------------------------------------------------

  function Count(taken: bool): nat {
    if taken then 1 else 0
  }

  // Only the first j of the writes taken.
  function FirstTaken(up: Taken, j: nat): Taken {
    [up[0] && j > 0, up[1] && j > Count(up[0]), up[2] && j > Count(up[0]) + Count(up[1])]
  }

  lemma FirstTakenWrites(acc: HudState, up: Taken, j: nat)
    requires j <= |EmissionWrites(acc, up)|
    ensures EmissionWrites(acc, FirstTaken(up, j)) == EmissionWrites(acc, up)[..j]
  {
  }

  // A callback cut short: its writes up to number m.
  function Cut(up: Taken, m: nat): Taken {
    [up[0] && m > 0, up[1] && m > 1, up[2] && m > 2]
  }

  predicate IsCut(up: Taken, whole: Taken) {
    up == Cut(whole, 1) || up == Cut(whole, 2) || up == whole
  }

  // A point of a history: some of its callbacks, the last one perhaps cut short after its
  // first or second write.
  predicate PointOf(r: seq<Callback>, h: seq<Callback>) {
    && |r| <= |h|
    && (r != [] ==>
          && Init(r) == h[..|r| - 1] && Last(r).e == h[|r| - 1].e
          && IsCut(Last(r).up, h[|r| - 1].up))
  }

  // The point the first k writes of a history amount to.
  function Reached(foldLatin: bool, h: seq<Callback>, k: nat): seq<Callback>
    requires k <= |Writes(foldLatin, h)|
  {
    var before := if h == [] then 0 else |Writes(foldLatin, Init(h))|;
    if k == |Writes(foldLatin, h)| then h
    else if k > before then Init(h) + [Callback(Last(h).e, FirstTaken(Last(h).up, k - before))]
    else Reached(foldLatin, Init(h), k)
  }

  lemma CutShort(foldLatin: bool, h: seq<Callback>, r: seq<Callback>, j: nat)
    requires h != [] && 0 < j < |CallbackWrites(foldLatin, h)|
    requires r == Init(h) + [Callback(Last(h).e, FirstTaken(Last(h).up, j))]
    ensures CallbackWrites(foldLatin, r) == CallbackWrites(foldLatin, h)[..j]
    ensures PointOf(r, h)
  {
    var up := Last(h).up;
    assert Init(r) == Init(h) && Last(r).e == Last(h).e;
    assert Opens(foldLatin, r) == Opens(foldLatin, h) && Accumulated(foldLatin, r) == Accumulated(foldLatin, h);
    FirstTakenWrites(Accumulated(foldLatin, h), up, j);
    assert Last(r).up == Cut(up, if j > Count(up[0]) then 2 else 1);
  }

  lemma CutWrites(foldLatin: bool, h: seq<Callback>, r: seq<Callback>, j: nat)
    requires h != [] && r != [] && Init(r) == Init(h) && j <= |CallbackWrites(foldLatin, h)|
    requires CallbackWrites(foldLatin, r) == CallbackWrites(foldLatin, h)[..j]
    ensures Writes(foldLatin, r) == Writes(foldLatin, h)[..|Writes(foldLatin, Init(h))| + j]
  {
  }

  lemma {:induction false} ReachedWrites(foldLatin: bool, h: seq<Callback>, k: nat, r: seq<Callback>)
    requires k <= |Writes(foldLatin, h)| && r == Reached(foldLatin, h, k)
    ensures Writes(foldLatin, r) == Writes(foldLatin, h)[..k]
    ensures PointOf(r, h)
    decreases |h|
  {
    if k == |Writes(foldLatin, h)| {
    } else {
      var before := Writes(foldLatin, Init(h));
      if k > |before| {
        var j := k - |before|;
        WritesGrow(foldLatin, h);
        ReachedWithin(foldLatin, h, j, |before|);
        CutShort(foldLatin, h, r, j);
        CutWrites(foldLatin, h, r, j);
      } else {
        ReachedWrites(foldLatin, Init(h), k, r);
        assert r != [] ==> Init(h)[..|r| - 1] == h[..|r| - 1];
      }
    }
  }

  // So after any number of writes the transport holds, part by part, what a history held
  // in which the writes still to come had been dropped.
  lemma CopyReads(foldLatin: bool, start: Snapshot, h: seq<Callback>, k: nat, r: seq<Callback>)
    requires k <= |Writes(foldLatin, h)| && r == Reached(foldLatin, h, k)
    ensures PointOf(r, h)
    ensures After(start, Writes(foldLatin, h)[..k]) == Held(foldLatin, start, r)
  {
    ReachedWrites(foldLatin, h, k, r);
    WritesHeld(foldLatin, start, r);
  }

  // ---------------------------------------------------------------------------
  // Which distances belong to a maneuver
  // ---------------------------------------------------------------------------

  // None, or the distance of a position received since the maneuver or road last changed.
  predicate Belongs(foldLatin: bool, h: seq<Callback>, d: (int32, byte)) {
    if h == [] || Resets(Last(h).e) || Reannounces(foldLatin, h) then d == (0, 0)
    else (HasDistance(Last(h).e) && d == ShownDistance(Last(h).e.p)) || Belongs(foldLatin, Init(h), d)
  }

  lemma {:induction false} FreshBelongs(foldLatin: bool, h: seq<Callback>)
    ensures Belongs(foldLatin, h, FreshDistance(foldLatin, h))
  {
    if h != [] && !Resets(Last(h).e) && !Reannounces(foldLatin, h) && !HasDistance(Last(h).e) {
      FreshBelongs(foldLatin, Init(h));
    }
  }

  function DistanceIn(s: Snapshot): (int32, byte) {
    (s.distance, s.unit)
  }

  // The one stale point: a guidance changed maneuver or road while a distance was held, and
  // its own distance write has not arrived, still to come or dropped.
  predicate StalePoint(foldLatin: bool, r: seq<Callback>) {
    && r != [] && Last(r).e.OnGuidance? && !Last(r).up[1]
    && Reannounces(foldLatin, r) && FreshDistance(foldLatin, Init(r)) != (0, 0)
  }

  // The latest turn arrived, and so did the latest distance or the one before it.
  predicate Followed(foldLatin: bool, r: seq<Callback>) {
    Current(foldLatin, r, 0) && (Current(foldLatin, r, 1) || (r != [] && Current(foldLatin, Init(r), 1)))
  }

  lemma AccumulatedShows(foldLatin: bool, h: seq<Callback>, acc: HudState)
    requires acc == Accumulated(foldLatin, h)
    ensures acc.glyph == Announced(foldLatin, h).0 && acc.road == Announced(foldLatin, h).1
    ensures (acc.distance, acc.unit) == FreshDistance(foldLatin, h)
  {
    AccumulatorFresh(foldLatin, h);
  }

  lemma TurnShows(foldLatin: bool, start: Snapshot, r: seq<Callback>, x: Snapshot)
    requires Current(foldLatin, r, 0) && x == Held(foldLatin, start, r)
    ensures x.icon == Announced(foldLatin, r).0 && x.road == CopyStr(Announced(foldLatin, r).1, ROAD_CAP)
  {
    SnapshotTracks(foldLatin, start, r, 0);
    AccumulatedShows(foldLatin, r, Accumulated(foldLatin, r));
  }

  lemma DistanceShows(foldLatin: bool, start: Snapshot, r: seq<Callback>)
    requires Current(foldLatin, r, 1)
    ensures DistanceIn(Arrived(foldLatin, start, r, 1)) == FreshDistance(foldLatin, r)
  {
    SnapshotTracks(foldLatin, start, r, 1);
    AccumulatedShows(foldLatin, r, Accumulated(foldLatin, r));
  }

  lemma ReannouncingOpens(foldLatin: bool, r: seq<Callback>)
    requires r != [] && Last(r).e.OnGuidance? && Reannounces(foldLatin, r)
    ensures Opens(foldLatin, r)
  {
    AccumulatedShows(foldLatin, r, Accumulated(foldLatin, r));
    AccumulatedShows(foldLatin, Init(r), Accumulated(foldLatin, Init(r)));
  }

  // The distance held before an emission, seen with the maneuver it announces.
  lemma HeldDistance(foldLatin: bool, r: seq<Callback>, d: (int32, byte))
    requires r != [] && AsksGate(Last(r).e) && d == FreshDistance(foldLatin, Init(r))
    ensures Belongs(foldLatin, r, d) <==> !(Last(r).e.OnGuidance? && Reannounces(foldLatin, r) && d != (0, 0))
  {
    FreshBelongs(foldLatin, Init(r));
  }

  // A copy shows the maneuver and road announced at its point, with a distance that belongs
  // to them exactly when the point is not a stale one.
  lemma CopyShows(foldLatin: bool, start: Snapshot, r: seq<Callback>, x: Snapshot)
    requires Followed(foldLatin, r) && x == Held(foldLatin, start, r)
    ensures x.icon == Announced(foldLatin, r).0 && x.road == CopyStr(Announced(foldLatin, r).1, ROAD_CAP)
    ensures Belongs(foldLatin, r, DistanceIn(x)) <==> !StalePoint(foldLatin, r)
  {
    TurnShows(foldLatin, start, r, x);
    if StalePoint(foldLatin, r) {
      ReannouncingOpens(foldLatin, r);
    }
    if Current(foldLatin, r, 1) {
      DistanceShows(foldLatin, start, r);
      FreshBelongs(foldLatin, r);
    } else {
      DistanceShows(foldLatin, start, Init(r));
      HeldDistance(foldLatin, r, DistanceIn(x));
    }
  }

  lemma PointActive(h: seq<Callback>, r: seq<Callback>)
    requires AlwaysActive(h) && PointOf(r, h) && r != []
    ensures AlwaysActive(Init(r)) && Last(r).up[0]
  {
    assert h[|r| - 1].up == ALL;
  }

  // With an active transport that is every point of a session but those before its first
  // distance write.
  lemma ActivePoints(foldLatin: bool, h: seq<Callback>, r: seq<Callback>)
    requires AlwaysActive(h) && PointOf(r, h) && r != []
    requires Written(Init(r)) || (AsksGate(Last(r).e) && Last(r).up[1]) || Ends(Last(r).e)
    requires !Last(r).e.SessionStart?
    ensures Followed(foldLatin, r)
  {
    PointActive(h, r);
    GatedIsCurrent(foldLatin, Init(r));
  }

  lemma NothingAnnounced(foldLatin: bool, now: seq<Callback>, d: (int32, byte))
    requires now != [] && Last(now).e.OnGuidance? && Announced(foldLatin, Init(now)) == (0, [])
    ensures Reannounces(foldLatin, now)
    ensures Belongs(foldLatin, now, d) <==> d == (0, 0)
  {
    GlyphRange(Last(now).e.g);
  }

  // The first guidance after a session start, while its distance write has not arrived,
  // still shows the distance an earlier session left behind; it belongs only when that is
  // none.
  lemma FirstEmission(foldLatin: bool, start: Snapshot, r: seq<Callback>, x: Snapshot)
    requires r != [] && Last(r).e.OnGuidance? && Announced(foldLatin, Init(r)) == (0, [])
    requires Last(r).up[0] && !Last(r).up[1] && x == Held(foldLatin, start, r)
    ensures x.icon == Announced(foldLatin, r).0 != 0
    ensures DistanceIn(x) == DistanceIn(Held(foldLatin, start, Init(r)))
    ensures Belongs(foldLatin, r, DistanceIn(x)) <==> DistanceIn(x) == (0, 0)
  {
    NothingAnnounced(foldLatin, r, DistanceIn(x));
    ReannouncingOpens(foldLatin, r);
    TurnShows(foldLatin, start, r, x);
    GlyphRange(Last(r).e.g);
  }

  lemma ThreeWrites(foldLatin: bool, h: seq<Callback>)
    requires h != [] && Opens(foldLatin, h) && Last(h).up == ALL
    ensures |CallbackWrites(foldLatin, h)| == 3
  {
    var ws := EmissionWrites(Accumulated(foldLatin, h), ALL);
    assert |ws| == 3;
  }

  lemma OneTaken()
    ensures FirstTaken(ALL, 1) == [true, false, false] == Cut(ALL, 1)
  {
  }

  lemma WritesGrow(foldLatin: bool, h: seq<Callback>)
    requires h != []
    ensures |Writes(foldLatin, h)| == |Writes(foldLatin, Init(h))| + |CallbackWrites(foldLatin, h)|
  {
  }

  // The point within a callback.
  lemma ReachedWithin(foldLatin: bool, h: seq<Callback>, j: nat, before: nat)
    requires h != [] && j > 0 && before == |Writes(foldLatin, Init(h))| && before + j < |Writes(foldLatin, h)|
    ensures Reached(foldLatin, h, before + j) == Init(h) + [Callback(Last(h).e, FirstTaken(Last(h).up, j))]
  {
  }

  // The point after the first write of an emission.
  lemma FirstWriteOf(foldLatin: bool, h: seq<Callback>, r: seq<Callback>, n: nat)
    requires h != [] && Opens(foldLatin, h) && Last(h).up == ALL && n == |Writes(foldLatin, Init(h))|
    requires r == Init(h) + [Callback(Last(h).e, [true, false, false])]
    ensures n + 1 <= |Writes(foldLatin, h)| && r == Reached(foldLatin, h, n + 1)
    ensures PointOf(r, h)
  {
    ThreeWrites(foldLatin, h);
    OneTaken();
    WritesGrow(foldLatin, h);
    ReachedWithin(foldLatin, h, 1, n);
  }

  lemma DistanceAnnounced(foldLatin: bool, g: Event, d: Event, two: seq<Callback>)
    requires g.OnGuidance? && HasDistance(d) && two == [Callback(g, ALL), Callback(d, ALL)]
    ensures Announced(foldLatin, two) == Announced(foldLatin, [Callback(g, ALL)])
    ensures FreshDistance(foldLatin, two) == ShownDistance(d.p)
    ensures AlwaysActive(two) && Written(two)
  {
    assert Init(two) == [Callback(g, ALL)];
  }

  // Stale points exist: a guidance, a position with a distance, a guidance that differs,
  // and a copy after the first write of the latter.
  lemma StalePointExists(foldLatin: bool, g1: Event, d: Event, g2: Event, two: seq<Callback>, h: seq<Callback>,
                         r: seq<Callback>, n: nat)
    requires g1.OnGuidance? && g2.OnGuidance? && HasDistance(d) && ShownDistance(d.p) != (0, 0)
    requires Announced(foldLatin, [Callback(g1, ALL)]) != Announced(foldLatin, [Callback(g2, ALL)])
    requires two == [Callback(g1, ALL), Callback(d, ALL)] && h == two + [Callback(g2, ALL)]
    requires r == two + [Callback(g2, [true, false, false])] && n == |Writes(foldLatin, two)|
    ensures n + 1 <= |Writes(foldLatin, h)| && r == Reached(foldLatin, h, n + 1)
    ensures StalePoint(foldLatin, r) && Followed(foldLatin, r)
  {
    assert Init(h) == two && Init(r) == two;
    DistanceAnnounced(foldLatin, g1, d, two);
    ReannouncingOpens(foldLatin, h);
    FirstWriteOf(foldLatin, h, r, n);
    ActivePoints(foldLatin, h, r);
  }

  // ---------------------------------------------------------------------------
  // Every interleaving
  // ---------------------------------------------------------------------------

  // The completed writes of a run are the feed's, in order; each is one bracketed write of
  // a producer, in any order and number of stores. The last callback may still be writing.
  ghost predicate Performs<T>(history: seq<seq<T>>, decode: seq<T> -> Snapshot, start: Snapshot,
                              ws: seq<VbsSender.Event>) {
    && 0 < |history| <= |ws| + 1
    && forall k :: 0 <= k < |history| ==> decode(history[k]) == After(start, ws[..k])
  }

  // In every interleaving of callbacks and reads, whichever writes were dropped, an accepted
  // copy is what some point of the history held, and shows its maneuver with a distance of
  // its own unless that point is a stale one; copies never go back.
  lemma FeedCopies<T>(s0: State<T>, steps: seq<Step<T>>, s: State<T>, decode: seq<T> -> Snapshot, start: Snapshot,
                      foldLatin: bool, h: seq<Callback>, n: nat, r: seq<Callback>)
    requires Start(s0) && Run(s0, steps, s) && n < |s.accepted|
    requires Faithful(s.accepted[n].first, s.accepted[n].second)
    requires Performs(s.history, decode, start, Writes(foldLatin, h))
    requires AcceptedCopy(s, n).second / 2 <= |Writes(foldLatin, h)|
    requires r == Reached(foldLatin, h, AcceptedCopy(s, n).second / 2)
    ensures var x := decode(s.accepted[n].cells);
            && PointOf(r, h) && x == Held(foldLatin, start, r)
            && (Followed(foldLatin, r) ==>
                  && x.icon == Announced(foldLatin, r).0 && x.road == CopyStr(Announced(foldLatin, r).1, ROAD_CAP)
                  && (Belongs(foldLatin, r, DistanceIn(x)) <==> !StalePoint(foldLatin, r)))
  {
    AcceptedCopiesExact(s0, steps, s, n, n);
    CopyReads(foldLatin, start, h, s.accepted[n].second / 2, r);
    if Followed(foldLatin, r) {
      CopyShows(foldLatin, start, r, decode(s.accepted[n].cells));
    }
  }

  function AcceptedCopy<T>(s: State<T>, n: nat): Copy<T>
    requires n < |s.accepted|
  {
    s.accepted[n]
  }

  lemma LastPerformed<T>(history: seq<seq<T>>, decode: seq<T> -> Snapshot, foldLatin: bool, h: seq<Callback>,
                         ws: seq<VbsSender.Event>)
    requires ws == Writes(foldLatin, h) && Performs(history, decode, BLANK, ws) && |history| == |ws| + 1
    ensures decode(Last(history)) == Held(foldLatin, BLANK, h)
  {
    WritesHeld(foldLatin, BLANK, h);
    assert ws[..|history| - 1] == ws;
  }

  // And a sender that sleeps once the callbacks have written everything has the cluster
  // showing, part by part, the last writes taken; with none dropped since the latest
  // opening that is the encoded accumulator.
  lemma SleepingSenderShowsFeed<T>(s0: State<T>, steps: seq<Step<T>>, s: State<T>, decode: seq<T> -> Snapshot,
                                   foldLatin: bool, h: seq<Callback>)
    requires Start(s0) && Run(s0, steps, s) && NoWrap(0, s.accepted)
    requires decode(s0.history[0]) == BLANK
    requires Performs(s.history, decode, BLANK, Writes(foldLatin, h)) && |s.history| == |Writes(foldLatin, h)| + 1
    requires Turns(Thread(FIRST, 0), s.accepted, decode).lastProcessed == Wrap(s.count)
    requires Faithful(LastCount(0, s.accepted), s.count)
    ensures var t := Turns(Thread(FIRST, 0), s.accepted, decode);
            && Synchronised(t.sender) && Seen(t.sender.cluster) == ViewOf(Held(foldLatin, BLANK, h))
            && (Whole(foldLatin, h) ==> Seen(t.sender.cluster) == ViewOf(Encoded(Accumulated(foldLatin, h))))
  {
    VbsShowsLatestWrite(s0, steps, s, decode);
    LastPerformed(s.history, decode, foldLatin, h, Writes(foldLatin, h));
    if Whole(foldLatin, h) {
      WholeTracks(foldLatin, BLANK, h);
    }
  }
}
