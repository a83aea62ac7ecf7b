// The two HUD transports end to end: producer writes, seqlock reads and the sender loop
// of vbs_tx.cpp and svcnavi_tx.cpp over every interleaving.
module Transports {
  import opened Machine
  import opened Seqlock
  import opened VbsTx

  // The comparisons of wrapped counters a sender makes over its log of accepted copies all
  // tell the truth: the two loads of each read, and each accepted count against the one
  // processed before it, starting from `last`.
  ghost predicate NoWrap<T>(last: nat, log: seq<Copy<T>>)
    decreases |log|
  {
    log == [] ||
    (Faithful(log[0].first, log[0].second) && Faithful(last, log[0].second) && NoWrap(log[0].second, log[1..]))
  }

  // The count the sender processed last.
  function LastCount<T>(last: nat, log: seq<Copy<T>>): nat {
    if log == [] then last else Last(log).second
  }

  lemma {:induction false} NoWrapAt<T>(last: nat, log: seq<Copy<T>>, k: nat)
    requires NoWrap(last, log) && k < |log|
    ensures Faithful(log[k].first, log[k].second)
    ensures Faithful(LastCount(last, log[..k]), log[k].second)
    decreases k
  {
    if k > 0 {
      NoWrapAt(log[0].second, log[1..], k - 1);
      assert log[..k][1..] == log[1..][..k - 1];
      assert k > 1 ==> Last(log[..k]) == Last(log[1..][..k - 1]);
    }
  }

  lemma {:induction false} NoWrapInit<T>(last: nat, log: seq<Copy<T>>)
    requires NoWrap(last, log) && log != []
    ensures NoWrap(last, Init(log))
    decreases |log|
  {
    if |log| > 1 {
      assert Init(log)[1..] == Init(log[1..]);
      NoWrapInit(log[0].second, log[1..]);
    }
  }

  // Every accepted copy is exact, as AcceptedCopiesExact shows of every run.
  ghost predicate AllExact<T>(log: seq<Copy<T>>, history: seq<seq<T>>) {
    forall k :: 0 <= k < |log| ==> Exact(log[k], history)
  }

  // --- the VBS sender ------------------------------------------------------------------

  datatype Thread = Thread(sender: Sender, lastProcessed: uint32)

  function Turn<T>(t: Thread, c: Copy<T>, decode: seq<T> -> Snapshot): Thread {
    if Wrap(c.second) != t.lastProcessed
    then Thread(Process(t.sender, decode(c.cells)), Wrap(c.second))
    else t
  }

  function Turns<T>(t: Thread, log: seq<Copy<T>>, decode: seq<T> -> Snapshot): Thread {
    if log == [] then t else Turn(Turns(t, Init(log), decode), Last(log), decode)
  }

  // The sender has processed exactly the snapshot of its last accepted read.
  lemma {:induction false} TurnsFollow<T>(log: seq<Copy<T>>, history: seq<seq<T>>, decode: seq<T> -> Snapshot)
    requires AllExact(log, history) && NoWrap(0, log)
    requires history != [] && decode(history[0]) == BLANK
    ensures var t := Turns(Thread(FIRST, 0), log, decode);
            && Synchronised(t.sender) && t.lastProcessed == Wrap(LastCount(0, log))
            && LastCount(0, log) / 2 < |history|
            && t.sender.prev == decode(history[LastCount(0, log) / 2])
  {
    if log == [] {
      FirstSynchronised();
    } else {
      var before, c := Turns(Thread(FIRST, 0), Init(log), decode), Last(log);
      NoWrapInit(0, log);
      assert forall k :: 0 <= k < |Init(log)| ==> Init(log)[k] == log[k];
      TurnsFollow(Init(log), history, decode);
      NoWrapAt(0, log, |log| - 1);
      assert log[..|log| - 1] == Init(log) && log[|log| - 1] == c;
      if Wrap(c.second) != before.lastProcessed {
        DiffShows(before.sender.cluster, decode(c.cells), before.sender.prev, before.sender.sync);
      }
    }
  }

  lemma LogExact<T>(s0: State<T>, steps: seq<Step<T>>, s: State<T>)
    requires Start(s0) && Run(s0, steps, s) && NoWrap(0, s.accepted)
    ensures AllExact(s.accepted, s.history) && s0.history <= s.history && Inv(s)
  {
    RunKeeps(s0, steps, s);
    forall k | 0 <= k < |s.accepted|
      ensures Exact(s.accepted[k], s.history)
    {
      NoWrapAt(0, s.accepted, k);
      AcceptedCopiesExact(s0, steps, s, k, k);
    }
  }

  // In every interleaving of the producer with the sender, whenever the sender goes to
  // sleep because its last processed count is the current one, the cluster shows what a
  // full redraw of the latest completed write would show, maneuver, street and lanes in
  // step.
  lemma VbsShowsLatestWrite<T>(s0: State<T>, steps: seq<Step<T>>, s: State<T>, decode: seq<T> -> Snapshot)
    requires Start(s0) && Run(s0, steps, s) && NoWrap(0, s.accepted)
    requires decode(s0.history[0]) == BLANK
    ensures var t := Turns(Thread(FIRST, 0), s.accepted, decode);
            && Synchronised(t.sender) && s.history != []
            && (t.lastProcessed == Wrap(s.count) && Faithful(LastCount(0, s.accepted), s.count) ==>
                  Seen(t.sender.cluster) == ViewOf(decode(Last(s.history))))
  {
    LogExact(s0, steps, s);
    TurnsFollow(s.accepted, s.history, decode);
  }

  // --- the svcjcinavi sender ----------------------------------------------------------------

  // It emits every fresh snapshot, without looking at what it emitted before.
  datatype Emitter = Emitter(emitted: seq<nat>, lastProcessed: uint32)

  // The emissions are recorded by the number of the write they carry.
  function Emit<T>(e: Emitter, c: Copy<T>): Emitter {
    if Wrap(c.second) != e.lastProcessed then Emitter(e.emitted + [c.second / 2], Wrap(c.second)) else e
  }

  function EmitAll<T>(e: Emitter, log: seq<Copy<T>>): Emitter {
    if log == [] then e else Emit(EmitAll(e, Init(log)), Last(log))
  }

  predicate Rising(xs: seq<nat>) {
    forall i, j :: 0 <= i < j < |xs| ==> xs[i] < xs[j]
  }

  ghost predicate InOrder<T>(log: seq<Copy<T>>) {
    forall j, k :: 0 <= j < k < |log| ==> log[j].second <= log[k].second
  }

  // What the emitter knows after processing count `last`, of `n` snapshots written so far.
  predicate Emitted(e: Emitter, last: nat, n: nat) {
    && e.lastProcessed == Wrap(last) && last % 2 == 0 && last / 2 < n && Rising(e.emitted)
    && (forall i :: 0 <= i < |e.emitted| ==> 0 < e.emitted[i] <= last / 2)
    && last / 2 == (if e.emitted == [] then 0 else Last(e.emitted))
  }

  lemma EmitStep<T>(e: Emitter, c: Copy<T>, last: nat, n: nat)
    requires Emitted(e, last, n) && Faithful(last, c.second)
    requires last <= c.second && c.second % 2 == 0 && c.second / 2 < n
    ensures Emitted(Emit(e, c), c.second, n)
  {
    if Wrap(c.second) != e.lastProcessed {
      assert last / 2 < c.second / 2;
    }
  }

  lemma {:induction false} EmitsFollow<T>(log: seq<Copy<T>>, history: seq<seq<T>>)
    requires AllExact(log, history) && NoWrap(0, log) && InOrder(log) && history != []
    ensures Emitted(EmitAll(Emitter([], 0), log), LastCount(0, log), |history|)
  {
    if log != [] {
      NoWrapInit(0, log);
      EmitsFollow(Init(log), history);
      NoWrapAt(0, log, |log| - 1);
      assert log[..|log| - 1] == Init(log) && log[|log| - 1] == Last(log);
      EmitStep(EmitAll(Emitter([], 0), Init(log)), Last(log), LastCount(0, Init(log)), |history|);
    }
  }

  // Each completed write is emitted at most once and in write order, and a sleeping sender
  // has emitted the latest one.
  lemma SvcnaviEmitsInOrder<T>(s0: State<T>, steps: seq<Step<T>>, s: State<T>)
    requires Start(s0) && Run(s0, steps, s) && NoWrap(0, s.accepted)
    ensures var e := EmitAll(Emitter([], 0), s.accepted);
            && Rising(e.emitted)
            && (forall i :: 0 <= i < |e.emitted| ==> 0 < e.emitted[i] < |s.history|)
            && (e.lastProcessed == Wrap(s.count) && Faithful(LastCount(0, s.accepted), s.count) && s.count > 0 ==>
                  e.emitted != [] && Last(e.emitted) == |s.history| - 1)
  {
    LogExact(s0, steps, s);
    EmitsFollow(s.accepted, s.history);
  }
}
