// The snapshot protocol of the senders (vbs_tx.cpp, svcnavi_tx.cpp, hud_send.cpp): one
// producer writes a snapshot cell by cell between two increments of a counter, one
// consumer copies it cell by cell between two loads of the counter and keeps the copy
// only when both loads agree and are even. Every atomic action is one step; the steps of
// the two threads interleave freely.
module Seqlock {
  import opened Machine

  // A 32-bit counter: only the count modulo 2^32 can be observed.
  function Wrap(n: nat): uint32 {
    n % 0x1_0000_0000
  }

  // Comparing two wrapped counters tells the truth about the counts behind them.
  predicate Faithful(a: nat, b: nat) {
    Wrap(a) == Wrap(b) ==> a == b
  }

  // It does whenever fewer than 2^32 increments, that is 2^31 writes, lie in between.
  lemma CloseIsFaithful(a: nat, b: nat)
    requires a <= b < a + 0x1_0000_0000
    ensures Faithful(a, b)
  {
  }

  // A copy the consumer accepted: the counts behind its two loads, and the cells.
  datatype Copy<T> = Copy(first: nat, second: nat, cells: seq<T>)

  datatype Reader<T> =
    | Idle
    | Copying(first: nat, got: seq<Option<T>>)

  datatype State<T> = State(
    count: nat,             // g_seq, unwrapped
    cells: seq<T>,          // g_snapshot
    history: seq<seq<T>>,   // the snapshot after each completed write
    reader: Reader<T>,
    accepted: seq<Copy<T>>)

  datatype Step<T> =
    | Begin
    | Store(cell: nat, value: T)
    | End
    | LoadFirst
    | Fetch(cell: nat)
    | LoadSecond

  predicate Writing<T>(s: State<T>) {
    s.count % 2 == 1
  }

  predicate Full<T>(got: seq<Option<T>>) {
    forall i :: 0 <= i < |got| ==> got[i].Some?
  }

  predicate Enabled<T>(s: State<T>, step: Step<T>) {
    match step
    case Begin => !Writing(s)
    case Store(i, _) => Writing(s) && i < |s.cells|
    case End => Writing(s)
    case LoadFirst => s.reader.Idle?
    case Fetch(i) => s.reader.Copying? && i < |s.cells| && i < |s.reader.got| && s.reader.got[i].None?
    case LoadSecond => s.reader.Copying? && Full(s.reader.got)
  }

  function NoneYet<T>(n: nat): (r: seq<Option<T>>)
    ensures |r| == n && forall i :: 0 <= i < n ==> r[i].None?
  {
    if n == 0 then [] else NoneYet(n - 1) + [None]
  }

  function Values<T>(got: seq<Option<T>>): (r: seq<T>)
    requires Full(got)
    ensures |r| == |got| && forall i :: 0 <= i < |got| ==> r[i] == got[i].value
  {
    if got == [] then [] else [got[0].value] + Values(got[1..])
  }

  function Next<T>(s: State<T>, step: Step<T>): State<T>
    requires Enabled(s, step)
  {
    match step
    case Begin => s.(count := s.count + 1)
    case Store(i, v) => s.(cells := s.cells[i := v])
    case End => s.(count := s.count + 1, history := s.history + [s.cells])
    // An odd first load spins.
    case LoadFirst =>
      if Wrap(s.count) % 2 == 1 then s else s.(reader := Copying(s.count, NoneYet(|s.cells|)))
    case Fetch(i) => s.(reader := s.reader.(got := s.reader.got[i := Some(s.cells[i])]))
    // Differing loads retry.
    case LoadSecond =>
      if Wrap(s.count) == Wrap(s.reader.first)
      then s.(reader := Idle,
              accepted := s.accepted + [Copy(s.reader.first, s.count, Values(s.reader.got))])
      else s.(reader := Idle)
  }

  // A run from s0: every step enabled where it is taken.
  ghost predicate Run<T>(s0: State<T>, steps: seq<Step<T>>, s: State<T>)
    decreases |steps|
  {
    if steps == [] then s == s0
    else Enabled(s0, steps[0]) && Run(Next(s0, steps[0]), steps[1..], s)
  }

  // Where a sender thread starts: nobody is writing, nothing has been read.
  ghost predicate Start<T>(s: State<T>) {
    && !Writing(s) && |s.history| == s.count / 2 + 1 && s.cells == Last(s.history)
    && (forall k :: 0 <= k < |s.history| ==> |s.history[k]| == |s.cells|)
    && s.reader.Idle? && s.accepted == []
  }

  // --- what every step keeps ---------------------------------------------------------

  ghost predicate WriterInv<T>(s: State<T>) {
    && |s.history| == s.count / 2 + 1
    && (!Writing(s) ==> s.cells == Last(s.history))
    && forall k :: 0 <= k < |s.history| ==> |s.history[k]| == |s.cells|
  }

  // While the count has not moved since the first load, everything copied so far belongs
  // to the write that count names.
  ghost predicate ReaderInv<T>(s: State<T>)
    requires WriterInv(s)
  {
    s.reader.Copying? ==>
      && s.reader.first % 2 == 0 && s.reader.first <= s.count
      && |s.reader.got| == |s.cells|
      && (s.count == s.reader.first ==>
            forall i :: 0 <= i < |s.cells| && s.reader.got[i].Some? ==> s.reader.got[i].value == s.cells[i])
  }

  // Exact: the copy is the snapshot after write number second / 2.
  ghost predicate Exact<T>(c: Copy<T>, history: seq<seq<T>>) {
    c.second % 2 == 0 && c.second / 2 < |history| && c.cells == history[c.second / 2]
  }

  ghost predicate LogInv<T>(s: State<T>) {
    && (forall k :: 0 <= k < |s.accepted| ==>
          && s.accepted[k].second <= s.count
          && (Faithful(s.accepted[k].first, s.accepted[k].second) ==> Exact(s.accepted[k], s.history)))
    && (forall j, k :: 0 <= j < k < |s.accepted| ==> s.accepted[j].second <= s.accepted[k].second)
    && (s.reader.Copying? ==> forall k :: 0 <= k < |s.accepted| ==> s.accepted[k].second <= s.reader.first)
  }

  ghost predicate Inv<T>(s: State<T>) {
    WriterInv(s) && ReaderInv(s) && LogInv(s)
  }

  lemma ProducerKeeps<T>(s: State<T>, step: Step<T>)
    requires Inv(s) && Enabled(s, step) && (step.Begin? || step.Store? || step.End?)
    ensures Inv(Next(s, step))
  {
    var s' := Next(s, step);
    assert s.history <= s'.history;
  }

  lemma LoadKeeps<T>(s: State<T>, step: Step<T>)
    requires Inv(s) && Enabled(s, step) && (step.LoadFirst? || step.Fetch?)
    ensures Inv(Next(s, step))
  {
  }

  lemma AcceptKeeps<T>(s: State<T>, step: Step<T>)
    requires Inv(s) && Enabled(s, step) && step.LoadSecond?
    ensures Inv(Next(s, step))
  {
    var got := s.reader.got;
    var c := Copy(s.reader.first, s.count, Values(got));
    if Wrap(s.count) == Wrap(s.reader.first) && Faithful(c.first, c.second) {
      assert s.count == s.reader.first;
      assert c.cells == s.cells;
    }
  }

  lemma {:induction false} RunKeeps<T>(s0: State<T>, steps: seq<Step<T>>, s: State<T>)
    requires Inv(s0) && Run(s0, steps, s)
    ensures Inv(s) && s0.history <= s.history
    decreases |steps|
  {
    if steps != [] {
      var step := steps[0];
      if step.LoadSecond? {
        AcceptKeeps(s0, step);
      } else if step.LoadFirst? || step.Fetch? {
        LoadKeeps(s0, step);
      } else {
        ProducerKeeps(s0, step);
      }
      RunKeeps(Next(s0, step), steps[1..], s);
    }
  }

  // In every interleaving, an accepted copy is exactly the snapshot of one completed
  // write, and accepted copies never go back in write order.
  lemma AcceptedCopiesExact<T>(s0: State<T>, steps: seq<Step<T>>, s: State<T>, j: nat, k: nat)
    requires Start(s0) && Run(s0, steps, s)
    requires j <= k < |s.accepted|
    requires Faithful(s.accepted[k].first, s.accepted[k].second)
    ensures Exact(s.accepted[k], s.history)
    ensures s.accepted[j].second <= s.accepted[k].second <= s.count
  {
    RunKeeps(s0, steps, s);
  }

  // --- the bound is tight ----------------------------------------------------------------

  lemma {:induction false} RunConcat<T>(s0: State<T>, xs: seq<Step<T>>, s1: State<T>, ys: seq<Step<T>>, s2: State<T>)
    requires Run(s0, xs, s1) && Run(s1, ys, s2)
    ensures Run(s0, xs + ys, s2)
    decreases |xs|
  {
    if xs == [] {
      assert xs + ys == ys;
    } else {
      assert (xs + ys)[1..] == xs[1..] + ys;
      RunConcat(Next(s0, xs[0]), xs[1..], s1, ys, s2);
    }
  }

  // n writes that leave the cells as they are.
  lemma {:induction false} IdleWrites<T>(s: State<T>, n: nat) returns (steps: seq<Step<T>>, s': State<T>)
    requires !Writing(s)
    ensures Run(s, steps, s')
    ensures s' == s.(count := s.count + 2 * n, history := s'.history)
    ensures |s'.history| == |s.history| + n
    decreases n
  {
    steps, s' := [], s;
    if n > 0 {
      var open := Next(s, Begin);
      var closed := Next(open, End);
      var pair: seq<Step<T>> := [Begin, End];
      assert Run(s, pair, closed) by {
        assert pair[1..] == [End] && [Step<T>.End][1..] == [];
        assert Run(open, [End], closed);
      }
      var rest;
      rest, s' := IdleWrites(closed, n - 1);
      RunConcat(s, pair, closed, rest, s');
      steps := pair + rest;
    }
  }

  lemma RunOne<T>(s: State<T>, step: Step<T>)
    requires Enabled(s, step)
    ensures Run(s, [step], Next(s, step))
  {
    assert [step][1..] == [];
  }

  lemma Then<T>(s0: State<T>, xs: seq<Step<T>>, s1: State<T>, step: Step<T>) returns (ys: seq<Step<T>>, s2: State<T>)
    requires Run(s0, xs, s1) && Enabled(s1, step)
    ensures Run(s0, ys, s2) && s2 == Next(s1, step)
  {
    s2 := Next(s1, step);
    RunOne(s1, step);
    RunConcat(s0, xs, s1, [step], s2);
    ys := xs + [step];
  }

  const QUIET: State<int> := State(0, [0, 0], [[0, 0]], Idle, [])

  // The consumer has copied the first of two cells when 2^31 - 1 idle writes go by.
  lemma HalfCopied() returns (steps: seq<Step<int>>, s: State<int>)
    ensures Run(QUIET, steps, s)
    ensures s.count == 0xFFFF_FFFE && s.cells == [0, 0] && s.reader == Copying(0, [Some(0), None])
    ensures s.accepted == [] && |s.history| == 0x8000_0000
  {
    steps, s := [], QUIET;
    steps, s := Then(QUIET, steps, s, LoadFirst);
    steps, s := Then(QUIET, steps, s, Fetch(0));
    var idle, s1 := IdleWrites(s, 0x7FFF_FFFF);
    RunConcat(QUIET, steps, s, idle, s1);
    steps, s := steps + idle, s1;
  }

  lemma OneMoreWrite() returns (steps: seq<Step<int>>, s: State<int>)
    ensures Run(QUIET, steps, s)
    ensures s.count == 0x1_0000_0000 && s.cells == [1, 1] && s.reader == Copying(0, [Some(0), None])
    ensures s.accepted == [] && |s.history| == 0x8000_0001 && Last(s.history) == [1, 1]
  {
    steps, s := HalfCopied();
    steps, s := Then(QUIET, steps, s, Begin);
    steps, s := Then(QUIET, steps, s, Store(0, 1));
    steps, s := Then(QUIET, steps, s, Store(1, 1));
    steps, s := Then(QUIET, steps, s, End);
  }

  // With exactly 2^31 writes during one read the wrapped counter comes round again, and a
  // copy mixing two snapshots is accepted.
  lemma TornAfterWrap() returns (steps: seq<Step<int>>, s: State<int>)
    ensures Start(QUIET) && Run(QUIET, steps, s)
    ensures |s.accepted| == 1 && !Exact(s.accepted[0], s.history)
    ensures s.accepted[0].second == s.accepted[0].first + 0x1_0000_0000
  {
    steps, s := OneMoreWrite();
    steps, s := Then(QUIET, steps, s, Fetch(1));
    steps, s := Then(QUIET, steps, s, LoadSecond);
    assert s.accepted[0].cells[0] == 0;
  }
}
