/**
 What the pool promises over every run: a nil error means that each file was translated once, by one worker, an error
 that some file failed by itself; and no run goes on for ever.
 */
module WorkerPoolRuns {
  import opened WorkerPool

  // ----- exactly once

  lemma CountsAtReturn(c: Config, s: State)
    requires Inv(c, s) && s.collector == Returned(false)
    ensures Results(s.sent, s.received, Failed) == 0 && Starts(s.sent, s.received) == 0
    ensures s.received == c.N() == s.processed + s.skipped
    ensures forall k :: Count(s.workers, k) == 0
    ensures |s.log| + |s.dropped| == s.next <= c.N()
  {
    ResultsSum(s.sent, s.received);
    forall k ensures Count(s.workers, k) == 0 { CountNone(s.workers, k); }
  }

  lemma AllHandedOut(c: Config, s: State)
    requires Inv(c, s) && s.collector == Returned(false)
    ensures s.next == c.N() == |s.log| && s.dropped == []
    ensures s.processed == Runs(s.log, Processed) && s.skipped == Runs(s.log, Skipped) && Runs(s.log, Failed) == 0
  {
    CountsAtReturn(c, s);
    assert forall o :: Runs(s.log, o) == Results(s.sent, |s.sent|, o) + Count(s.workers, Delivers(o));
    ResultsGrow(s.sent, s.received, Processed);
    ResultsGrow(s.sent, s.received, Skipped);
    RunsSum(s.log);
  }

  // Every file was translated, by one worker, in one call.
  lemma NilErrorMeansAllOnce(c: Config, s: State)
    requires Reachable(c, s) && s.collector == Returned(false)
    ensures forall j :: 0 <= j < c.N() ==> Ran(s.log, j) && c.outcomes[j] != Failed
    ensures RunsOnce(s.log) && |s.log| == c.N() && s.dropped == []
    ensures s.processed + s.skipped == c.N()
  {
    ReachableInv(c, s);
    CountsAtReturn(c, s);
    AllHandedOut(c, s);
    forall j | 0 <= j < c.N()
      ensures Ran(s.log, j) && c.outcomes[j] != Failed
    {
      NobodyCarries(s.workers, j);
      assert Ran(s.log, j);
      var i :| 0 <= i < |s.log| && s.log[i].job == j;
      NoFailedRun(s.log, i);
    }
  }

  lemma NobodyCarries(ws: seq<Worker>, job: nat)
    requires AllDone(ws)
    ensures !Carried(ws, job)
  {
    forall w | 0 <= w < |ws| ensures JobOf(ws[w]) != job { assert ws[w] == Done; }
  }

  lemma {:induction false} NoFailedRun(log: seq<Entry>, i: nat)
    requires i < |log| && Runs(log, Failed) == 0
    ensures log[i].outcome != Failed
  {
    if i < |log| - 1 { NoFailedRun(log[..|log| - 1], i); }
  }

  lemma NilErrorMeansNoFailure(c: Config, s: State)
    requires Reachable(c, s) && s.collector == Returned(false)
    ensures s.dropped == [] && !s.cancelled
    ensures forall i :: 0 <= i < |s.log| ==> s.log[i].outcome != Failed
  {
    ReachableInv(c, s);
    AllHandedOut(c, s);
    CountsAtReturn(c, s);
    forall i | 0 <= i < |s.log| ensures s.log[i].outcome != Failed { NoFailedRun(s.log, i); }
    assert Runs(s.log, Failed) == Results(s.sent, |s.sent|, Failed) + Count(s.workers, Delivers(Failed));
  }

  // A job that failed, or was dropped after a cancellation, makes the call return an error.
  lemma FailureIsReported(c: Config, s: State)
    requires Reachable(c, s) && s.collector.Returned?
    ensures s.dropped != [] || s.cancelled || (exists i :: 0 <= i < |s.log| && s.log[i].outcome == Failed) ==>
              s.collector.failed
  {
    if !s.collector.failed { NilErrorMeansNoFailure(c, s); }
  }

  // With all workers started, there is an error exactly if some file fails by itself.
  lemma ErrorIff(c: Config, s: State)
    requires Reachable(c, s) && s.collector.Returned?
    requires Fails(c.starts) == 0
    ensures s.collector.failed <==> Failed in c.outcomes
  {
    if s.collector.failed {
      ReachableInv(c, s);
      ResultsSum(s.sent, s.received);
      ResultsGrow(s.sent, s.received, Failed);
      assert Runs(s.log, Failed) == Results(s.sent, |s.sent|, Failed) + Count(s.workers, Delivers(Failed));
      var i :| 0 <= i < |s.log| && FailsByItself(c, s.log[i]);
    } else {
      NilErrorMeansAllOnce(c, s);
    }
  }

  // ----- the same counts as one file after another

  function CountOf(outcomes: seq<Outcome>, k: nat, o: Outcome): nat
    requires k <= |outcomes|
  {
    if k == 0 then 0 else CountOf(outcomes, k - 1, o) + One(outcomes[k - 1] == o)
  }

  method RunDocSequential(outcomes: seq<Outcome>) returns (processed: nat, skipped: nat, failed: bool)
    ensures failed <==> Failed in outcomes
    ensures exists stop ::
              && 0 <= stop <= |outcomes| && Failed !in outcomes[..stop]
              && (failed ==> stop < |outcomes| && outcomes[stop] == Failed)
              && (!failed ==> stop == |outcomes|)
              && processed == CountOf(outcomes, stop, Processed) && skipped == CountOf(outcomes, stop, Skipped)
  {
    processed, skipped := 0, 0;
    var index := 0;
    while index < |outcomes|
      invariant 0 <= index <= |outcomes|
      invariant Failed !in outcomes[..index]
      invariant processed == CountOf(outcomes, index, Processed) && skipped == CountOf(outcomes, index, Skipped)
    {
      var outcome := outcomes[index];
      if outcome == Failed {
        return processed, skipped, true;
      }
      if outcome == Skipped {
        skipped := skipped + 1;
      } else {
        processed := processed + 1;
      }
      index := index + 1;
    }
    assert outcomes[..|outcomes|] == outcomes;
    failed := false;
  }

  lemma {:induction false} RunsWithout(log: seq<Entry>, i: nat, o: Outcome)
    requires i < |log|
    ensures Runs(log, o) == Runs(log[..i] + log[i + 1..], o) + One(log[i].outcome == o)
    decreases |log|
  {
    var last := |log| - 1;
    if i == last {
      assert log[..i] + log[i + 1..] == log[..last];
    } else {
      RunsWithout(log[..last], i, o);
      RunsAppend(log[..last][..i] + log[..last][i + 1..], log[last], o);
      assert log[..last][..i] + log[..last][i + 1..] + [log[last]] == log[..i] + log[i + 1..];
    }
  }

  predicate LogOf(outcomes: seq<Outcome>, log: seq<Entry>, n: nat) {
    && |log| == n <= |outcomes|
    && RunsOnce(log)
    && (forall i :: 0 <= i < |log| ==> log[i].job < n && log[i].outcome == outcomes[log[i].job])
    && (forall j :: 0 <= j < n ==> Ran(log, j))
  }

  lemma LogWithoutLast(outcomes: seq<Outcome>, log: seq<Entry>, n: nat, i: nat)
    requires n > 0 && LogOf(outcomes, log, n)
    requires i < |log| && log[i].job == n - 1
    ensures LogOf(outcomes, log[..i] + log[i + 1..], n - 1)
  {
    var rest := log[..i] + log[i + 1..];
    forall j | 0 <= j < n - 1
      ensures Ran(rest, j)
    {
      assert Ran(log, j);
      var k :| 0 <= k < |log| && log[k].job == j;
      assert rest[if k < i then k else k - 1].job == j;
    }
  }

  // A log in which the first n jobs each occur once counts their outcomes.
  lemma {:induction false} LogCounts(outcomes: seq<Outcome>, log: seq<Entry>, n: nat, o: Outcome)
    requires LogOf(outcomes, log, n)
    ensures Runs(log, o) == CountOf(outcomes, n, o)
  {
    if n > 0 {
      assert Ran(log, n - 1);
      var i :| 0 <= i < |log| && log[i].job == n - 1;
      RunsWithout(log, i, o);
      LogWithoutLast(outcomes, log, n, i);
      LogCounts(outcomes, log[..i] + log[i + 1..], n - 1, o);
    }
  }

  lemma LogIsComplete(c: Config, s: State)
    requires Reachable(c, s) && s.collector == Returned(false)
    ensures LogOf(c.outcomes, s.log, c.N()) && Failed !in c.outcomes
  {
    ReachableInv(c, s);
    NilErrorMeansAllOnce(c, s);
    NilErrorMeansNoFailure(c, s);
  }

  // When the pool returns no error, it and the sequential loop agree: no error, and the same two counts.
  lemma AgreesWithSequential(c: Config, s: State)
    requires Reachable(c, s) && s.collector == Returned(false)
    ensures Failed !in c.outcomes
    ensures s.processed == CountOf(c.outcomes, c.N(), Processed)
    ensures s.skipped == CountOf(c.outcomes, c.N(), Skipped)
  {
    ReachableInv(c, s);
    AllHandedOut(c, s);
    LogIsComplete(c, s);
    LogCounts(c.outcomes, s.log, c.N(), Processed);
    LogCounts(c.outcomes, s.log, c.N(), Skipped);
  }

  // ----- every run ends

  function Weight(w: Worker): nat {
    match w
    case Starting(ok) => 2
    case Failing => 1
    case Idle => 1
    case Holding(job) => 5
    case Working(job) => 4
    case Delivering(job, outcome) => 3
    case Cancelling => 2
    case Done => 0
  }

  function Weights(ws: seq<Worker>): nat {
    if ws == [] then 0 else Weight(ws[0]) + Weights(ws[1..])
  }

  lemma {:induction false} WeightsUpdate(ws: seq<Worker>, w: nat, x: Worker)
    requires w < |ws|
    ensures Weights(ws[w := x]) + Weight(ws[w]) == Weights(ws) + Weight(x)
  {
    if w == 0 {
      assert ws[w := x][1..] == ws[1..];
    } else {
      assert ws[w := x][1..] == ws[1..][w - 1 := x];
      WeightsUpdate(ws[1..], w - 1, x);
    }
  }

  lemma {:induction false} InitWeights(ws: seq<Worker>)
    requires forall w :: 0 <= w < |ws| ==> ws[w].Starting?
    ensures Weights(ws) == 2 * |ws|
  {
    if ws != [] { InitWeights(ws[1..]); }
  }

  function CollectorWeight(k: Collector): nat {
    match k
    case Collecting => 2
    case Waiting(error) => 1
    case Returned(failed) => 0
  }

  function Measure(c: Config, s: State): nat
    requires Shape(c, s)
  {
    Weights(s.workers) + 5 * (c.N() - s.next) + One(!s.closed) + (c.N() - s.received) + CollectorWeight(s.collector)
  }

  lemma MoveDecreases(c: Config, s: State, t: State, w: nat, x: Worker)
    requires Shape(c, s) && Shape(c, t) && w < |s.workers| && t.workers == s.workers[w := x]
    requires t.closed == s.closed && t.received == s.received && t.collector == s.collector
    requires Weight(x) - 5 * t.next < Weight(s.workers[w]) - 5 * s.next
    ensures Measure(c, t) < Measure(c, s)
  {
    WeightsUpdate(s.workers, w, x);
  }

  lemma StepDecreases(c: Config, s: State, e: Event)
    requires Shape(c, s) && Enabled(c, s, e)
    ensures Shape(c, Step(c, s, e))
    ensures Measure(c, Step(c, s, e)) < Measure(c, s)
  {
    KeepsShape(c, s, e);
    match e
    case CloseJobs => {}
    case Collect => {}
    case AllIn => {}
    case Return => {}
    case _ => MoveDecreases(c, s, Step(c, s, e), e.w, Step(c, s, e).workers[e.w]);
  }

  lemma {:induction false} PathDecreases(c: Config, s: State, es: seq<Event>, t: State)
    requires Shape(c, s) && Path(c, s, es, t)
    ensures Shape(c, t) && |es| + Measure(c, t) <= Measure(c, s)
    decreases |es|
  {
    if es != [] {
      StepDecreases(c, s, es[0]);
      PathDecreases(c, Step(c, s, es[0]), es[1..], t);
    }
  }

  lemma RunsAreBounded(c: Config, es: seq<Event>, t: State)
    requires Path(c, Init(c), es, t)
    ensures |es| <= 2 * |c.starts| + 6 * c.N() + 3
  {
    InitInv(c);
    PathDecreases(c, Init(c), es, t);
    InitWeights(Init(c).workers);
  }
}
