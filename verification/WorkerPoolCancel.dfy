/** What a failure does to the rest of the pool: it is cancelled, and no worker starts another file. */
module WorkerPoolCancel {
  import opened WorkerPool

  // ----- a worker that failed

  // Where a worker stands that failed a file: about to report it, about to cancel, or at its end with the pool cancelled.
  predicate HasFailed(w: Worker, job: nat, cancelled: bool) {
    w == Delivering(job, Failed) || w == Cancelling || (w == Done && cancelled)
  }

  predicate FailureStands(s: State, e: Entry) {
    e.outcome == Failed ==> e.worker < |s.workers| && HasFailed(s.workers[e.worker], e.job, s.cancelled)
  }

  // No worker runs another file after one it failed.
  predicate FailsLast(log: seq<Entry>) {
    forall i, j :: 0 <= i < j < |log| && log[i].outcome == Failed ==> log[j].worker != log[i].worker
  }

  predicate Failures(s: State) {
    FailsLast(s.log) && forall i :: 0 <= i < |s.log| ==> FailureStands(s, s.log[i])
  }

  lemma StepKeepsEntry(c: Config, s: State, ev: Event, e: Entry)
    requires Enabled(c, s, ev) && FailureStands(s, e)
    ensures FailureStands(Step(c, s, ev), e)
  {
  }

  lemma KeepsFailures(c: Config, s: State, ev: Event)
    requires Enabled(c, s, ev) && Failures(s)
    ensures Failures(Step(c, s, ev))
  {
    var t := Step(c, s, ev);
    forall i | 0 <= i < |s.log| ensures FailureStands(t, s.log[i]) { StepKeepsEntry(c, s, ev, s.log[i]); }
    if ev.Work? {
      assert FailureStands(t, t.log[|s.log|]);
    }
  }

  lemma {:induction false} PathKeepsFailures(c: Config, s: State, es: seq<Event>, t: State)
    requires Failures(s) && Path(c, s, es, t)
    ensures Failures(t)
    decreases |es|
  {
    if es != [] {
      KeepsFailures(c, s, es[0]);
      PathKeepsFailures(c, Step(c, s, es[0]), es[1..], t);
    }
  }

  // Over every run: a worker that failed a file runs no other one, and has cancelled the pool by the time it ends.
  lemma FailureCancels(c: Config, s: State, i: nat)
    requires Reachable(c, s) && i < |s.log| && s.log[i].outcome == Failed
    ensures forall j :: i < j < |s.log| ==> s.log[j].worker != s.log[i].worker
    ensures s.log[i].worker < |s.workers|
    ensures s.workers[s.log[i].worker] == Done ==> s.cancelled
  {
    var es :| Path(c, Init(c), es, s);
    PathKeepsFailures(c, Init(c), es, s);
    assert FailureStands(s, s.log[i]);
  }

  // So when the call returns, a failed file has cancelled the pool.
  lemma FailureCancelsByReturn(c: Config, s: State, i: nat)
    requires Reachable(c, s) && s.collector.Returned? && i < |s.log| && s.log[i].outcome == Failed
    ensures s.cancelled
  {
    ReachableInv(c, s);
    FailureCancels(c, s, i);
  }

  // ----- after a cancellation

  predicate WasWorking(s: State, e: Entry) {
    e.worker < |s.workers| && s.workers[e.worker] == Working(e.job)
  }

  // What has been run since was in progress when the pool was cancelled, and nobody has begun anything else.
  predicate OnlyFinishes(s: State, t: State) {
    && t.cancelled && |t.workers| == |s.workers| && s.log <= t.log
    && (forall w :: 0 <= w < |t.workers| && t.workers[w].Working? ==> t.workers[w] == s.workers[w])
    && (forall i :: |s.log| <= i < |t.log| ==> WasWorking(s, t.log[i]))
  }

  lemma FinishStep(c: Config, s: State, t: State, ev: Event)
    requires OnlyFinishes(s, t) && Enabled(c, t, ev)
    ensures OnlyFinishes(s, Step(c, t, ev))
  {
    var u := Step(c, t, ev);
    if ev.Work? {
      assert WasWorking(s, u.log[|t.log|]);
    }
  }

  lemma {:induction false} FinishPath(c: Config, s: State, t: State, es: seq<Event>, u: State)
    requires OnlyFinishes(s, t) && Path(c, t, es, u)
    ensures OnlyFinishes(s, u)
    decreases |es|
  {
    if es != [] {
      FinishStep(c, s, t, es[0]);
      FinishPath(c, s, Step(c, t, es[0]), es[1..], u);
    }
  }

  // Once the pool is cancelled it stays so, and of all files only those that a worker was at work on are still run.
  lemma NothingStartsAfterCancel(c: Config, s: State, es: seq<Event>, t: State)
    requires s.cancelled && Path(c, s, es, t)
    ensures t.cancelled && s.log <= t.log
    ensures forall i :: |s.log| <= i < |t.log| ==>
              t.log[i].worker < |s.workers| && s.workers[t.log[i].worker] == Working(t.log[i].job)
  {
    FinishPath(c, s, s, es, t);
    forall i | |s.log| <= i < |t.log|
      ensures t.log[i].worker < |s.workers| && s.workers[t.log[i].worker] == Working(t.log[i].job)
    {
      assert WasWorking(s, t.log[i]);
    }
  }

  // ----- a file that is cut short

  // Both workers are at work when the first file fails.
  function Both(first: Worker, second: Worker, sent: seq<Message>, cancelled: bool, log: seq<Entry>): State {
    State(2, false, [first, second], sent, 0, cancelled, log, [], 0, 0, Collecting)
  }

  lemma BothAtWork(c: Config)
    requires c == Config([Failed, Processed], [true, true])
    ensures Path(c, Init(c), [Begin(0), Begin(1), Handoff(0), Handoff(1), Check(0), Check(1)],
                 Both(Working(0), Working(1), [], false, []))
  {
    var s0 := Init(c);
    assert s0.workers == [Starting(true), Starting(true)];
    var s1 := s0.(workers := [Idle, Starting(true)]);
    var s2 := s1.(workers := [Idle, Idle]);
    var s3 := s2.(workers := [Holding(0), Idle], next := 1);
    var s4 := s3.(workers := [Holding(0), Holding(1)], next := 2);
    var s5 := s4.(workers := [Working(0), Holding(1)]);
    PathTwo(c, s0, Begin(0), s1, Begin(1), s2);
    PathTwo(c, s2, Handoff(0), s3, Handoff(1), s4);
    PathTwo(c, s4, Check(0), s5, Check(1), Both(Working(0), Working(1), [], false, []));
    PathAppend(c, s0, [Begin(0), Begin(1)], s2, [Handoff(0), Handoff(1)], s4);
    PathAppend(c, s0, [Begin(0), Begin(1)] + [Handoff(0), Handoff(1)], s4, [Check(0), Check(1)],
               Both(Working(0), Working(1), [], false, []));
    assert [Begin(0), Begin(1)] + [Handoff(0), Handoff(1)] + [Check(0), Check(1)]
        == [Begin(0), Begin(1), Handoff(0), Handoff(1), Check(0), Check(1)];
  }

  lemma PathTwo(c: Config, s: State, e: Event, t: State, f: Event, u: State)
    requires Enabled(c, s, e) && Step(c, s, e) == t && Enabled(c, t, f) && Step(c, t, f) == u
    ensures Path(c, s, [e, f], u)
  {
    assert [e, f][1..] == [f] && [f][1..] == [];
    assert Path(c, u, [], u);
    assert Path(c, t, [f], u);
  }

  // Two workers, and both are at work when the first file fails: the second file, which nothing is wrong with, is cut
  // short, and comes to a failure as well.
  lemma FailureCutsAnother(c: Config, first: seq<Event>, second: seq<Event>) returns (s: State)
    requires c == Config([Failed, Processed], [true, true])
    requires first == [Begin(0), Begin(1), Handoff(0), Handoff(1), Check(0), Check(1)]
    requires second == [Work(0, false), Send(0), Cancel(0), Work(1, true)]
    ensures Path(c, Init(c), first + second, s) && Reachable(c, s)
    ensures s.log == [Entry(0, 0, Failed), Entry(1, 1, Failed)] && c.outcomes[1] == Processed
  {
    var t0 := Both(Working(0), Working(1), [], false, []);
    var t1 := Both(Delivering(0, Failed), Working(1), [], false, [Entry(0, 0, Failed)]);
    var t2 := Both(Cancelling, Working(1), [Finished(0, Failed)], false, [Entry(0, 0, Failed)]);
    var t3 := Both(Done, Working(1), [Finished(0, Failed)], true, [Entry(0, 0, Failed)]);
    s := Both(Done, Delivering(1, Failed), [Finished(0, Failed)], true, [Entry(0, 0, Failed), Entry(1, 1, Failed)]);
    BothAtWork(c);
    PathTwo(c, t0, Work(0, false), t1, Send(0), t2);
    PathTwo(c, t2, Cancel(0), t3, Work(1, true), s);
    PathAppend(c, t0, [Work(0, false), Send(0)], t2, [Cancel(0), Work(1, true)], s);
    assert [Work(0, false), Send(0)] + [Cancel(0), Work(1, true)] == second;
    PathAppend(c, Init(c), first, t0, second, s);
  }
}
