/** When the pool may return and leave its producer waiting for a worker that never comes. */
module WorkerPoolProducer {
  import opened WorkerPool
  import opened WorkerPoolRuns
  import opened WorkerPoolReturns

  // The call can return while jobs are still to be handed out.
  ghost predicate MayLeaveProducer(c: Config) {
    exists s :: Reachable(c, s) && s.collector.Returned? && s.next < c.N()
  }

  function FirstFailed(outcomes: seq<Outcome>): nat {
    if outcomes == [] || outcomes[0] == Failed then 0 else 1 + FirstFailed(outcomes[1..])
  }

  // With a worker that starts: a file fails, jobs are left when that file and one for each such worker are handed
  // out, and the errors of the others fit into the channel. With none: their errors fit beside the one received.
  predicate LeavesProducer(outcomes: seq<Outcome>, starts: seq<bool>) {
    var n, fails := |outcomes|, Fails(starts);
    if fails == |starts| then 0 < fails <= n + 1 && n > 0
    else Failed in outcomes && FirstFailed(outcomes) + 1 < n && |starts| - fails < n && fails <= n
  }

  lemma {:induction false} FirstFailedIs(outcomes: seq<Outcome>, j: nat)
    requires j < |outcomes| && outcomes[j] == Failed
    ensures FirstFailed(outcomes) <= j && outcomes[FirstFailed(outcomes)] == Failed
    ensures forall i :: 0 <= i < FirstFailed(outcomes) ==> outcomes[i] != Failed
  {
    if outcomes[0] != Failed { FirstFailedIs(outcomes[1..], j - 1); }
  }

  // ----- workers that have ended

  function EndCount(ws: seq<Worker>): nat {
    if ws == [] then 0 else One(ws[0] == Cancelling || ws[0] == Done) + EndCount(ws[1..])
  }

  lemma {:induction false} EndUpdate(ws: seq<Worker>, w: nat, x: Worker)
    requires w < |ws|
    ensures EndCount(ws[w := x]) + One(ws[w] == Cancelling || ws[w] == Done)
         == EndCount(ws) + One(x == Cancelling || x == Done)
  {
    if w == 0 {
      assert ws[w := x][1..] == ws[1..];
    } else {
      assert ws[w := x][1..] == ws[1..][w - 1 := x];
      EndUpdate(ws[1..], w - 1, x);
    }
  }

  lemma {:induction false} EndAll(ws: seq<Worker>)
    ensures AllDone(ws) ==> EndCount(ws) == |ws|
    ensures (forall w :: 0 <= w < |ws| ==> ws[w].Starting?) ==> EndCount(ws) == 0
  {
    if ws != [] {
      EndAll(ws[1..]);
      assert AllDone(ws) ==> AllDone(ws[1..]);
    }
  }

  // Until the jobs are closed, a worker ends only by a failed start, a failed job or a dropped one.
  predicate EndsPaid(s: State) {
    s.closed || EndCount(s.workers) == Starts(s.sent, |s.sent|) + Results(s.sent, |s.sent|, Failed) + |s.dropped|
  }

  lemma SendKeepsPaid(c: Config, s: State, w: nat)
    requires EndsPaid(s) && Enabled(c, s, Send(w))
    ensures EndsPaid(Step(c, s, Send(w)))
  {
    var t := SendResult(s, w);
    EndUpdate(s.workers, w, t.workers[w]);
    StartsPrefix(s.sent, t.sent[|s.sent|], |s.sent|);
    ResultsPrefix(s.sent, t.sent[|s.sent|], |s.sent|, Failed);
  }

  lemma KeepsPaid(c: Config, s: State, e: Event)
    requires EndsPaid(s) && Enabled(c, s, e)
    ensures EndsPaid(Step(c, s, e))
  {
    match e
    case Send(w) => SendKeepsPaid(c, s, w);
    case CloseJobs => {}
    case Collect => {}
    case AllIn => {}
    case Return => {}
    case _ => EndUpdate(s.workers, e.w, Step(c, s, e).workers[e.w]);
  }

  lemma {:induction false} PathKeepsPaid(c: Config, s: State, es: seq<Event>, t: State)
    requires EndsPaid(s) && Path(c, s, es, t)
    ensures EndsPaid(t)
    decreases |es|
  {
    if es != [] {
      KeepsPaid(c, s, es[0]);
      PathKeepsPaid(c, Step(c, s, es[0]), es[1..], t);
    }
  }

  lemma ReachablePaid(c: Config, s: State)
    requires Reachable(c, s)
    ensures EndsPaid(s)
  {
    EndAll(Init(c).workers);
    var es :| Path(c, Init(c), es, s);
    PathKeepsPaid(c, Init(c), es, s);
  }

  // ----- a producer that is left

  // What is in the channel when a producer is left behind.
  lemma LeftCounts(c: Config, s: State)
    requires Reachable(c, s) && s.collector.Returned? && s.next < c.N()
    ensures s.collector.failed && !s.closed
    ensures Starts(s.sent, |s.sent|) == Fails(c.starts)
    ensures |c.starts| - Fails(c.starts) == Results(s.sent, |s.sent|, Failed) + |s.dropped|
    ensures |s.log| + |s.dropped| == s.next
    ensures Runs(s.log, Failed) == Results(s.sent, |s.sent|, Failed) <= |s.log|
    ensures s.received == s.processed + s.skipped + 1
    ensures s.received + Results(s.sent, |s.sent|, Failed) + Fails(c.starts) <= |s.sent| + 1
  {
    ReachableInv(c, s);
    ReachablePaid(c, s);
    if !s.collector.failed { AllHandedOut(c, s); }
    EndAll(s.workers);
    CountNone(s.workers, OwesStart);
    CountNone(s.workers, Holds);
    CountNone(s.workers, Delivers(Failed));
    assert Runs(s.log, Failed) == Results(s.sent, |s.sent|, Failed) + Count(s.workers, Delivers(Failed));
    RunsSum(s.log);
    ResultsSum(s.sent, |s.sent|);
    ResultsGrow(s.sent, s.received, Processed);
    ResultsGrow(s.sent, s.received, Skipped);
  }

  lemma LeftMeans(c: Config, s: State)
    requires Reachable(c, s) && s.collector.Returned? && s.next < c.N()
    ensures LeavesProducer(c.outcomes, c.starts)
  {
    ReachableInv(c, s);
    LeftCounts(c, s);
    AllFail(c.starts);
    if Fails(c.starts) < |c.starts| {
      var w := FindWorker(c.starts, true);
      assert WorkerCause(c, s, w);
      var i :| 0 <= i < |s.log| && FailsByItself(c, s.log[i]);
      FirstFailedIs(c.outcomes, s.log[i].job);
    } else {
      NoJobsWithoutWorkers(c, s);
      ResultsSum(s.sent, |s.sent|);
      ResultsSum(s.sent, s.received);
    }
  }

  // ----- workers that have not started

  function FreshCount(ws: seq<Worker>): nat {
    if ws == [] then 0 else One(ws[0] == Starting(true)) + FreshCount(ws[1..])
  }

  lemma {:induction false} FreshUpdate(ws: seq<Worker>, w: nat, x: Worker)
    requires w < |ws|
    ensures FreshCount(ws[w := x]) + One(ws[w] == Starting(true)) == FreshCount(ws) + One(x == Starting(true))
    ensures ws[w] == Starting(true) ==> FreshCount(ws) > 0
  {
    if w == 0 {
      assert ws[w := x][1..] == ws[1..];
    } else {
      assert ws[w := x][1..] == ws[1..][w - 1 := x];
      FreshUpdate(ws[1..], w - 1, x);
    }
  }

  lemma {:induction false} FreshOne(ws: seq<Worker>) returns (w: nat)
    requires FreshCount(ws) > 0
    ensures w < |ws| && ws[w] == Starting(true)
  {
    if ws[0] == Starting(true) { w := 0; } else { w := FreshOne(ws[1..]); w := w + 1; }
  }

  lemma {:induction false} FreshAtStart(starts: seq<bool>, ws: seq<Worker>)
    requires |ws| == |starts| && forall w :: 0 <= w < |ws| ==> ws[w] == Starting(starts[w])
    ensures FreshCount(ws) + Fails(starts) == |starts|
  {
    if ws != [] { FreshAtStart(starts[1..], ws[1..]); }
  }

  // ----- winding up after the error has been received

  // The workers before w are done; each other one can end without a job beyond those left, and without a result
  // beyond the slots left.
  predicate Winding(c: Config, s: State, w: nat) {
    && w <= |s.workers| == |c.starts|
    && (forall v :: 0 <= v < w ==> s.workers[v] == Done)
    && (forall v :: w <= v < |s.workers| ==>
          s.workers[v].Starting? || (s.workers[v].Holding? && s.cancelled) || s.workers[v] == Done)
    && s.collector == Waiting(true)
    && FreshCount(s.workers) + s.next < c.N() && (FreshCount(s.workers) > 0 ==> s.cancelled)
    && Count(s.workers, OwesStart) + |s.sent| - s.received <= c.N()
  }

  lemma OneEnds(c: Config, s: State, w: nat) returns (t: State)
    requires Reachable(c, s) && Winding(c, s, w) && w < |s.workers|
    ensures Reachable(c, t) && Winding(c, t, w + 1)
  {
    match s.workers[w]
    case Holding(job) =>
      ReachStep(c, s, Check(w));
      t := Step(c, s, Check(w));
      EndsWell(c, s, t, w);
    case Starting(ok) =>
      if ok { t := DropsOne(c, s, w); } else { t := FailsOne(c, s, w); }
    case _ => t := s;
  }

  // Worker w ends, with a job more handed out or a failed start more in the channel.
  lemma EndsWell(c: Config, s: State, t: State, w: nat)
    requires Winding(c, s, w) && w < |s.workers| && s.workers[w] != Done
    requires t.workers == s.workers[w := Done] && t.collector == s.collector && t.cancelled == s.cancelled
    requires t.received == s.received
    requires t.next == s.next + One(s.workers[w] == Starting(true))
    requires |t.sent| == |s.sent| + One(s.workers[w] == Starting(false))
    ensures Winding(c, t, w + 1)
  {
    FreshUpdate(s.workers, w, Done);
    CountUpdate(s.workers, w, Done, OwesStart);
  }

  lemma DropsOne(c: Config, s: State, w: nat) returns (t: State)
    requires Reachable(c, s) && Winding(c, s, w) && w < |s.workers| && s.workers[w] == Starting(true)
    ensures Reachable(c, t) && Winding(c, t, w + 1)
  {
    FreshUpdate(s.workers, w, Done);
    ReachStep(c, s, Begin(w));
    var u := Step(c, s, Begin(w));
    ReachStep(c, u, Handoff(w));
    u := Step(c, u, Handoff(w));
    ReachStep(c, u, Check(w));
    t := Step(c, u, Check(w));
    assert t.workers == s.workers[w := Done];
    EndsWell(c, s, t, w);
  }

  lemma FailsOne(c: Config, s: State, w: nat) returns (t: State)
    requires Reachable(c, s) && Winding(c, s, w) && w < |s.workers| && s.workers[w] == Starting(false)
    ensures Reachable(c, t) && Winding(c, t, w + 1)
  {
    CountHas(s.workers, w, OwesStart);
    t := FailToStart(c, s, w);
    EndsWell(c, s, t, w);
  }

  lemma {:induction false} WindsUp(c: Config, s: State, w: nat) returns (t: State)
    requires Reachable(c, s) && Winding(c, s, w)
    ensures Reachable(c, t) && t.collector == Returned(true) && t.next < c.N()
    decreases |c.starts| - w
  {
    if w == |s.workers| {
      ReachStep(c, s, Return);
      t := Step(c, s, Return);
    } else {
      var u := OneEnds(c, s, w);
      t := WindsUp(c, u, w + 1);
    }
  }

  // ----- up to the error

  // Worker r waits for a job; of the others some hold one and the rest have not started.
  predicate Ready(c: Config, s: State, r: nat) {
    && r < |s.workers| == |c.starts| && s.workers[r] == Idle
    && (forall v :: 0 <= v < |s.workers| && v != r ==> s.workers[v].Starting? || s.workers[v].Holding?)
    && s.collector == Collecting && !s.cancelled
    && |s.sent| == s.received <= s.next <= c.N()
    && Count(s.workers, OwesStart) == Fails(c.starts)
  }

  lemma ReadyAtFirst(c: Config, r: nat) returns (s: State)
    requires r < |c.starts| && c.starts[r]
    ensures Reachable(c, s) && Ready(c, s, r) && s.next == 0
    ensures FreshCount(s.workers) + 1 + Fails(c.starts) == |c.starts|
  {
    var i := Init(c);
    ReachInit(c);
    InitCounts(c.starts, i.workers, OwesStart);
    FreshAtStart(c.starts, i.workers);
    FreshUpdate(i.workers, r, Idle);
    CountUpdate(i.workers, r, Idle, OwesStart);
    ReachStep(c, i, Begin(r));
    s := Step(c, i, Begin(r));
  }

  // One job is done by r and its result received.
  lemma OneJob(c: Config, s: State, r: nat) returns (t: State)
    requires Reachable(c, s) && Ready(c, s, r) && s.next < c.N() && c.outcomes[s.next] != Failed
    ensures Reachable(c, t) && Ready(c, t, r) && t.workers == s.workers && t.next == s.next + 1
  {
    var u := RunJob(c, s, r);
    ReachStep(c, u, Send(r));
    u := Step(c, u, Send(r));
    ReachStep(c, u, Collect);
    t := Step(c, u, Collect);
    assert t.workers == s.workers;
  }

  lemma RunJob(c: Config, s: State, r: nat) returns (t: State)
    requires Reachable(c, s) && Ready(c, s, r) && s.next < c.N()
    ensures Reachable(c, t)
    ensures t == s.(workers := s.workers[r := Delivering(s.next, c.outcomes[s.next])], next := s.next + 1, log := t.log)
  {
    ReachStep(c, s, Handoff(r));
    t := Step(c, s, Handoff(r));
    ReachStep(c, t, Check(r));
    t := Step(c, t, Check(r));
    ReachStep(c, t, Work(r, false));
    t := Step(c, t, Work(r, false));
    assert t.workers == s.workers[r := Delivering(s.next, c.outcomes[s.next])];
  }

  lemma {:induction false} ManyJobs(c: Config, s: State, r: nat, k: nat) returns (t: State)
    requires Reachable(c, s) && Ready(c, s, r) && s.next + k <= c.N()
    requires forall j :: s.next <= j < s.next + k ==> c.outcomes[j] != Failed
    ensures Reachable(c, t) && Ready(c, t, r) && t.workers == s.workers && t.next == s.next + k
    decreases k
  {
    if k == 0 {
      t := s;
    } else {
      var u := OneJob(c, s, r);
      t := ManyJobs(c, u, r, k - 1);
    }
  }

  lemma {:induction false} ManyHold(c: Config, s: State, r: nat, k: nat) returns (t: State)
    requires Reachable(c, s) && Ready(c, s, r) && s.next + k <= c.N() && k <= FreshCount(s.workers)
    ensures Reachable(c, t) && Ready(c, t, r) && t.next == s.next + k
    ensures FreshCount(t.workers) + k == FreshCount(s.workers)
    decreases k
  {
    if k == 0 {
      t := s;
    } else {
      var v := FreshOne(s.workers);
      var u := OneHolds(c, s, r, v);
      t := ManyHold(c, u, r, k - 1);
    }
  }

  lemma OneHolds(c: Config, s: State, r: nat, v: nat) returns (t: State)
    requires Reachable(c, s) && Ready(c, s, r) && s.next < c.N()
    requires v < |s.workers| && s.workers[v] == Starting(true)
    ensures Reachable(c, t) && Ready(c, t, r) && t.next == s.next + 1
    ensures FreshCount(t.workers) + 1 == FreshCount(s.workers)
  {
    ReachStep(c, s, Begin(v));
    var u := Step(c, s, Begin(v));
    ReachStep(c, u, Handoff(v));
    t := Step(c, u, Handoff(v));
    assert t.workers == s.workers[v := Holding(s.next)];
    FreshUpdate(s.workers, v, Holding(s.next));
    CountUpdate(s.workers, v, Holding(s.next), OwesStart);
  }

  // The next file fails: its error is received and the rest cancelled.
  lemma FileFails(c: Config, s: State, r: nat) returns (t: State)
    requires Reachable(c, s) && Ready(c, s, r) && s.next < c.N() && c.outcomes[s.next] == Failed
    requires FreshCount(s.workers) + s.next + 1 < c.N() && Fails(c.starts) <= c.N()
    ensures Reachable(c, t) && Winding(c, t, 0)
  {
    var u := RunJob(c, s, r);
    ReachStep(c, u, Send(r));
    u := Step(c, u, Send(r));
    ReachStep(c, u, Collect);
    u := Step(c, u, Collect);
    ReachStep(c, u, Cancel(r));
    t := Step(c, u, Cancel(r));
    assert t.workers == s.workers[r := Done];
    FreshUpdate(s.workers, r, Done);
    CountUpdate(s.workers, r, Done, OwesStart);
  }

  // The first k jobs are done by r, the others up to the first file that fails are held.
  lemma ReachesFailure(c: Config, s: State, r: nat, k: nat, f: nat) returns (t: State)
    requires Reachable(c, s) && Ready(c, s, r) && s.next == 0 && k <= f < c.N()
    requires f - k <= FreshCount(s.workers) && forall j :: 0 <= j < f ==> c.outcomes[j] != Failed
    ensures Reachable(c, t) && Ready(c, t, r) && t.next == f
    ensures FreshCount(t.workers) + (f - k) == FreshCount(s.workers)
  {
    var u := ManyJobs(c, s, r, k);
    t := ManyHold(c, u, r, f - k);
  }

  lemma FailureLeaves(c: Config, s: State, r: nat)
    requires Reachable(c, s) && Ready(c, s, r) && s.next < c.N() && c.outcomes[s.next] == Failed
    requires FreshCount(s.workers) + s.next + 1 < c.N() && Fails(c.starts) <= c.N()
    ensures MayLeaveProducer(c)
  {
    var t := FileFails(c, s, r);
    t := WindsUp(c, t, 0);
  }

  lemma LeavesWithWorkers(c: Config)
    requires Fails(c.starts) < |c.starts| && LeavesProducer(c.outcomes, c.starts)
    ensures MayLeaveProducer(c)
  {
    var j :| 0 <= j < |c.outcomes| && c.outcomes[j] == Failed;
    FirstFailedIs(c.outcomes, j);
    var f, g := FirstFailed(c.outcomes), |c.starts| - Fails(c.starts);
    var k := if g <= f then f + 1 - g else 0;
    var r := FindWorker(c.starts, true);
    var s := ReadyAtFirst(c, r);
    var t := ReachesFailure(c, s, r, k, f);
    FailureLeaves(c, t, r);
  }

  lemma LeavesWithoutWorkers(c: Config)
    requires Fails(c.starts) == |c.starts| && LeavesProducer(c.outcomes, c.starts)
    ensures MayLeaveProducer(c)
  {
    AllFail(c.starts);
    var i := Init(c);
    InitCounts(c.starts, i.workers, OwesStart);
    FreshAtStart(c.starts, i.workers);
    FreshUpdate(i.workers, 0, Done);
    CountUpdate(i.workers, 0, Done, OwesStart);
    var s := FirstError(c, 0);
    s := WindsUp(c, s, 0);
  }

  // Over all runs: some run returns while jobs are still to be handed out, exactly under that condition on the
  // files and the workers.
  lemma ProducerIsLeftIff(c: Config)
    ensures MayLeaveProducer(c) <==> LeavesProducer(c.outcomes, c.starts)
  {
    AllFail(c.starts);
    if MayLeaveProducer(c) {
      var s :| Reachable(c, s) && s.collector.Returned? && s.next < c.N();
      LeftMeans(c, s);
    } else if LeavesProducer(c.outcomes, c.starts) {
      if Fails(c.starts) < |c.starts| { LeavesWithWorkers(c); } else { LeavesWithoutWorkers(c); }
    }
  }

  // The producer then waits for ever: nothing can move any more.
  lemma LeftForEver(c: Config, s: State)
    requires Reachable(c, s) && s.collector.Returned? && s.next < c.N()
    ensures Stopped(c, s)
  {
    ReachableInv(c, s);
  }

  // One more step at the end of a run.
  lemma PathThen(c: Config, s: State, es: seq<Event>, t: State, e: Event, u: State)
    requires Path(c, s, es, t) && Enabled(c, t, e) && u == Step(c, t, e)
    ensures Path(c, s, es + [e], u)
  {
    assert Path(c, u, [], u);
    assert [e][1..] == [];
    assert Path(c, t, [e], u);
    PathAppend(c, s, es, t, [e], u);
  }

  // Two workers and three files, the first of which fails: the first worker is at work on it.
  function FirstAt(worker: Worker, sent: seq<Message>, log: seq<Entry>): State {
    State(1, false, [worker, Starting(true)], sent, 0, false, log, [], 0, 0, Collecting)
  }

  lemma FirstWorks(c: Config)
    requires c == Config([Failed, Processed, Processed], [true, true])
    ensures Path(c, Init(c), [Begin(0), Handoff(0), Check(0)], FirstAt(Working(0), [], []))
  {
    var i := Init(c);
    assert i.workers == [Starting(true), Starting(true)];
    var b := State(0, false, [Idle, Starting(true)], [], 0, false, [], [], 0, 0, Collecting);
    PathThen(c, i, [], i, Begin(0), b);
    PathThen(c, i, [Begin(0)], b, Handoff(0), FirstAt(Holding(0), [], []));
    PathThen(c, i, [Begin(0), Handoff(0)], FirstAt(Holding(0), [], []), Check(0), FirstAt(Working(0), [], []));
  }

  lemma FailureIsSent(c: Config)
    requires c == Config([Failed, Processed, Processed], [true, true])
    ensures Path(c, Init(c), [Begin(0), Handoff(0), Check(0), Work(0, false), Send(0)],
                 FirstAt(Cancelling, [Finished(0, Failed)], [Entry(0, 0, Failed)]))
  {
    var i, log, m := Init(c), [Entry(0, 0, Failed)], Finished(0, Failed);
    FirstWorks(c);
    PathThen(c, i, [Begin(0), Handoff(0), Check(0)], FirstAt(Working(0), [], []), Work(0, false),
             FirstAt(Delivering(0, Failed), [], log));
    PathThen(c, i, [Begin(0), Handoff(0), Check(0), Work(0, false)], FirstAt(Delivering(0, Failed), [], log), Send(0),
             FirstAt(Cancelling, [m], log));
  }

  // The error has been received; the second worker takes a job as late as that.
  function SecondAt(next: nat, first: Worker, second: Worker, cancelled: bool, dropped: seq<nat>): State {
    State(next, false, [first, second], [Finished(0, Failed)], 1, cancelled, [Entry(0, 0, Failed)], dropped, 0, 0,
          Waiting(true))
  }

  lemma SecondIsDropped(c: Config)
    requires c == Config([Failed, Processed, Processed], [true, true])
    ensures Path(c, SecondAt(1, Cancelling, Starting(true), false, []), [Begin(1), Handoff(1), Cancel(0), Check(1)],
                 SecondAt(2, Done, Done, true, [1]))
  {
    var s := SecondAt(1, Cancelling, Starting(true), false, []);
    PathThen(c, s, [], s, Begin(1), SecondAt(1, Cancelling, Idle, false, []));
    PathThen(c, s, [Begin(1)], SecondAt(1, Cancelling, Idle, false, []), Handoff(1),
             SecondAt(2, Cancelling, Holding(1), false, []));
    PathThen(c, s, [Begin(1), Handoff(1)], SecondAt(2, Cancelling, Holding(1), false, []), Cancel(0),
             SecondAt(2, Done, Holding(1), true, []));
    PathThen(c, s, [Begin(1), Handoff(1), Cancel(0)], SecondAt(2, Done, Holding(1), true, []), Check(1),
             SecondAt(2, Done, Done, true, [1]));
  }

  lemma FailureIsReceived(c: Config, es: seq<Event>)
    requires c == Config([Failed, Processed, Processed], [true, true])
    requires es == [Begin(0), Handoff(0), Check(0), Work(0, false), Send(0), Collect]
    ensures Path(c, Init(c), es, SecondAt(1, Cancelling, Starting(true), false, []))
  {
    var sent := [Begin(0), Handoff(0), Check(0), Work(0, false), Send(0)];
    FailureIsSent(c);
    PathThen(c, Init(c), sent, FirstAt(Cancelling, [Finished(0, Failed)], [Entry(0, 0, Failed)]), Collect,
             SecondAt(1, Cancelling, Starting(true), false, []));
    assert es == sent + [Collect];
  }

  lemma SecondReturns(c: Config, es: seq<Event>) returns (s: State)
    requires c == Config([Failed, Processed, Processed], [true, true])
    requires es == [Begin(1), Handoff(1), Cancel(0), Check(1), Return]
    ensures Path(c, SecondAt(1, Cancelling, Starting(true), false, []), es, s)
    ensures s.collector == Returned(true) && s.next == 2
  {
    var late, d := [Begin(1), Handoff(1), Cancel(0), Check(1)], SecondAt(2, Done, Done, true, [1]);
    SecondIsDropped(c);
    s := d.(collector := Returned(true));
    PathThen(c, SecondAt(1, Cancelling, Starting(true), false, []), late, d, Return, s);
    assert es == late + [Return];
  }

  lemma ReachedBy(c: Config, s: State, t: State, first: seq<Event>, second: seq<Event>)
    requires Path(c, Init(c), first, s) && Path(c, s, second, t)
    ensures Path(c, Init(c), first + second, t) && Reachable(c, t)
  {
    PathAppend(c, Init(c), first, s, second, t);
  }

  // The third file is never handed out.
  lemma OneFailureLeavesProducer(c: Config, first: seq<Event>, second: seq<Event>) returns (s: State)
    requires c == Config([Failed, Processed, Processed], [true, true])
    requires first == [Begin(0), Handoff(0), Check(0), Work(0, false), Send(0), Collect]
    requires second == [Begin(1), Handoff(1), Cancel(0), Check(1), Return]
    ensures Path(c, Init(c), first + second, s) && s.collector == Returned(true) && s.next == 2 && Stopped(c, s)
  {
    FailureIsReceived(c, first);
    s := SecondReturns(c, second);
    ReachedBy(c, SecondAt(1, Cancelling, Starting(true), false, []), s, first, second);
    LeftForEver(c, s);
  }
}
