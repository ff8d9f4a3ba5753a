/** When the pool is sure to return: exactly if the errors of workers that fail to start leave room for the results. */
module WorkerPoolReturns {
  import opened WorkerPool
  import opened WorkerPoolRuns

  ghost predicate Stopped(c: Config, s: State) {
    forall e :: !Enabled(c, s, e)
  }

  // However n files come out, every run that cannot go on has returned.
  ghost predicate AlwaysReturns(n: nat, starts: seq<bool>) {
    forall c: Config, s: State ::
      c.N() == n && c.starts == starts && Reachable(c, s) && Stopped(c, s) ==> s.collector.Returned?
  }

  // How many workers may fail to start. Their errors take slots of the results channel that has one per job.
  predicate EnoughSlots(n: nat, workers: nat, fails: nat) {
    if fails == 0 then workers > 0 || n == 0
    else n > 0 && (fails == 1 || (fails == workers && workers <= n + 1))
  }

  lemma WorkerCanMove(c: Config, s: State, w: nat)
    requires Shape(c, s) && w < |s.workers| && s.workers[w] != Done
    requires |s.sent| - s.received < c.N() || !(s.workers[w].Failing? || s.workers[w].Delivering?)
    requires s.workers[w].Working? ==> s.workers[w].job < c.N()
    ensures !Stopped(c, s)
  {
    match s.workers[w]
    case Starting(ok) => assert Enabled(c, s, Begin(w));
    case Failing => assert Enabled(c, s, Send(w));
    case Idle =>
      if s.next < c.N() { assert Enabled(c, s, Handoff(w)); }
      else if !s.closed { assert Enabled(c, s, CloseJobs); }
      else { assert Enabled(c, s, Exit(w)); }
    case Holding(job) => assert Enabled(c, s, Check(w));
    case Working(job) => assert Enabled(c, s, Work(w, false));
    case Delivering(job, outcome) => assert Enabled(c, s, Send(w));
    case Cancelling => assert Enabled(c, s, Cancel(w));
  }

  lemma CollectorCanMove(c: Config, s: State)
    requires s.collector.Collecting? && (s.received == c.N() || (s.received < c.N() && s.received < |s.sent|))
    ensures !Stopped(c, s)
  {
    assert Enabled(c, s, Collect) || Enabled(c, s, AllIn);
  }

  // The jobs that ran, and the failed starts, are all the messages there can be.
  lemma MessagesAreFew(c: Config, s: State)
    requires Inv(c, s)
    ensures |s.sent| + Count(s.workers, OwesStart) + Count(s.workers, Delivers(Processed))
          + Count(s.workers, Delivers(Skipped)) + Count(s.workers, Delivers(Failed))
          + Count(s.workers, Holds) + |s.dropped| == Fails(c.starts) + s.next
  {
    ResultsSum(s.sent, |s.sent|);
    RunsSum(s.log);
    assert forall o :: Runs(s.log, o) == Results(s.sent, |s.sent|, o) + Count(s.workers, Delivers(o));
  }

  lemma {:induction false} AllFail(starts: seq<bool>)
    ensures Fails(starts) <= |starts|
    ensures Fails(starts) == |starts| ==> forall w :: 0 <= w < |starts| ==> !starts[w]
  {
    if starts != [] { AllFail(starts[1..]); }
  }

  lemma NoJobsWithoutWorkers(c: Config, s: State)
    requires Inv(c, s) && Fails(c.starts) == |c.starts|
    ensures s.next == 0
  {
    AllFail(c.starts);
  }

  lemma WaitingMoves(c: Config, s: State, w: nat)
    requires Inv(c, s) && s.collector.Waiting? && EnoughSlots(c.N(), |c.starts|, Fails(c.starts))
    requires w < |s.workers| && (s.workers[w].Failing? || s.workers[w].Delivering?)
    ensures |s.sent| - s.received < c.N()
  {
    MessagesAreFew(c, s);
    CountHas(s.workers, w, if s.workers[w].Failing? then OwesStart else Delivers(s.workers[w].outcome));
    if Fails(c.starts) == |c.starts| { NoJobsWithoutWorkers(c, s); }
  }

  lemma AllDoneMoves(c: Config, s: State)
    requires Inv(c, s) && AllDone(s.workers) && s.collector.Collecting?
    requires EnoughSlots(c.N(), |c.starts|, Fails(c.starts))
    requires s.received < c.N()
    ensures s.received < |s.sent|
  {
    MessagesAreFew(c, s);
    ResultsSum(s.sent, s.received);
    CountNone(s.workers, OwesStart);
    CountNone(s.workers, Holds);
    CountNone(s.workers, Delivers(Processed));
    CountNone(s.workers, Delivers(Skipped));
    CountNone(s.workers, Delivers(Failed));
    if Fails(c.starts) == 0 {
      assert WorkerCause(c, s, 0);
    }
  }

  lemma CanAlwaysMove(c: Config, s: State)
    requires Inv(c, s) && !s.collector.Returned? && EnoughSlots(c.N(), |c.starts|, Fails(c.starts))
    ensures !Stopped(c, s)
  {
    if AllDone(s.workers) {
      if s.collector.Waiting? {
        assert Enabled(c, s, Return);
      } else {
        if s.received < c.N() { AllDoneMoves(c, s); }
        CollectorCanMove(c, s);
      }
    } else {
      var w :| 0 <= w < |s.workers| && s.workers[w] != Done;
      if (s.workers[w].Failing? || s.workers[w].Delivering?) && |s.sent| - s.received == c.N() {
        if s.collector.Waiting? {
          WaitingMoves(c, s, w);
        } else if c.N() == 0 {
          MessagesAreFew(c, s);
          CountHas(s.workers, w, if s.workers[w].Failing? then OwesStart else Delivers(s.workers[w].outcome));
          CollectorCanMove(c, s);
        } else {
          CollectorCanMove(c, s);
        }
      } else {
        if s.workers[w].Working? { assert JobOf(s.workers[w]) < s.next; }
        WorkerCanMove(c, s, w);
      }
    }
  }

  // ----- and how it hangs otherwise

  lemma ReachStep(c: Config, s: State, e: Event)
    requires Reachable(c, s) && Enabled(c, s, e)
    ensures Reachable(c, Step(c, s, e))
  {
    var es :| Path(c, Init(c), es, s);
    var t := Step(c, s, e);
    assert Path(c, t, [], t);
    assert [e][1..] == [];
    assert Path(c, s, [e], t);
    PathAppend(c, Init(c), es, s, [e], t);
  }

  lemma ReachInit(c: Config)
    ensures Reachable(c, Init(c))
  {
    assert Path(c, Init(c), [], Init(c));
  }

  // Worker w's error finds the channel full, and nobody receives any more.
  predicate Jammed(c: Config, s: State, w: nat) {
    && s.collector.Waiting?
    && |s.sent| - s.received == c.N()
    && w < |s.workers| && (s.workers[w] == Starting(false) || s.workers[w] == Failing)
  }

  lemma {:induction false} JammedRunsDown(c: Config, s: State, w: nat) returns (t: State)
    requires Shape(c, s) && Reachable(c, s) && Jammed(c, s, w)
    ensures Reachable(c, t) && Stopped(c, t) && Jammed(c, t, w)
    decreases Measure(c, s)
  {
    if Stopped(c, s) {
      t := s;
    } else {
      var e :| Enabled(c, s, e);
      StepDecreases(c, s, e);
      ReachStep(c, s, e);
      t := JammedRunsDown(c, Step(c, s, e), w);
    }
  }

  lemma JamRefutes(c: Config, s: State, w: nat)
    requires Reachable(c, s) && Jammed(c, s, w)
    ensures !AlwaysReturns(c.N(), c.starts)
  {
    ReachableInv(c, s);
    var t := JammedRunsDown(c, s, w);
    assert !t.collector.Returned?;
  }

  function Easy(n: nat, starts: seq<bool>): Config {
    Config(seq(n, _ => Processed), starts)
  }

  lemma NobodyToWork(n: nat, starts: seq<bool>)
    requires n > 0 && starts == []
    ensures !AlwaysReturns(n, starts)
  {
    var c := Easy(n, starts);
    ReachInit(c);
    assert Stopped(c, Init(c));
  }

  lemma NoSlotAtAll(starts: seq<bool>, w: nat)
    requires w < |starts| && !starts[w]
    ensures !AlwaysReturns(0, starts)
  {
    var c := Easy(0, starts);
    ReachInit(c);
    ReachStep(c, Init(c), AllIn);
    JamRefutes(c, Step(c, Init(c), AllIn), w);
  }

  lemma FailToStart(c: Config, s: State, w: nat) returns (t: State)
    requires Reachable(c, s) && w < |s.workers| && s.workers[w] == Starting(false)
    requires |s.sent| - s.received < c.N()
    ensures Reachable(c, t)
    ensures t == s.(workers := s.workers[w := Done], sent := s.sent + [StartFailed])
  {
    ReachStep(c, s, Begin(w));
    var u := Step(c, s, Begin(w));
    ReachStep(c, u, Send(w));
    t := Step(c, u, Send(w));
    assert s.workers[w := Failing][w := Done] == s.workers[w := Done];
  }

  // The first error reaches the collector, which from then on only waits.
  lemma FirstError(c: Config, w: nat) returns (t: State)
    requires c.N() > 0 && w < |c.starts| && !c.starts[w]
    ensures Reachable(c, t)
    ensures t.workers == Init(c).workers[w := Done] && |t.sent| == t.received == 1 && t.collector == Waiting(true)
    ensures t.next == 0 && !t.cancelled
  {
    ReachInit(c);
    t := FailToStart(c, Init(c), w);
    ReachStep(c, t, Collect);
    t := Step(c, t, Collect);
  }

  lemma {:induction false} ManyErrors(c: Config, s: State, w: nat, k: nat) returns (t: State)
    requires Reachable(c, s) && s.collector.Waiting? && w + k <= |s.workers|
    requires forall v :: w <= v < |s.workers| ==> s.workers[v] == Starting(false)
    requires |s.sent| - s.received + k <= c.N()
    ensures Reachable(c, t) && t.collector.Waiting? && |t.workers| == |s.workers|
    ensures forall v :: w + k <= v < |s.workers| ==> t.workers[v] == Starting(false)
    ensures |t.sent| - t.received == |s.sent| - s.received + k
    decreases k
  {
    if k == 0 {
      t := s;
    } else {
      var u := FailToStart(c, s, w);
      t := ManyErrors(c, u, w + 1, k - 1);
    }
  }

  lemma TooManyFail(n: nat, starts: seq<bool>)
    requires n > 0 && Fails(starts) == |starts| > n + 1
    ensures !AlwaysReturns(n, starts)
  {
    AllFail(starts);
    var c := Easy(n, starts);
    var s := FirstError(c, 0);
    var t := ManyErrors(c, s, 1, n);
    JamRefutes(c, t, n + 1);
  }

  lemma WorkOnce(c: Config, s: State, g: nat) returns (t: State)
    requires Reachable(c, s) && g < |s.workers| && s.workers[g] == Idle
    requires s.next < c.N() && c.outcomes[s.next] == Processed && !s.cancelled
    requires |s.sent| - s.received < c.N()
    ensures Reachable(c, t)
    ensures t.workers == s.workers && t.next == s.next + 1 && !t.cancelled && t.collector == s.collector
    ensures |t.sent| == |s.sent| + 1 && t.received == s.received
  {
    ReachStep(c, s, Handoff(g));
    t := Step(c, s, Handoff(g));
    ReachStep(c, t, Check(g));
    t := Step(c, t, Check(g));
    ReachStep(c, t, Work(g, false));
    t := Step(c, t, Work(g, false));
    ReachStep(c, t, Send(g));
    t := Step(c, t, Send(g));
    assert t.workers == s.workers;
  }

  lemma {:induction false} WorkAll(c: Config, s: State, g: nat) returns (t: State)
    requires Reachable(c, s) && g < |s.workers| && s.workers[g] == Idle
    requires s.next <= c.N() && (forall j :: 0 <= j < c.N() ==> c.outcomes[j] == Processed) && !s.cancelled
    requires |s.sent| - s.received + c.N() - s.next <= c.N()
    ensures Reachable(c, t) && t.workers == s.workers && t.collector == s.collector
    ensures |t.sent| - t.received == |s.sent| - s.received + c.N() - s.next
    decreases c.N() - s.next
  {
    if s.next == c.N() {
      t := s;
    } else {
      var u := WorkOnce(c, s, g);
      t := WorkAll(c, u, g);
    }
  }

  lemma {:induction false} FindWorker(starts: seq<bool>, ok: bool) returns (w: nat)
    requires if ok then Fails(starts) < |starts| else Fails(starts) > 0
    ensures w < |starts| && starts[w] == ok
  {
    if starts[0] == ok { w := 0; } else { w := FindWorker(starts[1..], ok); w := w + 1; }
  }

  lemma {:induction false} FindTwo(starts: seq<bool>) returns (a: nat, b: nat)
    requires Fails(starts) >= 2
    ensures a < b < |starts| && !starts[a] && !starts[b]
  {
    if !starts[0] {
      b := FindWorker(starts[1..], false);
      a, b := 0, b + 1;
    } else {
      a, b := FindTwo(starts[1..]);
      a, b := a + 1, b + 1;
    }
  }

  // Two workers fail, one works: the results fill the channel and leave no slot for the second error.
  lemma TwoFailOneWorks(n: nat, starts: seq<bool>)
    requires n > 0 && 2 <= Fails(starts) < |starts|
    ensures !AlwaysReturns(n, starts)
  {
    var a, b := FindTwo(starts);
    var g := FindWorker(starts, true);
    var c := Easy(n, starts);
    var s := FirstError(c, a);
    ReachStep(c, s, Begin(g));
    s := Step(c, s, Begin(g));
    var t := WorkAll(c, s, g);
    JamRefutes(c, t, b);
  }

  // The pool is sure to return exactly if no worker fails to start, or one does, or all of them do and their
  // errors fit into the channel. With no file at all, one failed start hangs it.
  lemma AlwaysReturnsIff(n: nat, starts: seq<bool>)
    ensures AlwaysReturns(n, starts) <==> EnoughSlots(n, |starts|, Fails(starts))
  {
    AllFail(starts);
    if EnoughSlots(n, |starts|, Fails(starts)) {
      forall c: Config, s: State | c.N() == n && c.starts == starts && Reachable(c, s) && Stopped(c, s)
        ensures s.collector.Returned?
      {
        ReachableInv(c, s);
        if !s.collector.Returned? { CanAlwaysMove(c, s); }
      }
    } else if Fails(starts) == 0 {
      NobodyToWork(n, starts);
    } else if n == 0 {
      var w := FindWorker(starts, false);
      NoSlotAtAll(starts, w);
    } else if Fails(starts) == |starts| {
      TooManyFail(n, starts);
    } else {
      TwoFailOneWorks(n, starts);
    }
  }
}
