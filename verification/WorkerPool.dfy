/**
 The pool that translates documents in parallel: workers that may fail to start, a producer that hands out
 jobs over an unbuffered channel, a results channel with one slot per job, and a collector. A run is any
 interleaving of the events below.
 */
module WorkerPool {

  datatype Outcome = Processed | Skipped | Failed

  // What each file comes to if nothing cuts its processing short, and which workers get their translator.
  datatype Config = Config(outcomes: seq<Outcome>, starts: seq<bool>) {
    function N(): nat { |outcomes| }
  }

  datatype Message = StartFailed | Finished(job: nat, outcome: Outcome)

  datatype Worker =
    | Starting(ok: bool)
    | Failing
    | Idle
    | Holding(job: nat)
    | Working(job: nat)
    | Delivering(job: nat, outcome: Outcome)
    | Cancelling
    | Done

  datatype Collector = Collecting | Waiting(error: bool) | Returned(failed: bool)

  // One call of the function that translates a file.
  datatype Entry = Entry(worker: nat, job: nat, outcome: Outcome)

  // The results channel holds sent[received..].
  datatype State = State(
    next: nat, closed: bool, workers: seq<Worker>, sent: seq<Message>, received: nat, cancelled: bool,
    log: seq<Entry>, dropped: seq<nat>, processed: nat, skipped: nat, collector: Collector)

  datatype Event =
    | Begin(w: nat)
    | Handoff(w: nat)
    | Check(w: nat)
    | Work(w: nat, cut: bool)
    | Send(w: nat)
    | Cancel(w: nat)
    | Exit(w: nat)
    | CloseJobs
    | Collect
    | AllIn
    | Return

  function Init(c: Config): State {
    State(0, false, seq(|c.starts|, w requires 0 <= w < |c.starts| => Starting(c.starts[w])), [], 0, false, [], [], 0,
          0, Collecting)
  }

  predicate AllDone(ws: seq<Worker>) {
    forall w :: 0 <= w < |ws| ==> ws[w] == Done
  }

  predicate Enabled(c: Config, s: State, e: Event) {
    match e
    case Begin(w) => w < |s.workers| && s.workers[w].Starting?
    case Handoff(w) => w < |s.workers| && s.workers[w].Idle? && s.next < c.N()
    case Check(w) => w < |s.workers| && s.workers[w].Holding?
    case Work(w, cut) =>
      w < |s.workers| && s.workers[w].Working? && s.workers[w].job < c.N() && (cut ==> s.cancelled)
    case Send(w) =>
      && w < |s.workers| && (s.workers[w].Failing? || s.workers[w].Delivering?)
      && |s.sent| - s.received < c.N()
    case Cancel(w) => w < |s.workers| && s.workers[w].Cancelling?
    case Exit(w) => w < |s.workers| && s.workers[w].Idle? && s.closed
    case CloseJobs => s.next == c.N() && !s.closed
    case Collect => s.collector.Collecting? && s.received < c.N() && s.received < |s.sent|
    case AllIn => s.collector.Collecting? && s.received == c.N()
    case Return => s.collector.Waiting? && AllDone(s.workers)
  }

  function Step(c: Config, s: State, e: Event): State
    requires Enabled(c, s, e)
  {
    match e
    case Begin(w) => s.(workers := s.workers[w := if s.workers[w].ok then Idle else Failing])
    case Handoff(w) => s.(workers := s.workers[w := Holding(s.next)], next := s.next + 1)
    case Check(w) =>
      if s.cancelled then s.(workers := s.workers[w := Done], dropped := s.dropped + [s.workers[w].job])
      else s.(workers := s.workers[w := Working(s.workers[w].job)])
    case Work(w, cut) =>
      var job := s.workers[w].job;
      var outcome := if cut then Failed else c.outcomes[job];
      s.(workers := s.workers[w := Delivering(job, outcome)], log := s.log + [Entry(w, job, outcome)])
    case Send(w) => SendResult(s, w)
    case Cancel(w) => s.(workers := s.workers[w := Done], cancelled := true)
    case Exit(w) => s.(workers := s.workers[w := Done])
    case CloseJobs => s.(closed := true)
    case Collect => CollectResult(s, s.sent[s.received])
    case AllIn => s.(collector := Waiting(false))
    case Return => s.(collector := Returned(s.collector.error))
  }

  // The result goes out first; only then is the rest cancelled.
  function SendResult(s: State, w: nat): State
    requires w < |s.workers| && (s.workers[w].Failing? || s.workers[w].Delivering?)
  {
    match s.workers[w]
    case Delivering(job, outcome) =>
      s.(workers := s.workers[w := if outcome == Failed then Cancelling else Idle],
         sent := s.sent + [Finished(job, outcome)])
    case _ => s.(workers := s.workers[w := Done], sent := s.sent + [StartFailed])
  }

  function CollectResult(s: State, m: Message): State {
    if IsError(m) then s.(received := s.received + 1, collector := Waiting(true))
    else if m.outcome == Skipped then s.(received := s.received + 1, skipped := s.skipped + 1)
    else s.(received := s.received + 1, processed := s.processed + 1)
  }

  predicate IsError(m: Message) {
    m.StartFailed? || m.outcome == Failed
  }

  // ----- runs

  ghost predicate Path(c: Config, s: State, es: seq<Event>, t: State)
    decreases |es|
  {
    if es == [] then s == t else Enabled(c, s, es[0]) && Path(c, Step(c, s, es[0]), es[1..], t)
  }

  ghost predicate Reachable(c: Config, t: State) {
    exists es :: Path(c, Init(c), es, t)
  }

  lemma {:induction false} PathAppend(c: Config, s: State, es: seq<Event>, t: State, fs: seq<Event>, u: State)
    requires Path(c, s, es, t) && Path(c, t, fs, u)
    ensures Path(c, s, es + fs, u)
    decreases |es|
  {
    if es == [] {
      assert es + fs == fs;
    } else {
      assert (es + fs)[0] == es[0] && (es + fs)[1..] == es[1..] + fs;
      PathAppend(c, Step(c, s, es[0]), es[1..], t, fs, u);
    }
  }

  // ----- counting

  datatype Kind = OwesStart | Holds | Delivers(o: Outcome)

  predicate Is(w: Worker, k: Kind) {
    match k
    case OwesStart => w == Starting(false) || w == Failing
    case Holds => w.Holding? || w.Working?
    case Delivers(o) => w.Delivering? && w.outcome == o
  }

  function One(b: bool): nat {
    if b then 1 else 0
  }

  function Count(ws: seq<Worker>, k: Kind): nat {
    if ws == [] then 0 else One(Is(ws[0], k)) + Count(ws[1..], k)
  }

  lemma {:induction false} CountUpdate(ws: seq<Worker>, w: nat, x: Worker, k: Kind)
    requires w < |ws|
    ensures Count(ws[w := x], k) + One(Is(ws[w], k)) == Count(ws, k) + One(Is(x, k))
  {
    if w == 0 {
      assert ws[w := x][1..] == ws[1..];
    } else {
      assert ws[w := x][1..] == ws[1..][w - 1 := x];
      CountUpdate(ws[1..], w - 1, x, k);
    }
  }

  lemma {:induction false} CountHas(ws: seq<Worker>, w: nat, k: Kind)
    requires w < |ws| && Is(ws[w], k)
    ensures Count(ws, k) > 0
  {
    if w > 0 { CountHas(ws[1..], w - 1, k); }
  }

  lemma {:induction false} CountNone(ws: seq<Worker>, k: Kind)
    requires AllDone(ws)
    ensures Count(ws, k) == 0
  {
    if ws != [] { CountNone(ws[1..], k); }
  }

  // Kinds of results among the first k.
  function Starts(ms: seq<Message>, k: nat): nat
    requires k <= |ms|
  {
    if k == 0 then 0 else Starts(ms, k - 1) + One(ms[k - 1].StartFailed?)
  }

  function Results(ms: seq<Message>, k: nat, o: Outcome): nat
    requires k <= |ms|
  {
    if k == 0 then 0 else Results(ms, k - 1, o) + One(ms[k - 1].Finished? && ms[k - 1].outcome == o)
  }

  lemma {:induction false} ResultsPrefix(ms: seq<Message>, m: Message, k: nat, o: Outcome)
    requires k <= |ms|
    ensures Results(ms + [m], k, o) == Results(ms, k, o)
  {
    if k > 0 { ResultsPrefix(ms, m, k - 1, o); }
  }

  lemma {:induction false} StartsPrefix(ms: seq<Message>, m: Message, k: nat)
    requires k <= |ms|
    ensures Starts(ms + [m], k) == Starts(ms, k)
  {
    if k > 0 { StartsPrefix(ms, m, k - 1); }
  }

  lemma {:induction false} ResultsSum(ms: seq<Message>, k: nat)
    requires k <= |ms|
    ensures k == Starts(ms, k) + Results(ms, k, Processed) + Results(ms, k, Skipped) + Results(ms, k, Failed)
  {
    if k > 0 { ResultsSum(ms, k - 1); }
  }

  lemma {:induction false} ResultsGrow(ms: seq<Message>, k: nat, o: Outcome)
    requires k <= |ms|
    ensures Results(ms, k, o) <= Results(ms, |ms|, o)
    ensures Starts(ms, k) <= Starts(ms, |ms|)
    decreases |ms| - k
  {
    if k < |ms| { ResultsGrow(ms, k + 1, o); }
  }

  function Runs(log: seq<Entry>, o: Outcome): nat {
    if log == [] then 0 else Runs(log[..|log| - 1], o) + One(log[|log| - 1].outcome == o)
  }

  lemma RunsAppend(log: seq<Entry>, x: Entry, o: Outcome)
    ensures Runs(log + [x], o) == Runs(log, o) + One(x.outcome == o)
  {
    assert (log + [x])[..|log|] == log;
  }

  lemma {:induction false} RunsSum(log: seq<Entry>)
    ensures |log| == Runs(log, Processed) + Runs(log, Skipped) + Runs(log, Failed)
  {
    if log != [] { RunsSum(log[..|log| - 1]); }
  }

  function Fails(starts: seq<bool>): nat {
    if starts == [] then 0 else One(!starts[0]) + Fails(starts[1..])
  }

  lemma {:induction false} InitCounts(starts: seq<bool>, ws: seq<Worker>, k: Kind)
    requires |ws| == |starts|
    requires forall w :: 0 <= w < |ws| ==> ws[w] == Starting(starts[w])
    ensures Count(ws, k) == if k == OwesStart then Fails(starts) else 0
  {
    if ws != [] { InitCounts(starts[1..], ws[1..], k); }
  }

  // ----- invariants

  predicate Shape(c: Config, s: State) {
    && |s.workers| == |c.starts|
    && s.next <= c.N()
    && (s.closed ==> s.next == c.N())
    && s.received <= c.N()
    && s.received <= |s.sent| <= s.received + c.N()
  }

  // The counters count what was received, and an error is the last thing received.
  predicate Counted(c: Config, s: State)
    requires Shape(c, s)
  {
    && s.processed == Results(s.sent, s.received, Processed)
    && s.skipped == Results(s.sent, s.received, Skipped)
    && match s.collector
       case Collecting => s.received == s.processed + s.skipped
       case Waiting(error) => Settled(c, s, error)
       case Returned(failed) => Settled(c, s, failed) && AllDone(s.workers)
  }

  predicate Settled(c: Config, s: State, error: bool) {
    if error then s.received == s.processed + s.skipped + 1 else s.received == s.processed + s.skipped == c.N()
  }

  // Every failed start and every job handed out is accounted for.
  predicate Conserved(c: Config, s: State) {
    && Starts(s.sent, |s.sent|) + Count(s.workers, OwesStart) == Fails(c.starts)
    && (forall o :: Runs(s.log, o) == Results(s.sent, |s.sent|, o) + Count(s.workers, Delivers(o)))
    && |s.log| + Count(s.workers, Holds) + |s.dropped| == s.next
  }

  predicate FailureSent(s: State) {
    Results(s.sent, |s.sent|, Failed) > 0
  }

  predicate WorkerCause(c: Config, s: State, w: nat)
    requires |s.workers| == |c.starts| && w < |s.workers|
  {
    match s.workers[w]
    case Starting(ok) => ok == c.starts[w]
    case Failing => !c.starts[w]
    case Cancelling => c.starts[w] && FailureSent(s)
    case Done => c.starts[w] ==> s.closed || FailureSent(s)
    case _ => c.starts[w]
  }

  // Nothing is cancelled, dropped or ended early before a failed result is in the channel.
  predicate Caused(c: Config, s: State)
    requires |s.workers| == |c.starts|
  {
    && (forall w :: 0 <= w < |s.workers| ==> WorkerCause(c, s, w))
    && (s.cancelled ==> FailureSent(s))
    && (s.dropped != [] ==> s.cancelled)
    && (s.next > 0 ==> true in c.starts)
  }

  // The job a worker has taken and not yet run, or -1.
  function JobOf(w: Worker): int {
    match w
    case Holding(job) => job
    case Working(job) => job
    case _ => -1
  }

  predicate Ran(log: seq<Entry>, job: int) {
    exists i :: 0 <= i < |log| && log[i].job == job
  }

  predicate RunsOnce(log: seq<Entry>) {
    forall i, j :: 0 <= i < j < |log| ==> log[i].job != log[j].job
  }

  predicate Carried(ws: seq<Worker>, job: int) {
    exists w :: 0 <= w < |ws| && JobOf(ws[w]) == job
  }

  predicate CarryApart(ws: seq<Worker>) {
    forall v, w :: 0 <= v < w < |ws| && JobOf(ws[v]) >= 0 ==> JobOf(ws[v]) != JobOf(ws[w])
  }

  predicate CarriesNew(ws: seq<Worker>, log: seq<Entry>, next: nat) {
    forall w :: 0 <= w < |ws| && JobOf(ws[w]) >= 0 ==> JobOf(ws[w]) < next && !Ran(log, JobOf(ws[w]))
  }

  // A file comes to its own outcome, or fails because it was cut short.
  predicate Faithful(c: Config, log: seq<Entry>, next: nat) {
    forall i :: 0 <= i < |log| ==>
      log[i].job < next <= c.N() && (log[i].outcome == c.outcomes[log[i].job] || log[i].outcome == Failed)
  }

  predicate FailsByItself(c: Config, e: Entry) {
    e.job < c.N() && c.outcomes[e.job] == Failed
  }

  // Nothing fails before some file fails by itself.
  predicate Genuine(c: Config, log: seq<Entry>) {
    Runs(log, Failed) > 0 ==> exists i :: 0 <= i < |log| && FailsByItself(c, log[i])
  }

  predicate Covered(s: State) {
    forall j :: 0 <= j < s.next ==> Carried(s.workers, j) || Ran(s.log, j) || j in s.dropped
  }

  // Each job handed out is with one worker, or was run once, or was dropped.
  predicate Owned(c: Config, s: State) {
    && RunsOnce(s.log)
    && CarryApart(s.workers)
    && CarriesNew(s.workers, s.log, s.next)
    && Faithful(c, s.log, s.next)
    && Covered(s)
  }

  predicate Inv(c: Config, s: State) {
    Shape(c, s) && Counted(c, s) && Conserved(c, s) && Caused(c, s) && Owned(c, s) && Genuine(c, s.log)
  }

  lemma InitInv(c: Config)
    ensures Inv(c, Init(c))
  {
    var ws := Init(c).workers;
    InitCounts(c.starts, ws, OwesStart);
    InitCounts(c.starts, ws, Holds);
    forall o ensures Count(ws, Delivers(o)) == 0 { InitCounts(c.starts, ws, Delivers(o)); }
  }

  lemma KeepsShape(c: Config, s: State, e: Event)
    requires Shape(c, s) && Enabled(c, s, e)
    ensures Shape(c, Step(c, s, e))
  {
  }

  lemma SendKeepsCounted(c: Config, s: State, w: nat)
    requires Shape(c, s) && Counted(c, s) && Enabled(c, s, Send(w))
    ensures Shape(c, Step(c, s, Send(w))) && Counted(c, Step(c, s, Send(w)))
  {
    KeepsShape(c, s, Send(w));
    var t := SendResult(s, w);
    var m := t.sent[|s.sent|];
    assert t.sent == s.sent + [m];
    ResultsPrefix(s.sent, m, s.received, Processed);
    ResultsPrefix(s.sent, m, s.received, Skipped);
  }

  lemma CollectKeepsCounted(c: Config, s: State)
    requires Shape(c, s) && Counted(c, s) && Enabled(c, s, Collect)
    ensures Shape(c, Step(c, s, Collect)) && Counted(c, Step(c, s, Collect))
  {
    KeepsShape(c, s, Collect);
  }

  lemma KeepsCounted(c: Config, s: State, e: Event)
    requires Shape(c, s) && Counted(c, s) && Enabled(c, s, e)
    ensures Shape(c, Step(c, s, e)) && Counted(c, Step(c, s, e))
  {
    KeepsShape(c, s, e);
    match e
    case Send(w) => SendKeepsCounted(c, s, w);
    case Collect => CollectKeepsCounted(c, s);
    case _ =>
      assert Step(c, s, e).sent == s.sent && Step(c, s, e).received == s.received;
  }

  lemma SendMoves(ws: seq<Worker>, w: nat, x: Worker, ms: seq<Message>, m: Message, o: Outcome)
    requires w < |ws|
    requires || (ws[w] == Failing && x == Done && m == StartFailed)
             || (ws[w].Delivering? && (x == Idle || x == Cancelling) && m == Finished(ws[w].job, ws[w].outcome))
    ensures Starts(ms + [m], |ms| + 1) + Count(ws[w := x], OwesStart) == Starts(ms, |ms|) + Count(ws, OwesStart)
    ensures Results(ms + [m], |ms| + 1, o) + Count(ws[w := x], Delivers(o))
         == Results(ms, |ms|, o) + Count(ws, Delivers(o))
    ensures Count(ws[w := x], Holds) == Count(ws, Holds)
  {
    CountUpdate(ws, w, x, OwesStart);
    CountUpdate(ws, w, x, Holds);
    CountUpdate(ws, w, x, Delivers(o));
    ResultsPrefix(ms, m, |ms|, o);
    StartsPrefix(ms, m, |ms|);
  }

  lemma SentKeepsConserved(c: Config, s: State, t: State, w: nat, x: Worker, m: Message)
    requires w < |s.workers| && t.workers == s.workers[w := x] && t.sent == s.sent + [m]
    requires t.log == s.log && t.dropped == s.dropped && t.next == s.next
    requires || (s.workers[w] == Failing && x == Done && m == StartFailed)
             || (s.workers[w].Delivering? && (x == Idle || x == Cancelling)
                 && m == Finished(s.workers[w].job, s.workers[w].outcome))
    requires Conserved(c, s)
    ensures Conserved(c, t)
  {
    forall o ensures Runs(t.log, o) == Results(t.sent, |t.sent|, o) + Count(t.workers, Delivers(o)) {
      SendMoves(s.workers, w, x, s.sent, m, o);
    }
    SendMoves(s.workers, w, x, s.sent, m, Failed);
  }

  lemma SendKeepsConserved(c: Config, s: State, w: nat)
    requires Enabled(c, s, Send(w)) && Conserved(c, s)
    ensures Conserved(c, Step(c, s, Send(w)))
  {
    var t := SendResult(s, w);
    match s.workers[w]
    case Delivering(job, outcome) =>
      SentKeepsConserved(c, s, t, w, if outcome == Failed then Cancelling else Idle, Finished(job, outcome));
    case _ =>
      SentKeepsConserved(c, s, t, w, Done, StartFailed);
  }

  lemma WorkKeepsConserved(c: Config, s: State, w: nat, cut: bool)
    requires Shape(c, s) && Conserved(c, s) && Enabled(c, s, Work(w, cut))
    ensures Conserved(c, Step(c, s, Work(w, cut)))
  {
    var t := Step(c, s, Work(w, cut));
    CountUpdate(s.workers, w, t.workers[w], OwesStart);
    CountUpdate(s.workers, w, t.workers[w], Holds);
    forall o ensures Runs(t.log, o) == Results(t.sent, |t.sent|, o) + Count(t.workers, Delivers(o)) {
      CountUpdate(s.workers, w, t.workers[w], Delivers(o));
      RunsAppend(s.log, t.log[|s.log|], o);
    }
  }

  // A worker's move that touches no result.
  lemma MoveKeepsConserved(c: Config, s: State, t: State, w: nat, x: Worker)
    requires w < |s.workers| && t.workers == s.workers[w := x]
    requires t.sent == s.sent && t.log == s.log
    requires Is(x, OwesStart) == Is(s.workers[w], OwesStart) && !x.Delivering? && !s.workers[w].Delivering?
    requires One(Is(x, Holds)) + |t.dropped| - t.next == One(Is(s.workers[w], Holds)) + |s.dropped| - s.next
    requires Conserved(c, s)
    ensures Conserved(c, t)
  {
    CountUpdate(s.workers, w, x, OwesStart);
    CountUpdate(s.workers, w, x, Holds);
    forall o ensures Runs(t.log, o) == Results(t.sent, |t.sent|, o) + Count(t.workers, Delivers(o)) {
      CountUpdate(s.workers, w, x, Delivers(o));
    }
  }

  lemma BeginKeepsConserved(c: Config, s: State, w: nat)
    requires Enabled(c, s, Begin(w)) && Conserved(c, s)
    ensures Conserved(c, Step(c, s, Begin(w)))
  {
    MoveKeepsConserved(c, s, Step(c, s, Begin(w)), w, if s.workers[w].ok then Idle else Failing);
  }

  lemma HandoffKeepsConserved(c: Config, s: State, w: nat)
    requires Enabled(c, s, Handoff(w)) && Conserved(c, s)
    ensures Conserved(c, Step(c, s, Handoff(w)))
  {
    MoveKeepsConserved(c, s, Step(c, s, Handoff(w)), w, Holding(s.next));
  }

  lemma CheckKeepsConserved(c: Config, s: State, w: nat)
    requires Enabled(c, s, Check(w)) && Conserved(c, s)
    ensures Conserved(c, Step(c, s, Check(w)))
  {
    MoveKeepsConserved(c, s, Step(c, s, Check(w)), w, if s.cancelled then Done else Working(s.workers[w].job));
  }

  lemma EndKeepsConserved(c: Config, s: State, e: Event)
    requires (e.Cancel? || e.Exit?) && Enabled(c, s, e) && Conserved(c, s)
    ensures Conserved(c, Step(c, s, e))
  {
    MoveKeepsConserved(c, s, Step(c, s, e), e.w, Done);
  }

  lemma OtherKeepsConserved(c: Config, s: State, e: Event)
    requires (e.CloseJobs? || e.Collect? || e.AllIn? || e.Return?) && Enabled(c, s, e) && Conserved(c, s)
    ensures Conserved(c, Step(c, s, e))
  {
    assert Step(c, s, e).workers == s.workers && Step(c, s, e).sent == s.sent;
  }

  lemma KeepsConserved(c: Config, s: State, e: Event)
    requires Shape(c, s) && Conserved(c, s) && Enabled(c, s, e)
    ensures Conserved(c, Step(c, s, e))
  {
    match e
    case Send(w) => SendKeepsConserved(c, s, w);
    case Work(w, cut) => WorkKeepsConserved(c, s, w, cut);
    case Begin(w) => BeginKeepsConserved(c, s, w);
    case Handoff(w) => HandoffKeepsConserved(c, s, w);
    case Check(w) => CheckKeepsConserved(c, s, w);
    case Cancel(w) => EndKeepsConserved(c, s, e);
    case Exit(w) => EndKeepsConserved(c, s, e);
    case _ => OtherKeepsConserved(c, s, e);
  }

  lemma FailureStaysSent(c: Config, s: State, e: Event)
    requires Enabled(c, s, e)
    ensures FailureSent(s) ==> FailureSent(Step(c, s, e))
    ensures e.Send? && s.workers[e.w].Delivering? && s.workers[e.w].outcome == Failed ==> FailureSent(Step(c, s, e))
  {
    if e.Send? { ResultsPrefix(s.sent, Step(c, s, e).sent[|s.sent|], |s.sent|, Failed); }
  }

  lemma KeepsCaused(c: Config, s: State, e: Event)
    requires Shape(c, s) && Caused(c, s) && Enabled(c, s, e)
    ensures |Step(c, s, e).workers| == |c.starts| && Caused(c, Step(c, s, e))
  {
    FailureStaysSent(c, s, e);
    if e.Cancel? || e.Handoff? { assert WorkerCause(c, s, e.w); }
    var t := Step(c, s, e);
    forall w | 0 <= w < |t.workers|
      ensures WorkerCause(c, t, w)
    {
      assert WorkerCause(c, s, w);
    }
  }

  lemma OwnedAsBefore(c: Config, s: State, t: State)
    requires Owned(c, s)
    requires t.next == s.next && t.log == s.log && t.dropped == s.dropped && |t.workers| == |s.workers|
    requires forall w :: 0 <= w < |s.workers| ==> JobOf(t.workers[w]) == JobOf(s.workers[w])
    ensures Owned(c, t)
  {
    forall j | 0 <= j < t.next
      ensures Carried(t.workers, j) || Ran(t.log, j) || j in t.dropped
    {
      if Carried(s.workers, j) {
        var w :| 0 <= w < |s.workers| && JobOf(s.workers[w]) == j;
        assert JobOf(t.workers[w]) == j;
      }
    }
  }

  lemma HandoffKeepsOwned(c: Config, s: State, w: nat)
    requires Shape(c, s) && Owned(c, s) && Enabled(c, s, Handoff(w))
    ensures Owned(c, Step(c, s, Handoff(w)))
  {
    var t := Step(c, s, Handoff(w));
    assert JobOf(t.workers[w]) == s.next;
    forall j | 0 <= j < s.next
      ensures Carried(t.workers, j) || Ran(t.log, j) || j in t.dropped
    {
      if Carried(s.workers, j) {
        var v :| 0 <= v < |s.workers| && JobOf(s.workers[v]) == j;
        assert JobOf(t.workers[v]) == j;
      }
    }
  }

  // A worker lets go of its job: by running it, or by dropping it.
  lemma ReleaseKeepsCovered(s: State, t: State, w: nat)
    requires Covered(s)
    requires w < |s.workers| == |t.workers| && t.workers == s.workers[w := t.workers[w]] && t.next == s.next
    requires s.log <= t.log && s.dropped <= t.dropped
    requires Ran(t.log, JobOf(s.workers[w])) || JobOf(s.workers[w]) in t.dropped
    ensures Covered(t)
  {
    forall j | 0 <= j < t.next
      ensures Carried(t.workers, j) || Ran(t.log, j) || j in t.dropped
    {
      if Carried(s.workers, j) {
        var v :| 0 <= v < |s.workers| && JobOf(s.workers[v]) == j;
        if v != w { assert JobOf(t.workers[v]) == j; }
      } else if Ran(s.log, j) {
        var i :| 0 <= i < |s.log| && s.log[i].job == j;
        assert t.log[i].job == j;
      }
    }
  }

  lemma DropKeepsOwned(c: Config, s: State, w: nat)
    requires Shape(c, s) && Owned(c, s) && Enabled(c, s, Check(w)) && s.cancelled
    ensures Owned(c, Step(c, s, Check(w)))
  {
    ReleaseKeepsCovered(s, Step(c, s, Check(w)), w);
  }

  lemma WorkKeepsOwned(c: Config, s: State, w: nat, cut: bool)
    requires Shape(c, s) && Owned(c, s) && Enabled(c, s, Work(w, cut))
    ensures Owned(c, Step(c, s, Work(w, cut)))
  {
    var t := Step(c, s, Work(w, cut));
    var job := s.workers[w].job;
    assert JobOf(s.workers[w]) == job;
    assert t.log[|s.log|].job == job;
    assert Ran(t.log, job);
    ReleaseKeepsCovered(s, t, w);
    forall v | 0 <= v < |t.workers| && JobOf(t.workers[v]) >= 0
      ensures JobOf(t.workers[v]) < t.next && !Ran(t.log, JobOf(t.workers[v]))
    {
      assert t.workers[v] == s.workers[v];
      assert JobOf(s.workers[v]) != job;
    }
  }

  lemma KeepsOwned(c: Config, s: State, e: Event)
    requires Shape(c, s) && Owned(c, s) && Enabled(c, s, e)
    ensures Owned(c, Step(c, s, e))
  {
    match e
    case Handoff(w) => HandoffKeepsOwned(c, s, w);
    case Work(w, cut) => WorkKeepsOwned(c, s, w, cut);
    case Check(w) => if s.cancelled { DropKeepsOwned(c, s, w); } else { OwnedAsBefore(c, s, Step(c, s, e)); }
    case _ => OwnedAsBefore(c, s, Step(c, s, e));
  }

  lemma GenuineGrows(c: Config, log: seq<Entry>, e: Entry)
    requires Genuine(c, log) && (e.outcome == Failed ==> FailsByItself(c, e) || Runs(log, Failed) > 0)
    ensures Genuine(c, log + [e])
  {
    RunsAppend(log, e, Failed);
    if Runs(log, Failed) > 0 {
      var i :| 0 <= i < |log| && FailsByItself(c, log[i]);
      assert FailsByItself(c, (log + [e])[i]);
    } else if e.outcome == Failed {
      assert FailsByItself(c, (log + [e])[|log|]);
    }
  }

  // A run can only be cut short once a failed result is in the channel.
  lemma KeepsGenuine(c: Config, s: State, e: Event)
    requires Shape(c, s) && Conserved(c, s) && Caused(c, s) && Genuine(c, s.log) && Enabled(c, s, e)
    ensures Genuine(c, Step(c, s, e).log)
  {
    if e.Work? {
      assert Runs(s.log, Failed) == Results(s.sent, |s.sent|, Failed) + Count(s.workers, Delivers(Failed));
      var job := s.workers[e.w].job;
      GenuineGrows(c, s.log, Entry(e.w, job, if e.cut then Failed else c.outcomes[job]));
    }
  }

  lemma KeepsInv(c: Config, s: State, e: Event)
    requires Inv(c, s) && Enabled(c, s, e)
    ensures Inv(c, Step(c, s, e))
  {
    KeepsCounted(c, s, e);
    KeepsConserved(c, s, e);
    KeepsCaused(c, s, e);
    KeepsOwned(c, s, e);
    KeepsGenuine(c, s, e);
  }

  lemma {:induction false} PathKeepsInv(c: Config, s: State, es: seq<Event>, t: State)
    requires Inv(c, s) && Path(c, s, es, t)
    ensures Inv(c, t)
    decreases |es|
  {
    if es != [] {
      KeepsInv(c, s, es[0]);
      PathKeepsInv(c, Step(c, s, es[0]), es[1..], t);
    }
  }

  lemma ReachableInv(c: Config, s: State)
    requires Reachable(c, s)
    ensures Inv(c, s)
  {
    InitInv(c);
    var es :| Path(c, Init(c), es, s);
    PathKeepsInv(c, Init(c), es, s);
  }
}
