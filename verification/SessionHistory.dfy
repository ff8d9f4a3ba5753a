/** What a stored session remembers, and when one goes, said over whole runs of operations on the store. */
module SessionHistory {
  import opened Text
  import opened SessionStore

  // A session is busy while it has a run or an abort controller.
  predicate Busy(session: Session) {
    (session.activeRunId.Some? && session.activeRunId.value != "") || session.abortController.Some?
  }

  // ----- one operation

  // What an operation may make of the session `id`, which is None while it is not stored.
  ghost predicate Becomes(was: Option<Session>, timed: Timed, next: Option<Session>, id: SessionId) {
    match (was, next)
    case (None, None) => true
    case (None, Some(n)) =>
      timed.op == CreateOp(id, n.sessionKey, n.cwd) && n == Session(n.sessionKey, n.cwd, timed.now, timed.now, None, None)
    case (Some(w), None) => timed.op.CreateOp? && timed.op.id != id && !Busy(w)
    case (Some(w), Some(n)) => if timed.op.id != id then n == w else IsChangedBy(w, timed.op, timed.now, n)
  }

  ghost predicate IsChangedBy(w: Session, op: Op, now: int, n: Session) {
    match op
    case CreateOp(_, key, cwd) => n == Session(key, cwd, w.createdAt, now, w.abortController, w.activeRunId)
    case TouchOp(_) => n == Session(w.sessionKey, w.cwd, w.createdAt, now, w.abortController, w.activeRunId)
    case SetOp(_, run, controller) => n == Session(w.sessionKey, w.cwd, w.createdAt, now, Some(controller), Some(run))
    case ClearOp(_) => n == Session(w.sessionKey, w.cwd, w.createdAt, now, None, None)
    case CancelOp(_) =>
      n == if w.abortController.None? then w else Session(w.sessionKey, w.cwd, w.createdAt, now, None, None)
  }

  ghost function Lookup(s: Store, id: SessionId): Option<Session> {
    if id in s.sessions then Some(s.sessions[id]) else None
  }

  lemma CreateBecomes(s: Store, limits: Limits, op: Op, now: int, id: SessionId)
    requires Valid(s) && op.CreateOp?
    ensures Becomes(Lookup(s, id), Timed(op, now), Lookup(Perform(s, limits, op, now), id), id)
  {
    if op.id !in s.sessions {
      var mid := CreateThins(s, limits, op.id, op.key, op.cwd, now);
    }
  }

  lemma PerformBecomes(s: Store, limits: Limits, op: Op, now: int, id: SessionId)
    requires Valid(s)
    ensures Becomes(Lookup(s, id), Timed(op, now), Lookup(Perform(s, limits, op, now), id), id)
  {
    if op.CreateOp? {
      CreateBecomes(s, limits, op, now, id);
    }
  }

  // ----- a run, as it is seen under one name

  // What is stored under `id` after the first k operations.
  ghost function Seen(limits: Limits, ops: seq<Timed>, id: SessionId, k: nat): Option<Session>
    requires ValidLimits(limits) && k <= |ops|
  {
    Lookup(After(limits, ops[..k]), id)
  }

  lemma SeenBecomes(limits: Limits, ops: seq<Timed>, id: SessionId, k: nat)
    requires ValidLimits(limits) && k < |ops|
    ensures Becomes(Seen(limits, ops, id, k), ops[k], Seen(limits, ops, id, k + 1), id)
  {
    var first := ops[..k + 1];
    assert first[..k] == ops[..k] && first[k] == ops[k];
    PerformBecomes(After(limits, ops[..k]), limits, ops[k].op, ops[k].now, id);
    assert Timed(ops[k].op, ops[k].now) == ops[k];
  }

  // The states a session goes through, one in front of each operation and one at the end.
  ghost predicate Follows(states: seq<Option<Session>>, ops: seq<Timed>, id: SessionId) {
    && |states| == |ops| + 1 && states[0] == None
    && forall k: nat :: k < |ops| ==> Becomes(states[k], ops[k], states[k + 1], id)
  }

  lemma Watch(limits: Limits, ops: seq<Timed>, id: SessionId) returns (states: seq<Option<Session>>)
    requires ValidLimits(limits)
    ensures Follows(states, ops, id)
    ensures forall k: nat :: k <= |ops| ==> states[k] == Seen(limits, ops, id, k)
  {
    states := seq(|ops| + 1, k requires 0 <= k <= |ops| => Seen(limits, ops, id, k));
    assert ops[..0] == [];
    forall k: nat | k < |ops| ensures Becomes(states[k], ops[k], states[k + 1], id) {
      SeenBecomes(limits, ops, id, k);
    }
  }

  // ----- what is remembered

  // The operation at k created the session, which has been stored ever since; that is its time of creation.
  lemma {:induction false} Creation(states: seq<Option<Session>>, ops: seq<Timed>, id: SessionId, n: nat) returns (k: nat)
    requires Follows(states, ops, id) && n <= |ops| && states[n].Some?
    ensures k < n && ops[k].op.CreateOp? && ops[k].op.id == id && ops[k].now == states[n].value.createdAt
    ensures states[k].None? && forall j :: k < j <= n ==> states[j].Some?
  {
    k := n - 1;
    assert Becomes(states[k], ops[k], states[k + 1], id);
    if states[k].Some? { k := Creation(states, ops, id, n - 1); }
  }

  // A stored session was created by one operation and has been stored ever since.
  lemma CreationIsRemembered(limits: Limits, ops: seq<Timed>, id: SessionId) returns (k: nat)
    requires ValidLimits(limits) && Seen(limits, ops, id, |ops|).Some?
    ensures k < |ops| && ops[k].op.CreateOp? && ops[k].op.id == id
    ensures Seen(limits, ops, id, |ops|).value.createdAt == ops[k].now
    ensures Seen(limits, ops, id, k).None? && forall j: nat :: k < j <= |ops| ==> Seen(limits, ops, id, j).Some?
  {
    var states := Watch(limits, ops, id);
    k := Creation(states, ops, id, |ops|);
  }

  lemma {:induction false} Naming(states: seq<Option<Session>>, ops: seq<Timed>, id: SessionId, n: nat) returns (k: nat)
    requires Follows(states, ops, id) && n <= |ops| && states[n].Some?
    ensures k < n && ops[k].op == CreateOp(id, states[n].value.sessionKey, states[n].value.cwd)
    ensures forall j :: k < j < n ==> !(ops[j].op.CreateOp? && ops[j].op.id == id)
  {
    k := n - 1;
    assert Becomes(states[k], ops[k], states[k + 1], id);
    if !(ops[k].op.CreateOp? && ops[k].op.id == id) { k := Naming(states, ops, id, n - 1); }
  }

  // The key and the directory of a stored session are those it was created with last.
  lemma KeyIsRemembered(limits: Limits, ops: seq<Timed>, id: SessionId) returns (k: nat)
    requires ValidLimits(limits) && Seen(limits, ops, id, |ops|).Some?
    ensures var session := Seen(limits, ops, id, |ops|).value;
            k < |ops| && ops[k].op == CreateOp(id, session.sessionKey, session.cwd)
    ensures forall j :: k < j < |ops| ==> !(ops[j].op.CreateOp? && ops[j].op.id == id)
  {
    var states := Watch(limits, ops, id);
    k := Naming(states, ops, id, |ops|);
  }

  // An operation on the session touches it, but for a cancel that finds nothing to cancel.
  predicate Touches(was: Option<Session>, op: Op, id: SessionId) {
    op.id == id && !(op.CancelOp? && was.Some? && was.value.abortController.None?)
  }

  lemma {:induction false} Touching(states: seq<Option<Session>>, ops: seq<Timed>, id: SessionId, n: nat) returns (k: nat)
    requires Follows(states, ops, id) && n <= |ops| && states[n].Some?
    ensures k < n && Touches(states[k], ops[k].op, id) && states[n].value.lastTouchedAt == ops[k].now
    ensures forall j: nat :: k < j < n ==> !Touches(states[j], ops[j].op, id)
  {
    k := n - 1;
    assert Becomes(states[k], ops[k], states[k + 1], id);
    if !Touches(states[k], ops[k].op, id) { k := Touching(states, ops, id, n - 1); }
  }

  // A stored session has the time of the last operation that touched it.
  lemma TouchIsRemembered(limits: Limits, ops: seq<Timed>, id: SessionId) returns (k: nat)
    requires ValidLimits(limits) && Seen(limits, ops, id, |ops|).Some?
    ensures k < |ops| && Touches(Seen(limits, ops, id, k), ops[k].op, id)
    ensures Seen(limits, ops, id, |ops|).value.lastTouchedAt == ops[k].now
    ensures forall j: nat :: k < j < |ops| ==> !Touches(Seen(limits, ops, id, j), ops[j].op, id)
  {
    var states := Watch(limits, ops, id);
    k := Touching(states, ops, id, |ops|);
  }

  predicate EndsRun(op: Op, id: SessionId) {
    (op.ClearOp? || op.CancelOp?) && op.id == id
  }

  // The operation at k gave a stored session the run, and none of the operations up to the n-th has changed that.
  ghost predicate Runs(states: seq<Option<Session>>, ops: seq<Timed>, id: SessionId, n: nat, k: nat, run: RunId, controller: nat)
    requires |states| == |ops| + 1 && n <= |ops|
  {
    && k < n && ops[k].op == SetOp(id, run, controller) && states[k].Some?
    && forall j :: k < j < n ==> !EndsRun(ops[j].op, id) && !(ops[j].op.SetOp? && ops[j].op.id == id)
  }

  lemma {:induction false} Running(states: seq<Option<Session>>, ops: seq<Timed>, id: SessionId, n: nat,
                                   run: RunId, controller: nat)
    requires Follows(states, ops, id) && n <= |ops|
    ensures (exists k :: Runs(states, ops, id, n, k, run, controller)) <==>
              states[n].Some? && states[n].value.activeRunId == Some(run) && states[n].value.abortController == Some(controller)
    ensures states[n].Some? ==> (states[n].value.activeRunId.Some? <==> states[n].value.abortController.Some?)
  {
    if n > 0 {
      var last := n - 1;
      assert Becomes(states[last], ops[last], states[last + 1], id);
      Running(states, ops, id, last, run, controller);
      RunGoesOn(states, ops, id, last, n, run, controller);
    }
  }

  lemma RunGoesOn(states: seq<Option<Session>>, ops: seq<Timed>, id: SessionId, last: nat, n: nat,
                  run: RunId, controller: nat)
    requires |states| == |ops| + 1 && last + 1 == n <= |ops|
    ensures (exists k :: Runs(states, ops, id, n, k, run, controller)) <==>
              var op := ops[last].op;
              if op.SetOp? && op.id == id then op == SetOp(id, run, controller) && states[last].Some?
              else !EndsRun(op, id) && exists k :: Runs(states, ops, id, last, k, run, controller)
  {
    var op := ops[last].op;
    if k: nat :| Runs(states, ops, id, n, k, run, controller) {
      if k < last { assert Runs(states, ops, id, last, k, run, controller); }
    }
    if k: nat :| Runs(states, ops, id, last, k, run, controller) {
      if !(op.SetOp? && op.id == id) && !EndsRun(op, id) { assert Runs(states, ops, id, n, k, run, controller); }
    }
    if op == SetOp(id, run, controller) && states[last].Some? {
      assert Runs(states, ops, id, n, last, run, controller);
    }
  }

  // A session is stored and has a run, and its controller, exactly when they were set while it was stored and
  // the run has neither been cleared or cancelled nor another one been set since.
  lemma RunIsRememberedIff(limits: Limits, ops: seq<Timed>, id: SessionId, run: RunId, controller: nat)
    returns (states: seq<Option<Session>>)
    requires ValidLimits(limits)
    ensures |states| == |ops| + 1 && forall k: nat :: k <= |ops| ==> states[k] == Seen(limits, ops, id, k)
    ensures var last := Seen(limits, ops, id, |ops|);
            && ((exists k :: Runs(states, ops, id, |ops|, k, run, controller)) <==>
                  last.Some? && last.value.activeRunId == Some(run) && last.value.abortController == Some(controller))
            && (last.Some? ==> (last.value.activeRunId.Some? <==> last.value.abortController.Some?))
  {
    states := Watch(limits, ops, id);
    Running(states, ops, id, |ops|, run, controller);
  }

  // ----- who goes

  // Reaping takes exactly the sessions that are not busy and have not been touched for the time to live.
  lemma ReapedIff(s: Store, limits: Limits, now: int, x: SessionId)
    requires Valid(s) && x in s.sessions
    ensures x !in Reap(s, limits, now).sessions <==>
              !Busy(s.sessions[x]) && now - s.sessions[x].lastTouchedAt >= limits.idleTtlMs
  {
    ReapFacts(s, s.order, now - limits.idleTtlMs);
  }

  // The idle session touched least recently is the only one that making room takes.
  lemma OthersStay(reaped: Store, x: SessionId, y: SessionId)
    requires IsEvictable(reaped, x) && y in reaped.sessions && y != x
    ensures x in reaped.sessions && !Busy(reaped.sessions[x])
    ensures !Busy(reaped.sessions[y]) ==> reaped.sessions[x].lastTouchedAt <= reaped.sessions[y].lastTouchedAt
    ensures Evict(reaped).Some? ==> y in Evict(reaped).value.sessions
  {
    var k: nat :| IsOldestIdle(reaped, reaped.order, k) && reaped.order[k] == x;
    assert y in reaped.order;
    var j: nat :| j < |reaped.order| && reaped.order[j] == y;
    EvictableIsChosen(reaped, x);
  }

  // What else goes when a session is created is one that is not busy and was touched no later than any other such one;
  // it goes only from a full store.
  lemma EvictedIsOldest(s: Store, limits: Limits, id: SessionId, key: string, cwd: string, now: int, x: SessionId, y: SessionId)
    requires Valid(s) && id !in s.sessions
    requires x in Reap(s, limits, now).sessions && x !in Create(s, limits, id, key, cwd, now).store.sessions
    requires y in Reap(s, limits, now).sessions && y != x
    ensures var reaped := Reap(s, limits, now).sessions;
            && |reaped| >= limits.maxSessions && !Busy(reaped[x])
            && (!Busy(reaped[y]) ==> reaped[x].lastTouchedAt <= reaped[y].lastTouchedAt)
    ensures y in Create(s, limits, id, key, cwd, now).store.sessions
  {
    CreateEvictsOldest(s, limits, id, key, cwd, now, x);
    OthersStay(Reap(s, limits, now), x, y);
  }

  // Creating a session that fits into the store takes nothing but what is reaped, and adds it at the end.
  lemma CreatedIsAdded(s: Store, limits: Limits, id: SessionId, key: string, cwd: string, now: int)
    requires Valid(s) && id !in s.sessions && |Reap(s, limits, now).sessions| < limits.maxSessions
    ensures var created, reaped := Create(s, limits, id, key, cwd, now), Reap(s, limits, now);
            && created.ok && created.store.order == reaped.order + [id]
            && created.store.sessions == reaped.sessions[id := Session(key, cwd, now, now, None, None)]
            && created.store.runs == s.runs
  {
    ReapFacts(s, s.order, now - limits.idleTtlMs);
  }
}
