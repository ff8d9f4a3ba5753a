/**
 The bounded store of ACP sessions: idle sessions are reaped by age and, when the store is full, the
 session idle for longest is evicted. An index leads from an active run back to its session.
 */
module SessionStore {
  import opened Text

  type SessionId = string
  type RunId = string

  datatype Session = Session(
    sessionKey: string, cwd: string, createdAt: int, lastTouchedAt: int,
    abortController: Option<nat>, activeRunId: Option<RunId>)

  // `order` is the order in which the sessions are iterated: that of their insertion.
  datatype Store = Store(order: seq<SessionId>, sessions: map<SessionId, Session>, runs: map<RunId, SessionId>)

  datatype Limits = Limits(maxSessions: nat, idleTtlMs: nat)

  const DEFAULT_MAX_SESSIONS: nat := 5_000
  const DEFAULT_IDLE_TTL_MS: nat := 24 * 60 * 60 * 1_000

  ghost predicate ValidLimits(limits: Limits) {
    limits.maxSessions >= 1 && limits.idleTtlMs >= 1000
  }

  // ----- iteration order

  function Without(order: seq<SessionId>, id: SessionId): seq<SessionId> {
    if order == [] then []
    else if order[0] == id then Without(order[1..], id)
    else [order[0]] + Without(order[1..], id)
  }

  ghost predicate Lists(order: seq<SessionId>, ids: set<SessionId>) {
    && (forall i, j :: 0 <= i < j < |order| ==> order[i] != order[j])
    && (forall id :: id in order <==> id in ids)
  }

  lemma {:induction false} WithoutLists(order: seq<SessionId>, ids: set<SessionId>, id: SessionId)
    requires Lists(order, ids)
    ensures Lists(Without(order, id), ids - {id})
    ensures forall x :: x in Without(order, id) <==> x in order && x != id
  {
    if order != [] {
      var first, rest := order[0], order[1..];
      assert order == [first] + rest;
      assert forall i :: 0 <= i < |rest| ==> rest[i] == order[i + 1];
      assert Lists(rest, ids - {first});
      WithoutLists(rest, ids - {first}, id);
      if first == id {
        assert ids - {first} - {id} == ids - {id};
      } else {
        var kept := Without(rest, id);
        assert forall i :: 0 < i < |[first] + kept| ==> ([first] + kept)[i] == kept[i - 1];
        assert first !in kept;
      }
    }
  }

  // ----- the operations on the store's contents

  // A string is treated as absent when it is null or empty.
  predicate IsSet(s: Option<string>) {
    s.Some? && s.value != ""
  }

  predicate IsIdle(session: Session) {
    !IsSet(session.activeRunId) && session.abortController.None?
  }

  function Touch(s: Store, id: SessionId, now: int): Store {
    if id in s.sessions then s.(sessions := s.sessions[id := s.sessions[id].(lastTouchedAt := now)]) else s
  }

  function DropRun(runs: map<RunId, SessionId>, run: Option<RunId>): map<RunId, SessionId> {
    if IsSet(run) then runs - {run.value} else runs
  }

  function Remove(s: Store, id: SessionId): Store {
    if id !in s.sessions then s
    else Store(Without(s.order, id), s.sessions - {id}, DropRun(s.runs, s.sessions[id].activeRunId))
  }

  predicate IsReapable(session: Session, idleBefore: int) {
    IsIdle(session) && session.lastTouchedAt <= idleBefore
  }

  // Removing those of `ids`, one after the other, that have been idle since `idleBefore` or longer.
  function ReapFirst(s: Store, ids: seq<SessionId>, idleBefore: int): Store
    decreases |ids|
  {
    if ids == [] then s
    else
      var id := ids[0];
      ReapFirst(if id in s.sessions && IsReapable(s.sessions[id], idleBefore) then Remove(s, id) else s, ids[1..], idleBefore)
  }

  function Reap(s: Store, limits: Limits, now: int): Store {
    ReapFirst(s, s.order, now - limits.idleTtlMs)
  }

  // The idle session touched least recently among `ids`, and the earlier one of two touched together.
  function OldestIdle(s: Store, ids: seq<SessionId>, best: Option<SessionId>): Option<SessionId>
    requires forall id :: id in ids ==> id in s.sessions
    requires best.Some? ==> best.value in s.sessions
  {
    if ids == [] then best
    else
      var id := ids[0];
      assert forall x :: x in ids[1..] ==> x in ids;
      var skip := !IsIdle(s.sessions[id])
                  || (best.Some? && s.sessions[id].lastTouchedAt >= s.sessions[best.value].lastTouchedAt);
      OldestIdle(s, ids[1..], if skip then best else Some(id))
  }

  ghost predicate Valid(s: Store) {
    Lists(s.order, s.sessions.Keys)
  }

  // Fails when no session is idle, and also when the oldest one's id is the empty string.
  function Evict(s: Store): Option<Store>
    requires Valid(s)
  {
    var oldest := OldestIdle(s, s.order, None);
    if IsSet(oldest) then Some(Remove(s, oldest.value)) else None
  }

  // One idle session has to go if the store is full.
  function MakeRoom(s: Store, limits: Limits): Option<Store>
    requires Valid(s)
  {
    if |s.sessions| >= limits.maxSessions then Evict(s) else Some(s)
  }

  datatype Created = Created(store: Store, ok: bool)

  function Create(s: Store, limits: Limits, id: SessionId, key: string, cwd: string, now: int): Created
    requires Valid(s)
  {
    if id in s.sessions then
      var refreshed := s.sessions[id].(sessionKey := key, cwd := cwd, lastTouchedAt := now);
      Created(s.(sessions := s.sessions[id := refreshed]), true)
    else
      var reaped := Reap(s, limits, now);
      ReapFacts(s, s.order, now - limits.idleTtlMs);
      var room := MakeRoom(reaped, limits);
      if room.None? then Created(reaped, false)
      else Created(Insert(room.value, id, Session(key, cwd, now, now, None, None)), true)
  }

  function Insert(s: Store, id: SessionId, session: Session): Store {
    Store(s.order + [id], s.sessions[id := session], s.runs)
  }

  function SetActiveRun(s: Store, id: SessionId, run: RunId, controller: nat, now: int): Store {
    if id !in s.sessions then s
    else
      var active := s.sessions[id].(activeRunId := Some(run), abortController := Some(controller), lastTouchedAt := now);
      s.(sessions := s.sessions[id := active], runs := s.runs[run := id])
  }

  function Deactivated(session: Session, now: int): Session {
    session.(activeRunId := None, abortController := None, lastTouchedAt := now)
  }

  function ClearActiveRun(s: Store, id: SessionId, now: int): Store {
    if id !in s.sessions then s
    else Store(s.order, s.sessions[id := Deactivated(s.sessions[id], now)], DropRun(s.runs, s.sessions[id].activeRunId))
  }

  // Nothing happens without an abort controller.
  function CancelActiveRun(s: Store, id: SessionId, now: int): Store {
    if id in s.sessions && s.sessions[id].abortController.Some? then ClearActiveRun(s, id, now) else s
  }

  // ----- reaping

  // Reaping removes exactly the reapable sessions it looks at, and leaves the run index alone.
  lemma {:induction false} ReapFacts(s: Store, ids: seq<SessionId>, idleBefore: int)
    requires Valid(s)
    ensures var r := ReapFirst(s, ids, idleBefore);
            && Valid(r) && r.runs == s.runs
            && (forall id :: id in r.sessions <==>
                               id in s.sessions && !(id in ids && IsReapable(s.sessions[id], idleBefore)))
            && (forall id :: id in r.sessions ==> r.sessions[id] == s.sessions[id])
    decreases |ids|
  {
    if ids != [] {
      var id := ids[0];
      assert forall x :: x in ids <==> x == id || x in ids[1..];
      WithoutLists(s.order, s.sessions.Keys, id);
      var next := if id in s.sessions && IsReapable(s.sessions[id], idleBefore) then Remove(s, id) else s;
      assert next.sessions.Keys == if next == s then s.sessions.Keys else s.sessions.Keys - {id};
      ReapFacts(next, ids[1..], idleBefore);
    }
  }

  // ----- eviction

  ghost predicate IsOldestIdle(s: Store, ids: seq<SessionId>, k: int)
    requires forall id :: id in ids ==> id in s.sessions
  {
    && 0 <= k < |ids| && IsIdle(s.sessions[ids[k]])
    && forall j :: 0 <= j < |ids| && IsIdle(s.sessions[ids[j]]) ==>
         var mine, other := s.sessions[ids[k]].lastTouchedAt, s.sessions[ids[j]].lastTouchedAt;
         mine <= other && (j < k ==> mine < other)
  }

  // The choice is the least recently touched idle session, the earliest of several; there is none
  // exactly when every session is active.
  lemma {:induction false} OldestIdleIsOldest(s: Store, done: seq<SessionId>, ids: seq<SessionId>, best: Option<SessionId>)
    returns (k: int)
    requires forall id :: id in done + ids ==> id in s.sessions
    requires forall id :: id in done ==> id in done + ids
    requires forall id :: id in ids ==> id in done + ids
    requires best.Some? ==> best.value in done && exists j :: IsOldestIdle(s, done, j) && done[j] == best.value
    requires best.None? ==> forall id :: id in done ==> !IsIdle(s.sessions[id])
    ensures var r := OldestIdle(s, ids, best);
            && (r.Some? ==> IsOldestIdle(s, done + ids, k) && (done + ids)[k] == r.value)
            && (r.None? ==> forall id :: id in done + ids ==> !IsIdle(s.sessions[id]))
    decreases |ids|
  {
    if ids == [] {
      assert done + ids == done;
      k := 0;
      if best.Some? {
        k :| IsOldestIdle(s, done, k) && done[k] == best.value;
      }
    } else {
      var id := ids[0];
      var more := done + [id];
      assert more + ids[1..] == done + ids;
      assert forall x :: x in more <==> x in done || x == id;
      assert (done + ids)[|done|] == id;
      var skip := !IsIdle(s.sessions[id])
                  || (best.Some? && s.sessions[id].lastTouchedAt >= s.sessions[best.value].lastTouchedAt);
      var next := if skip then best else Some(id);
      assert forall i :: 0 <= i < |done| ==> more[i] == done[i];
      if skip && best.Some? {
        var j :| IsOldestIdle(s, done, j) && done[j] == best.value;
        assert IsOldestIdle(s, more, j);
      } else if !skip {
        if best.Some? {
          var j :| IsOldestIdle(s, done, j) && done[j] == best.value;
        }
        assert IsOldestIdle(s, more, |done|);
      }
      k := OldestIdleIsOldest(s, more, ids[1..], next);
    }
  }

  lemma EvictionChoice(s: Store) returns (k: int)
    requires Valid(s)
    ensures var r := OldestIdle(s, s.order, None);
            && (r.Some? ==> IsOldestIdle(s, s.order, k) && s.order[k] == r.value)
            && (r.None? <==> forall id :: id in s.sessions ==> !IsIdle(s.sessions[id]))
  {
    assert [] + s.order == s.order;
    k := OldestIdleIsOldest(s, [], s.order, None);
  }

  // A session that was just looked up is not evicted while another idle one was touched earlier.
  lemma TouchedIsNotEvicted(s: Store, id: SessionId, now: int, other: SessionId)
    requires Valid(s)
    requires other in s.sessions && other != id && IsIdle(s.sessions[other]) && s.sessions[other].lastTouchedAt < now
    ensures OldestIdle(Touch(s, id, now), s.order, None) != Some(id)
  {
    var t := Touch(s, id, now);
    assert t.sessions.Keys == s.sessions.Keys;
    var k := EvictionChoice(t);
    assert other in t.order;
    var j :| 0 <= j < |t.order| && t.order[j] == other;
  }

  ghost predicate AllActive(s: Store) {
    forall x :: x in s.sessions ==> !IsIdle(s.sessions[x])
  }

  // The session named `x` is the idle one touched least recently.
  ghost predicate IsEvictable(s: Store, x: SessionId) {
    Valid(s) && exists k :: IsOldestIdle(s, s.order, k) && s.order[k] == x
  }

  lemma EvictableIsChosen(s: Store, x: SessionId)
    requires Valid(s)
    ensures IsEvictable(s, x) <==> OldestIdle(s, s.order, None) == Some(x)
    ensures AllActive(s) <==> OldestIdle(s, s.order, None) == None
  {
    var k := EvictionChoice(s);
    if j :| IsOldestIdle(s, s.order, j) && s.order[j] == x {
      assert IsIdle(s.sessions[s.order[j]]);
    }
  }

  // Making room fails exactly when the store is full and either every session is active or the one idle
  // longest is the session named by the empty string. Otherwise a full store loses that session alone.
  lemma MakeRoomFacts(s: Store, limits: Limits)
    requires Valid(s)
    ensures MakeRoom(s, limits).None? <==> |s.sessions| >= limits.maxSessions && (AllActive(s) || IsEvictable(s, ""))
    ensures MakeRoom(s, limits).Some? ==>
              var r := MakeRoom(s, limits).value;
              && Valid(r)
              && (|s.sessions| < limits.maxSessions ==> r == s)
              && (|s.sessions| >= limits.maxSessions ==>
                    exists x :: IsEvictable(s, x) && x in s.sessions && IsIdle(s.sessions[x]) && r == Remove(s, x))
  {
    EvictableIsChosen(s, "");
    var oldest := OldestIdle(s, s.order, None);
    if oldest.Some? {
      var k := EvictionChoice(s);
      EvictableIsChosen(s, oldest.value);
      RemoveIsValid(s, oldest.value);
    }
  }

  // ----- what creating a session does

  // Some idle sessions are gone; nothing else has changed.
  ghost predicate Thins(s: Store, r: Store) {
    && r.runs == s.runs
    && (forall x :: x in r.sessions ==> x in s.sessions && r.sessions[x] == s.sessions[x])
    && (forall x :: x in s.sessions && x !in r.sessions ==> IsIdle(s.sessions[x]))
  }

  lemma ReapThins(s: Store, limits: Limits, now: int)
    requires Valid(s)
    ensures Valid(Reap(s, limits, now)) && Thins(s, Reap(s, limits, now))
  {
    ReapFacts(s, s.order, now - limits.idleTtlMs);
  }

  lemma MakeRoomThins(s: Store, limits: Limits)
    requires Valid(s) && MakeRoom(s, limits).Some?
    ensures Valid(MakeRoom(s, limits).value) && Thins(s, MakeRoom(s, limits).value)
  {
    MakeRoomFacts(s, limits);
  }

  // A new session is added to a thinned store, or the thinned store has no room for it.
  lemma CreateThins(s: Store, limits: Limits, id: SessionId, key: string, cwd: string, now: int) returns (mid: Store)
    requires Valid(s) && id !in s.sessions
    ensures Valid(mid) && Thins(s, mid)
    ensures var created := Create(s, limits, id, key, cwd, now);
            created.store == if created.ok then Insert(mid, id, Session(key, cwd, now, now, None, None)) else mid
  {
    ReapThins(s, limits, now);
    mid := Reap(s, limits, now);
    if MakeRoom(mid, limits).Some? {
      MakeRoomThins(mid, limits);
      mid := MakeRoom(mid, limits).value;
    }
  }

  lemma CreateIsValid(s: Store, limits: Limits, id: SessionId, key: string, cwd: string, now: int)
    requires Valid(s)
    ensures Valid(Create(s, limits, id, key, cwd, now).store)
  {
    if id in s.sessions {
      assert Create(s, limits, id, key, cwd, now).store.sessions.Keys == s.sessions.Keys;
    } else {
      var mid := CreateThins(s, limits, id, key, cwd, now);
      InsertIsValid(mid, id, Session(key, cwd, now, now, None, None));
    }
  }

  // A session with a run in progress is neither reaped nor evicted.
  lemma CreateSparesActive(s: Store, limits: Limits, id: SessionId, key: string, cwd: string, now: int, x: SessionId)
    requires Valid(s)
    requires x in s.sessions && !IsIdle(s.sessions[x]) && x != id
    ensures var r := Create(s, limits, id, key, cwd, now).store; x in r.sessions && r.sessions[x] == s.sessions[x]
  {
    if id !in s.sessions {
      var mid := CreateThins(s, limits, id, key, cwd, now);
    }
  }

  // Creating a session fails exactly when there is no room for it after reaping.
  lemma CreateFailsIff(s: Store, limits: Limits, id: SessionId, key: string, cwd: string, now: int)
    requires Valid(s)
    ensures var reaped := Reap(s, limits, now);
            !Create(s, limits, id, key, cwd, now).ok <==>
            && id !in s.sessions && |reaped.sessions| >= limits.maxSessions
            && (AllActive(reaped) || IsEvictable(reaped, ""))
  {
    ReapFacts(s, s.order, now - limits.idleTtlMs);
    MakeRoomFacts(Reap(s, limits, now), limits);
  }

  // A session that reaping leaves and creating removes was the idle one touched least recently.
  lemma CreateEvictsOldest(s: Store, limits: Limits, id: SessionId, key: string, cwd: string, now: int, x: SessionId)
    requires Valid(s)
    requires id !in s.sessions && x in Reap(s, limits, now).sessions
    requires x !in Create(s, limits, id, key, cwd, now).store.sessions
    ensures IsEvictable(Reap(s, limits, now), x) && |Reap(s, limits, now).sessions| >= limits.maxSessions
  {
    ReapFacts(s, s.order, now - limits.idleTtlMs);
    MakeRoomFacts(Reap(s, limits, now), limits);
  }

  lemma CreateKeepsBound(s: Store, limits: Limits, id: SessionId, key: string, cwd: string, now: int)
    requires Valid(s) && ValidLimits(limits) && |s.sessions| <= limits.maxSessions
    ensures var r := Create(s, limits, id, key, cwd, now).store; Valid(r) && |r.sessions| <= limits.maxSessions
  {
    if id in s.sessions {
      var r := Create(s, limits, id, key, cwd, now).store;
      assert r.sessions.Keys == s.sessions.Keys;
    } else {
      var reaped := Reap(s, limits, now);
      ReapFacts(s, s.order, now - limits.idleTtlMs);
      assert reaped.sessions.Keys <= s.sessions.Keys;
      SubsetSize(reaped.sessions.Keys, s.sessions.Keys);
      assert |reaped.sessions.Keys| == |reaped.sessions| && |s.sessions.Keys| == |s.sessions|;
      MakeRoomFacts(reaped, limits);
      var room := MakeRoom(reaped, limits);
      if room.Some? {
        if |reaped.sessions| >= limits.maxSessions {
          var x :| x in reaped.sessions && room.value == Remove(reaped, x);
          RemoveIsValid(reaped, x);
        }
        InsertIsValid(room.value, id, Session(key, cwd, now, now, None, None));
      }
    }
  }

  lemma {:induction false} SubsetSize(a: set<SessionId>, b: set<SessionId>)
    requires a <= b
    ensures |a| <= |b|
  {
    assert b == a + (b - a);
  }

  lemma RemoveIsValid(s: Store, id: SessionId)
    requires Valid(s) && id in s.sessions
    ensures Valid(Remove(s, id)) && |Remove(s, id).sessions| == |s.sessions| - 1
  {
    WithoutLists(s.order, s.sessions.Keys, id);
    assert Remove(s, id).sessions.Keys == s.sessions.Keys - {id};
    assert |s.sessions| == |s.sessions.Keys| && |Remove(s, id).sessions| == |Remove(s, id).sessions.Keys|;
  }

  lemma InsertIsValid(s: Store, id: SessionId, session: Session)
    requires Valid(s) && id !in s.sessions
    ensures Valid(Insert(s, id, session)) && |Insert(s, id, session).sessions| == |s.sessions| + 1
  {
    var r := Insert(s, id, session);
    assert r.sessions.Keys == s.sessions.Keys + {id};
    assert |s.sessions| == |s.sessions.Keys| && |r.sessions| == |r.sessions.Keys|;
  }

  // ----- the index from runs to sessions

  // The index is the inverse of the sessions' active runs, and a session has an abort controller exactly
  // while it has an active run.
  ghost predicate IndexAgrees(s: Store) {
    && (forall run :: run in s.runs ==>
          s.runs[run] in s.sessions && s.sessions[s.runs[run]].activeRunId == Some(run))
    && (forall id :: id in s.sessions && s.sessions[id].activeRunId.Some? ==>
          var run := s.sessions[id].activeRunId.value; run != "" && run in s.runs && s.runs[run] == id)
    && (forall id :: id in s.sessions ==> (s.sessions[id].activeRunId.None? <==> s.sessions[id].abortController.None?))
  }

  // Starting a run keeps the index exact if and only if the session has no other run in progress and
  // no other session has this run: setActiveRun itself does not retire what was there.
  lemma SetActiveRunKeepsIndexIff(s: Store, id: SessionId, run: RunId, controller: nat, now: int)
    requires IndexAgrees(s) && id in s.sessions
    ensures IndexAgrees(SetActiveRun(s, id, run, controller, now)) <==>
            && (s.sessions[id].activeRunId.Some? ==> s.sessions[id].activeRunId.value == run)
            && (run in s.runs ==> s.runs[run] == id)
            && run != ""
  {
    var r := SetActiveRun(s, id, run, controller, now);
    var was := s.sessions[id].activeRunId;
    assert r.sessions[id].activeRunId == Some(run) && r.runs[run] == id;
    if was.Some? && was.value != run {
      assert was.value in r.runs && r.runs[was.value] == id;
    } else if run in s.runs && s.runs[run] != id {
      assert r.sessions[s.runs[run]].activeRunId == Some(run);
    }
  }

  lemma ClearActiveRunKeepsIndex(s: Store, id: SessionId, now: int)
    requires IndexAgrees(s)
    ensures var r := ClearActiveRun(s, id, now);
            && IndexAgrees(r)
            && (id in r.sessions ==> r.sessions[id].activeRunId.None?)
  {
  }

  lemma CancelActiveRunIsClear(s: Store, id: SessionId, now: int)
    requires IndexAgrees(s)
    ensures var r := CancelActiveRun(s, id, now);
            && IndexAgrees(r)
            && (id in r.sessions ==> r.sessions[id].activeRunId.None?)
            && r.runs == ClearActiveRun(s, id, now).runs
  {
    ClearActiveRunKeepsIndex(s, id, now);
  }

  // Creating a session changes no run, and nothing of the other sessions but which idle ones are stored.
  lemma CreateFrame(s: Store, limits: Limits, id: SessionId, key: string, cwd: string, now: int)
    requires Valid(s)
    ensures var created := Create(s, limits, id, key, cwd, now);
            var r := created.store;
            && r.runs == s.runs
            && (forall x :: x in r.sessions && x != id ==> x in s.sessions && r.sessions[x] == s.sessions[x])
            && (id in s.sessions ==> id in r.sessions && r.sessions[id].activeRunId == s.sessions[id].activeRunId
                                     && r.sessions[id].abortController == s.sessions[id].abortController)
            && (id !in s.sessions && id in r.sessions ==>
                  r.sessions[id].activeRunId.None? && r.sessions[id].abortController.None?)
  {
    if id !in s.sessions {
      var mid := CreateThins(s, limits, id, key, cwd, now);
    }
  }

  lemma CreateKeepsIndex(s: Store, limits: Limits, id: SessionId, key: string, cwd: string, now: int)
    requires Valid(s) && IndexAgrees(s)
    ensures IndexAgrees(Create(s, limits, id, key, cwd, now).store)
  {
    var r := Create(s, limits, id, key, cwd, now).store;
    CreateFrame(s, limits, id, key, cwd, now);
    forall run | run in r.runs
      ensures r.runs[run] in r.sessions && r.sessions[r.runs[run]].activeRunId == Some(run)
    {
      var x := s.runs[run];
      assert !IsIdle(s.sessions[x]);
      if x != id {
        CreateSparesActive(s, limits, id, key, cwd, now, x);
      }
    }
  }

  // ----- every run of the store

  datatype Op =
    | CreateOp(id: SessionId, key: string, cwd: string)
    | TouchOp(id: SessionId)
    | SetOp(id: SessionId, run: RunId, controller: nat)
    | ClearOp(id: SessionId)
    | CancelOp(id: SessionId)

  function Perform(s: Store, limits: Limits, op: Op, now: int): Store
    requires Valid(s)
  {
    match op
    case CreateOp(id, key, cwd) => Create(s, limits, id, key, cwd, now).store
    case TouchOp(id) => Touch(s, id, now)
    case SetOp(id, run, controller) => SetActiveRun(s, id, run, controller, now)
    case ClearOp(id) => ClearActiveRun(s, id, now)
    case CancelOp(id) => CancelActiveRun(s, id, now)
  }

  ghost predicate Bounded(s: Store, limits: Limits) {
    Valid(s) && |s.sessions| <= limits.maxSessions
  }

  lemma PerformKeepsBound(s: Store, limits: Limits, op: Op, now: int)
    requires ValidLimits(limits) && Bounded(s, limits)
    ensures Bounded(Perform(s, limits, op, now), limits)
  {
    if op.CreateOp? {
      CreateKeepsBound(s, limits, op.id, op.key, op.cwd, now);
    } else {
      var r := Perform(s, limits, op, now);
      assert r.sessions.Keys == s.sessions.Keys;
    }
  }

  // A session that an operation removes had no run in progress.
  lemma PerformSparesActive(s: Store, limits: Limits, op: Op, now: int, x: SessionId)
    requires Valid(s)
    requires x in s.sessions && !IsIdle(s.sessions[x])
    ensures x in Perform(s, limits, op, now).sessions
  {
    if op.CreateOp? && op.id != x {
      CreateSparesActive(s, limits, op.id, op.key, op.cwd, now, x);
    }
  }

  datatype Timed = Timed(op: Op, now: int)

  // The store after a run of operations, from the empty store on; it stays within its bound.
  ghost function After(limits: Limits, ops: seq<Timed>): (s: Store)
    requires ValidLimits(limits)
    ensures Bounded(s, limits)
  {
    if ops == [] then Store([], map[], map[])
    else
      var last := |ops| - 1;
      PerformKeepsBound(After(limits, ops[..last]), limits, ops[last].op, ops[last].now);
      Perform(After(limits, ops[..last]), limits, ops[last].op, ops[last].now)
  }

  // Over every run, a session that disappears had no run in progress.
  lemma RunsSpareActive(limits: Limits, ops: seq<Timed>, x: SessionId)
    requires ValidLimits(limits) && ops != []
    ensures var before, after := After(limits, ops[..|ops| - 1]), After(limits, ops);
            x in before.sessions && x !in after.sessions ==> IsIdle(before.sessions[x])
  {
    var before, last := After(limits, ops[..|ops| - 1]), ops[|ops| - 1];
    if x in before.sessions && !IsIdle(before.sessions[x]) {
      PerformSparesActive(before, limits, last.op, last.now, x);
    }
  }

  lemma FirstCreated(limits: Limits, x: SessionId, key: string, cwd: string, t: int)
    requires ValidLimits(limits)
    ensures After(limits, [Timed(CreateOp(x, key, cwd), t)])
         == Store([x], map[x := Session(key, cwd, t, t, None, None)], map[])
  {
    var ops := [Timed(CreateOp(x, key, cwd), t)];
    var empty := Store([], map[], map[]);
    assert ops[..0] == [];
    assert After(limits, []) == empty;
    assert Reap(empty, limits, t) == empty;
    assert [] + [x] == [x];
    assert Create(empty, limits, x, key, cwd, t).store == Insert(empty, x, Session(key, cwd, t, t, None, None));
  }

  lemma OnlyOneIsOldest(s: Store, x: SessionId, session: Session)
    requires s == Store([x], map[x := session], map[]) && IsIdle(session)
    ensures Valid(s) && OldestIdle(s, s.order, None) == Some(x) && |s.sessions| == 1
  {
    assert s.order[0] == x && s.order[1..] == [];
    assert s.sessions[x] == session;
    assert OldestIdle(s, [], Some(x)) == Some(x);
    assert s.sessions.Keys == {x};
    assert |s.sessions| == |s.sessions.Keys|;
  }

  // A store for one session that holds an idle one, not yet old enough to be reaped, makes room for another
  // session if and only if the name of the idle one is not empty.
  lemma NamelessIsNotEvicted(limits: Limits, x: SessionId, y: SessionId, key: string, cwd: string, t: int, now: int)
    requires ValidLimits(limits) && limits.maxSessions == 1 && x != y && now < t + limits.idleTtlMs
    ensures var s := After(limits, [Timed(CreateOp(x, key, cwd), t)]);
            && s.sessions.Keys == {x} && IsIdle(s.sessions[x])
            && (Create(s, limits, y, key, cwd, now).ok <==> x != "")
  {
    FirstCreated(limits, x, key, cwd, t);
    var s := After(limits, [Timed(CreateOp(x, key, cwd), t)]);
    OnlyOneIsOldest(s, x, Session(key, cwd, t, t, None, None));
    assert !IsReapable(s.sessions[x], now - limits.idleTtlMs);
    var idleBefore := now - limits.idleTtlMs;
    assert ReapFirst(s, [], idleBefore) == s;
    assert s.order == [x] && s.order[1..] == [];
    assert Reap(s, limits, now) == s;
  }

  // ----- the program

  class InMemorySessionStore {
    const limits: Limits
    var order: seq<SessionId>
    var sessions: map<SessionId, Session>
    var runIdToSessionId: map<RunId, SessionId>

    function State(): Store
      reads this
    {
      Store(order, sessions, runIdToSessionId)
    }

    // At least one session, and at least a second; what is not given is five thousand, and a day.
    constructor (maxSessions: Option<int>, idleTtlMs: Option<int>)
      ensures State() == Store([], map[], map[]) && ValidLimits(limits)
      ensures maxSessions.None? ==> limits.maxSessions == 5000
      ensures maxSessions.Some? ==> limits.maxSessions == if maxSessions.value <= 1 then 1 else maxSessions.value
      ensures idleTtlMs.None? ==> limits.idleTtlMs == 86400000
      ensures idleTtlMs.Some? ==> limits.idleTtlMs == if idleTtlMs.value <= 1000 then 1000 else idleTtlMs.value
    {
      var most := if maxSessions.Some? then maxSessions.value else DEFAULT_MAX_SESSIONS;
      var ttl := if idleTtlMs.Some? then idleTtlMs.value else DEFAULT_IDLE_TTL_MS;
      limits := Limits(if most < 1 then 1 else most, if ttl < 1000 then 1000 else ttl);
      order, sessions, runIdToSessionId := [], map[], map[];
    }

    method RemoveSession(id: SessionId) returns (removed: bool)
      modifies this
      ensures State() == Remove(old(State()), id)
      ensures removed == (id in old(sessions))
    {
      if id !in sessions {
        return false;
      }
      var run := sessions[id].activeRunId;
      if IsSet(run) {
        runIdToSessionId := runIdToSessionId - {run.value};
      }
      sessions := sessions - {id};
      order := Without(order, id);
      return true;
    }

    method ReapIdleSessions(nowMs: int)
      requires Valid(State())
      modifies this
      ensures State() == Reap(old(State()), limits, nowMs)
    {
      var idleBefore := nowMs - limits.idleTtlMs;
      var entries := order;
      var k := 0;
      assert entries[0..] == entries;
      while k < |entries|
        invariant 0 <= k <= |entries|
        invariant ReapFirst(old(State()), entries, idleBefore) == ReapFirst(State(), entries[k..], idleBefore)
      {
        var id := entries[k];
        assert entries[k..][1..] == entries[k + 1..];
        k := k + 1;
        if id !in sessions || !IsIdle(sessions[id]) {
          continue;
        }
        if sessions[id].lastTouchedAt > idleBefore {
          continue;
        }
        var _ := RemoveSession(id);
      }
    }

    method EvictOldestIdleSession() returns (evicted: bool)
      requires Valid(State())
      modifies this
      ensures match Evict(old(State()))
              case None => !evicted && State() == old(State())
              case Some(r) => evicted && State() == r
    {
      var oldestSessionId: Option<SessionId> := None;
      var k := 0;
      assert order[0..] == order;
      while k < |order|
        invariant 0 <= k <= |order|
        invariant oldestSessionId.Some? ==> oldestSessionId.value in sessions
        invariant forall id :: id in order[k..] ==> id in sessions
        invariant State() == old(State())
        invariant OldestIdle(State(), order, None) == OldestIdle(State(), order[k..], oldestSessionId)
      {
        var id := order[k];
        assert order[k..][1..] == order[k + 1..];
        assert order[k..][0] == id;
        k := k + 1;
        if !IsIdle(sessions[id]) {
          continue;
        }
        if oldestSessionId.Some? && sessions[id].lastTouchedAt >= sessions[oldestSessionId.value].lastTouchedAt {
          continue;
        }
        oldestSessionId := Some(id);
      }
      if !IsSet(oldestSessionId) {
        return false;
      }
      evicted := RemoveSession(oldestSessionId.value);
    }

    method EnsureRoom() returns (ok: bool)
      requires Valid(State())
      modifies this
      ensures match MakeRoom(old(State()), limits)
              case None => !ok && State() == old(State())
              case Some(r) => ok && State() == r
    {
      if |sessions| >= limits.maxSessions {
        ok := EvictOldestIdleSession();
      } else {
        ok := true;
      }
    }

    method CreateSession(id: SessionId, sessionKey: string, cwd: string, nowMs: int) returns (ok: bool)
      requires Valid(State())
      modifies this
      ensures Created(State(), ok) == Create(old(State()), limits, id, sessionKey, cwd, nowMs)
    {
      if id in sessions {
        var existing := sessions[id];
        sessions := sessions[id := existing.(sessionKey := sessionKey, cwd := cwd, lastTouchedAt := nowMs)];
        return true;
      }
      ReapFacts(State(), order, nowMs - limits.idleTtlMs);
      ReapIdleSessions(nowMs);
      ok := EnsureRoom();
      if !ok {
        return;
      }
      sessions := sessions[id := Session(sessionKey, cwd, nowMs, nowMs, None, None)];
      order := order + [id];
    }

    method GetSession(id: SessionId, nowMs: int) returns (session: Option<Session>)
      modifies this
      ensures State() == Touch(old(State()), id, nowMs)
      ensures session == if id in sessions then Some(sessions[id]) else None
    {
      if id !in sessions {
        return None;
      }
      sessions := sessions[id := sessions[id].(lastTouchedAt := nowMs)];
      return Some(sessions[id]);
    }

    // With an exact index, looking up a run finds the session the run is active in, and no other.
    method GetSessionByRunId(run: RunId, nowMs: int) returns (id: Option<SessionId>)
      modifies this
      ensures State() == if id.Some? then Touch(old(State()), id.value, nowMs) else old(State())
      ensures IndexAgrees(old(State())) ==>
                forall x :: id == Some(x) <==> x != "" && x in old(sessions) && old(sessions)[x].activeRunId == Some(run)
    {
      if run !in runIdToSessionId || runIdToSessionId[run] == "" || runIdToSessionId[run] !in sessions {
        return None;
      }
      id := Some(runIdToSessionId[run]);
      sessions := sessions[id.value := sessions[id.value].(lastTouchedAt := nowMs)];
    }

    method StartRun(id: SessionId, run: RunId, abortController: nat, nowMs: int)
      modifies this
      ensures State() == SetActiveRun(old(State()), id, run, abortController, nowMs)
    {
      if id !in sessions {
        return;
      }
      sessions := sessions[id := sessions[id].(activeRunId := Some(run))];
      sessions := sessions[id := sessions[id].(abortController := Some(abortController))];
      runIdToSessionId := runIdToSessionId[run := id];
      sessions := sessions[id := sessions[id].(lastTouchedAt := nowMs)];
    }

    method ClearRun(id: SessionId, nowMs: int)
      modifies this
      ensures State() == ClearActiveRun(old(State()), id, nowMs)
    {
      if id !in sessions {
        return;
      }
      var run := sessions[id].activeRunId;
      if IsSet(run) {
        runIdToSessionId := runIdToSessionId - {run.value};
      }
      sessions := sessions[id := sessions[id].(activeRunId := None, abortController := None)];
      sessions := sessions[id := sessions[id].(lastTouchedAt := nowMs)];
    }

    method CancelRun(id: SessionId, nowMs: int) returns (cancelled: bool)
      modifies this
      ensures State() == CancelActiveRun(old(State()), id, nowMs)
      ensures cancelled == (id in old(sessions) && old(sessions)[id].abortController.Some?)
    {
      if id !in sessions || sessions[id].abortController.None? {
        return false;
      }
      var run := sessions[id].activeRunId;
      if IsSet(run) {
        runIdToSessionId := runIdToSessionId - {run.value};
      }
      sessions := sessions[id := sessions[id].(abortController := None, activeRunId := None)];
      sessions := sessions[id := sessions[id].(lastTouchedAt := nowMs)];
      return true;
    }
  }
}
