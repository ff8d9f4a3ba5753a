/**
 The ACP bridge as a step system. Every handler runs undisturbed up to its next await, so a step is one
 such stretch; what waits behind an await is part of the state.
 */
module AcpBridge {
  import opened Text
  import opened SessionStore

  // ----- which run a session has in progress

  function Active(s: Store, id: SessionId): Option<RunId> {
    if id in s.sessions then s.sessions[id].activeRunId else None
  }

  ghost predicate StoreOk(s: Store) {
    Valid(s) && IndexAgrees(s)
  }

  lemma TouchActive(s: Store, id: SessionId, now: int)
    requires StoreOk(s)
    ensures var r := Touch(s, id, now);
            StoreOk(r) && r.sessions.Keys == s.sessions.Keys && forall x :: Active(r, x) == Active(s, x)
  {
    assert Touch(s, id, now).sessions.Keys == s.sessions.Keys;
  }

  lemma ClearActive(s: Store, id: SessionId, now: int)
    requires StoreOk(s)
    ensures var r := ClearActiveRun(s, id, now);
            && StoreOk(r) && r.sessions.Keys == s.sessions.Keys
            && forall x :: Active(r, x) == if x == id then None else Active(s, x)
  {
    ClearActiveRunKeepsIndex(s, id, now);
    assert ClearActiveRun(s, id, now).sessions.Keys == s.sessions.Keys;
  }

  lemma CancelActive(s: Store, id: SessionId, now: int)
    requires StoreOk(s)
    ensures var r := CancelActiveRun(s, id, now);
            && StoreOk(r) && r.sessions.Keys == s.sessions.Keys
            && forall x :: Active(r, x) == if x == id then None else Active(s, x)
  {
    CancelActiveRunIsClear(s, id, now);
    ClearActive(s, id, now);
  }

  lemma SetActive(s: Store, id: SessionId, run: RunId, controller: nat, now: int)
    requires StoreOk(s) && id in s.sessions
    requires Active(s, id).None? && run != "" && forall x :: Active(s, x) != Some(run)
    ensures var r := SetActiveRun(s, id, run, controller, now);
            && StoreOk(r) && r.sessions.Keys == s.sessions.Keys
            && forall x :: Active(r, x) == if x == id then Some(run) else Active(s, x)
  {
    assert run in s.runs ==> Active(s, s.runs[run]) == Some(run);
    SetActiveRunKeepsIndexIff(s, id, run, controller, now);
    assert SetActiveRun(s, id, run, controller, now).sessions.Keys == s.sessions.Keys;
  }

  lemma CreateActive(s: Store, limits: Limits, id: SessionId, key: string, cwd: string, now: int)
    requires StoreOk(s) && ValidLimits(limits)
    ensures var r := Create(s, limits, id, key, cwd, now).store;
            StoreOk(r) && forall x :: Active(r, x) == Active(s, x)
  {
    var r := Create(s, limits, id, key, cwd, now).store;
    CreateKeepsIndex(s, limits, id, key, cwd, now);
    CreateIsValid(s, limits, id, key, cwd, now);
    CreateFrame(s, limits, id, key, cwd, now);
    forall x
      ensures Active(r, x) == Active(s, x)
    {
      if x != id && Active(s, x).Some? {
        CreateSparesActive(s, limits, id, key, cwd, now, x);
      }
    }
  }

  // ----- the agent

  datatype Pending = Pending(sessionId: SessionId, sessionKey: string, run: RunId, sentTextLength: nat, sentText: string)

  datatype StopReason = EndTurn | MaxTokens | Cancelled

  datatype Outcome = Resolved(reason: StopReason) | Rejected

  // A cancel waiting for its abort request, with the prompt it found pending.
  datatype Cancel = Cancel(sessionId: SessionId, captured: Option<RunId>)

  /**
   `order` is the iteration order of `pending`. Behind awaits wait the outstanding chat.send requests
   (`sends`), cancels and finishing prompts. The remaining fields are the record of the run so far: the
   session of every prompt started (`home`), the first settlement of each prompt's promise, the text
   streamed for it and the snapshots delivered to it.
   */
  datatype Agent = Agent(
    store: Store, order: seq<SessionId>, pending: map<SessionId, Pending>,
    sends: map<RunId, SessionId>, cancels: seq<Cancel>, finishing: map<RunId, StopReason>,
    home: map<RunId, SessionId>, settled: map<RunId, Outcome>,
    emitted: map<RunId, string>, seen: map<RunId, seq<string>>)

  const START := Agent(Store([], map[], map[]), [], map[], map[], [], map[], map[], map[], map[], map[])

  // A delta without a message, or any other state, is unknown.
  datatype ChatState = Delta(text: string) | Final(maxTokens: bool) | Aborted | Failed | Unknown

  datatype Event =
    | OpenSession(id: SessionId, key: string, cwd: string)
    | Prompt(id: SessionId, run: RunId, controller: nat)
    | RefusePrompt(id: SessionId)
    | ChatEvent(key: string, runId: Option<RunId>, state: ChatState)
    | ResumeFinish(run: RunId)
    | SendFailed(run: RunId)
    | SendDone(run: RunId)
    | BeginCancel(id: SessionId)
    | ResumeCancel(index: nat)
    | Disconnect

  // ----- the steps

  // A promise keeps its first settlement.
  function Settle(settled: map<RunId, Outcome>, run: RunId, outcome: Outcome): map<RunId, Outcome> {
    if run in settled then settled else settled[run := outcome]
  }

  function DropPending(a: Agent, id: SessionId): Agent {
    a.(order := Without(a.order, id), pending := a.pending - {id})
  }

  function PutPending(a: Agent, p: Pending): Agent {
    a.(order := if p.sessionId in a.pending then a.order else a.order + [p.sessionId],
       pending := a.pending[p.sessionId := p])
  }

  function StartPrompt(a: Agent, id: SessionId, run: RunId, controller: nat, now: int): Agent {
    if id !in a.store.sessions then a
    else
      var key := a.store.sessions[id].sessionKey;
      var idle := CancelActiveRun(Touch(a.store, id, now), id, now);
      var b := PutPending(a, Pending(id, key, run, 0, ""));
      b.(store := SetActiveRun(idle, id, run, controller, now),
         sends := a.sends[run := id], home := a.home[run := id],
         emitted := a.emitted[run := ""], seen := a.seen[run := []])
  }

  // A prompt that turns out to be too large has cancelled the run before it.
  function RefusedPrompt(a: Agent, id: SessionId, now: int): Agent {
    a.(store := CancelActiveRun(Touch(a.store, id, now), id, now))
  }

  predicate MatchesEvent(p: Pending, key: string, runId: Option<RunId>) {
    p.sessionKey == key && (IsSet(runId) ==> p.run == runId.value)
  }

  // The first pending prompt of the session key and, if the event names one, of the run.
  function FindPending(ids: seq<SessionId>, pending: map<SessionId, Pending>, key: string, runId: Option<RunId>)
    : (r: Option<SessionId>)
    ensures r.Some? ==> r.value in pending && MatchesEvent(pending[r.value], key, runId)
  {
    if ids == [] then None
    else if ids[0] in pending && MatchesEvent(pending[ids[0]], key, runId) then Some(ids[0])
    else FindPending(ids[1..], pending, key, runId)
  }

  // What is new in the snapshot is streamed; a snapshot no longer than what was sent is ignored.
  function NewText(p: Pending, text: string): string {
    if |text| <= p.sentTextLength then "" else text[p.sentTextLength..]
  }

  function Streamed(p: Pending, text: string): (r: Pending)
    ensures r.run == p.run && r.sessionId == p.sessionId && r.sessionKey == p.sessionKey
  {
    if |text| <= p.sentTextLength then p else p.(sentTextLength := |text|, sentText := text)
  }

  function DeliverDelta(a: Agent, id: SessionId, text: string): Agent
    requires id in a.pending && a.pending[id].run in a.emitted && a.pending[id].run in a.seen
  {
    var p := a.pending[id];
    a.(pending := a.pending[id := Streamed(p, text)],
       emitted := a.emitted[p.run := a.emitted[p.run] + NewText(p, text)],
       seen := a.seen[p.run := a.seen[p.run] + [text]])
  }

  function BeginFinish(a: Agent, id: SessionId, reason: StopReason, now: int): Agent
    requires id in a.pending
  {
    var b := DropPending(a, id);
    b.(store := ClearActiveRun(a.store, id, now), finishing := a.finishing[a.pending[id].run := reason])
  }

  function ReasonOf(state: ChatState): StopReason {
    match state
    case Final(maxTokens) => if maxTokens then MaxTokens else EndTurn
    case Aborted => Cancelled
    case _ => EndTurn
  }

  function HandleChat(a: Agent, key: string, runId: Option<RunId>, state: ChatState, now: int): Agent
    requires Recorded(a)
  {
    if key == "" then a
    else
      match FindPending(a.order, a.pending, key, runId)
      case None => a
      case Some(id) =>
        if state.Delta? then DeliverDelta(a, id, state.text)
        else if state.Unknown? then a
        else BeginFinish(a, id, ReasonOf(state), now)
  }

  // Every pending prompt has its record.
  ghost predicate Recorded(a: Agent) {
    forall id :: id in a.pending ==> a.pending[id].run in a.emitted && a.pending[id].run in a.seen
  }

  function FinishResumed(a: Agent, run: RunId): Agent
    requires run in a.finishing
  {
    a.(settled := Settle(a.settled, run, Resolved(a.finishing[run])), finishing := a.finishing - {run})
  }

  function SendRejected(a: Agent, run: RunId, now: int): Agent
    requires run in a.sends
  {
    var id := a.sends[run];
    var b := DropPending(a, id);
    b.(store := ClearActiveRun(a.store, id, now), settled := Settle(a.settled, run, Rejected), sends := a.sends - {run})
  }

  function CancelBegun(a: Agent, id: SessionId, now: int): Agent {
    if id !in a.store.sessions then a
    else
      var active := a.store.sessions[id].activeRunId;
      var captured := if id in a.pending then Some(a.pending[id].run) else None;
      var scoped := if active.Some? then active else captured;
      a.(store := CancelActiveRun(Touch(a.store, id, now), id, now),
         cancels := if IsSet(scoped) then a.cancels + [Cancel(id, captured)] else a.cancels)
  }

  function CancelResumed(a: Agent, index: nat): Agent
    requires index < |a.cancels|
  {
    var c := a.cancels[index];
    var b := a.(cancels := a.cancels[..index] + a.cancels[index + 1..]);
    if c.captured.None? then b
    else DropPending(b, c.sessionId).(settled := Settle(a.settled, c.captured.value, Resolved(Cancelled)))
  }

  function ClearAll(s: Store, ids: seq<SessionId>, now: int): Store
    decreases |ids|
  {
    if ids == [] then s else ClearAll(ClearActiveRun(s, ids[0], now), ids[1..], now)
  }

  function RejectAll(settled: map<RunId, Outcome>, ids: seq<SessionId>, pending: map<SessionId, Pending>)
    : map<RunId, Outcome>
    decreases |ids|
  {
    if ids == [] then settled
    else
      var next := if ids[0] in pending then Settle(settled, pending[ids[0]].run, Rejected) else settled;
      RejectAll(next, ids[1..], pending)
  }

  function Disconnected(a: Agent, now: int): Agent {
    a.(store := ClearAll(a.store, a.order, now), settled := RejectAll(a.settled, a.order, a.pending),
       order := [], pending := map[])
  }

  // ----- one step

  // Run ids are fresh and not empty; a continuation runs when it is waiting.
  ghost predicate Enabled(a: Agent, e: Event) {
    match e
    case Prompt(_, run, _) => run != "" && run !in a.home
    case ResumeFinish(run) => run in a.finishing
    case SendFailed(run) => run in a.sends
    case SendDone(run) => run in a.sends
    case ResumeCancel(index) => index < |a.cancels|
    case _ => true
  }

  ghost function Step(a: Agent, limits: Limits, e: Event, now: int): Agent
    requires Valid(a.store) && Recorded(a) && Enabled(a, e)
  {
    match e
    case OpenSession(id, key, cwd) => a.(store := Create(a.store, limits, id, key, cwd, now).store)
    case Prompt(id, run, controller) => StartPrompt(a, id, run, controller, now)
    case RefusePrompt(id) => RefusedPrompt(a, id, now)
    case ChatEvent(key, runId, state) => HandleChat(a, key, runId, state, now)
    case ResumeFinish(run) => FinishResumed(a, run)
    case SendFailed(run) => SendRejected(a, run, now)
    case SendDone(run) => a.(sends := a.sends - {run})
    case BeginCancel(id) => CancelBegun(a, id, now)
    case ResumeCancel(index) => CancelResumed(a, index)
    case Disconnect => Disconnected(a, now)
  }

  // ----- what every step keeps

  ghost predicate PendingOk(a: Agent) {
    && Lists(a.order, a.pending.Keys)
    && (forall id :: id in a.pending ==>
          var p := a.pending[id];
          p.sessionId == id && p.run in a.home && a.home[p.run] == id && p.run !in a.settled && p.run !in a.finishing)
  }

  // A session's run in progress belongs to the session, and is that of the prompt pending there, if any.
  ghost predicate ActiveOk(a: Agent) {
    forall id :: Active(a.store, id).Some? ==>
      var run := Active(a.store, id).value;
      && run in a.home && a.home[run] == id
      && (id in a.pending ==> a.pending[id].run == run)
  }

  ghost predicate WaitingOk(a: Agent) {
    && (forall run :: run in a.sends ==> run in a.home && a.home[run] == a.sends[run])
    && (forall run :: run in a.finishing ==> run in a.home)
    && (forall c :: c in a.cancels && c.captured.Some? ==>
          var run := c.captured.value;
          run in a.home && a.home[run] == c.sessionId && Active(a.store, c.sessionId) != Some(run))
  }

  ghost predicate RecordOk(a: Agent) {
    && "" !in a.home
    && a.settled.Keys <= a.home.Keys
    && a.emitted.Keys == a.home.Keys && a.seen.Keys == a.home.Keys
  }

  ghost predicate Inv(a: Agent) {
    StoreOk(a.store) && PendingOk(a) && ActiveOk(a) && WaitingOk(a) && RecordOk(a)
  }

  lemma DropKeepsLists(a: Agent, id: SessionId)
    requires Lists(a.order, a.pending.Keys)
    ensures Lists(DropPending(a, id).order, DropPending(a, id).pending.Keys)
  {
    WithoutLists(a.order, a.pending.Keys, id);
    assert DropPending(a, id).pending.Keys == a.pending.Keys - {id};
  }

  lemma OpenSessionKeepsInv(a: Agent, limits: Limits, id: SessionId, key: string, cwd: string, now: int)
    requires Inv(a) && ValidLimits(limits)
    ensures Inv(a.(store := Create(a.store, limits, id, key, cwd, now).store))
  {
    CreateActive(a.store, limits, id, key, cwd, now);
  }

  // Before a run is made active the session's old run is cancelled, which is what keeps the index exact.
  lemma StartPromptStore(a: Agent, id: SessionId, run: RunId, controller: nat, now: int)
    requires Inv(a) && id in a.store.sessions
    requires run != "" && run !in a.home
    ensures var s := StartPrompt(a, id, run, controller, now).store;
            && StoreOk(s)
            && forall x :: Active(s, x) == if x == id then Some(run) else Active(a.store, x)
  {
    var touched := Touch(a.store, id, now);
    TouchActive(a.store, id, now);
    CancelActive(touched, id, now);
    SetActive(CancelActiveRun(touched, id, now), id, run, controller, now);
  }

  lemma StartPromptFrame(a: Agent, id: SessionId, run: RunId, controller: nat, now: int)
    requires id in a.store.sessions
    ensures var b := StartPrompt(a, id, run, controller, now);
            var p := Pending(id, a.store.sessions[id].sessionKey, run, 0, "");
            && b.order == PutPending(a, p).order && b.pending == a.pending[id := p]
            && b.sends == a.sends[run := id] && b.home == a.home[run := id]
            && b.emitted == a.emitted[run := ""] && b.seen == a.seen[run := []]
            && b.cancels == a.cancels && b.finishing == a.finishing && b.settled == a.settled
  {
  }

  // A prompt with a fresh run takes its session over.
  ghost predicate TakesOver(a: Agent, b: Agent, p: Pending) {
    && p.run != "" && p.run !in a.home
    && StoreOk(b.store)
    && (forall x :: Active(b.store, x) == if x == p.sessionId then Some(p.run) else Active(a.store, x))
    && b.order == PutPending(a, p).order && b.pending == a.pending[p.sessionId := p]
    && b.sends == a.sends[p.run := p.sessionId] && b.home == a.home[p.run := p.sessionId]
    && b.emitted.Keys == a.emitted.Keys + {p.run} && b.seen.Keys == a.seen.Keys + {p.run}
    && b.cancels == a.cancels && b.finishing == a.finishing && b.settled == a.settled
  }

  lemma TakeOverPending(a: Agent, b: Agent, p: Pending)
    requires Inv(a) && TakesOver(a, b, p)
    ensures PendingOk(b)
  {
    assert p.run !in a.settled && p.run !in a.finishing;
  }

  lemma TakeOverActive(a: Agent, b: Agent, p: Pending)
    requires Inv(a) && TakesOver(a, b, p)
    ensures ActiveOk(b)
  {
  }

  lemma TakeOverWaiting(a: Agent, b: Agent, p: Pending)
    requires Inv(a) && TakesOver(a, b, p)
    ensures WaitingOk(b) && RecordOk(b)
  {
    assert b.home.Keys == a.home.Keys + {p.run};
  }

  lemma StartPromptKeepsInv(a: Agent, id: SessionId, run: RunId, controller: nat, now: int)
    requires Inv(a)
    requires run != "" && run !in a.home
    ensures Inv(StartPrompt(a, id, run, controller, now))
  {
    if id in a.store.sessions {
      StartPromptStore(a, id, run, controller, now);
      StartPromptFrame(a, id, run, controller, now);
      var b, p := StartPrompt(a, id, run, controller, now), Pending(id, a.store.sessions[id].sessionKey, run, 0, "");
      TakeOverPending(a, b, p);
      TakeOverActive(a, b, p);
      TakeOverWaiting(a, b, p);
    }
  }

  lemma RefusedPromptKeepsInv(a: Agent, id: SessionId, now: int)
    requires Inv(a)
    ensures Inv(RefusedPrompt(a, id, now))
  {
    TouchActive(a.store, id, now);
    CancelActive(Touch(a.store, id, now), id, now);
  }

  lemma DeliverDeltaPending(a: Agent, id: SessionId, text: string)
    requires Inv(a) && id in a.pending
    ensures var b := DeliverDelta(a, id, text);
            && b.pending.Keys == a.pending.Keys
            && (forall x :: x in a.pending ==> b.pending[x].run == a.pending[x].run && b.pending[x].sessionId == a.pending[x].sessionId)
            && b.emitted.Keys == a.emitted.Keys && b.seen.Keys == a.seen.Keys
  {
  }

  lemma DeliverDeltaKeepsInv(a: Agent, id: SessionId, text: string)
    requires Inv(a) && id in a.pending
    ensures Inv(DeliverDelta(a, id, text))
  {
    DeliverDeltaPending(a, id, text);
  }

  lemma BeginFinishKeepsInv(a: Agent, id: SessionId, reason: StopReason, now: int)
    requires Inv(a) && id in a.pending
    ensures Inv(BeginFinish(a, id, reason, now))
  {
    DropKeepsLists(a, id);
    ClearActive(a.store, id, now);
    var b := BeginFinish(a, id, reason, now);
    assert PendingOk(b);
  }

  lemma HandleChatKeepsInv(a: Agent, key: string, runId: Option<RunId>, state: ChatState, now: int)
    requires Inv(a)
    ensures Recorded(a) && Inv(HandleChat(a, key, runId, state, now))
  {
    var found := FindPending(a.order, a.pending, key, runId);
    if found.Some? {
      if state.Delta? {
        DeliverDeltaKeepsInv(a, found.value, state.text);
      } else {
        BeginFinishKeepsInv(a, found.value, ReasonOf(state), now);
      }
    }
  }

  lemma FinishResumedKeepsInv(a: Agent, run: RunId)
    requires Inv(a) && run in a.finishing
    ensures Inv(FinishResumed(a, run))
  {
  }

  lemma SendRejectedKeepsInv(a: Agent, run: RunId, now: int)
    requires Inv(a) && run in a.sends
    ensures Inv(SendRejected(a, run, now))
  {
    DropKeepsLists(a, a.sends[run]);
    ClearActive(a.store, a.sends[run], now);
    var b := SendRejected(a, run, now);
    assert PendingOk(b);
  }

  lemma CancelBegunKeepsInv(a: Agent, id: SessionId, now: int)
    requires Inv(a)
    ensures Inv(CancelBegun(a, id, now))
  {
    if id in a.store.sessions {
      TouchActive(a.store, id, now);
      CancelActive(Touch(a.store, id, now), id, now);
      var b := CancelBegun(a, id, now);
      forall c | c in b.cancels && c.captured.Some?
        ensures c.captured.value in b.home && b.home[c.captured.value] == c.sessionId
        ensures Active(b.store, c.sessionId) != c.captured
      {
        if c !in a.cancels {
          assert c.sessionId == id && id in a.pending && c.captured.value == a.pending[id].run;
        }
      }
    }
  }

  // Removing a pending prompt and settling a prompt of its session disturbs nothing.
  lemma DropAndSettleKeepsInv(a: Agent, id: SessionId, run: RunId, outcome: Outcome)
    requires Inv(a) && run in a.home && a.home[run] == id
    ensures Inv(DropPending(a, id).(settled := Settle(a.settled, run, outcome)))
  {
    DropKeepsLists(a, id);
    var b := DropPending(a, id).(settled := Settle(a.settled, run, outcome));
    assert PendingOk(b);
  }

  lemma CancelResumedKeepsInv(a: Agent, index: nat)
    requires Inv(a) && index < |a.cancels|
    ensures Inv(CancelResumed(a, index))
  {
    var c := a.cancels[index];
    assert c in a.cancels;
    FewerCancels(a, index);
    var b := a.(cancels := a.cancels[..index] + a.cancels[index + 1..]);
    if c.captured.Some? {
      DropAndSettleKeepsInv(b, c.sessionId, c.captured.value, Resolved(Cancelled));
    }
  }

  lemma FewerCancels(a: Agent, index: nat)
    requires Inv(a) && index < |a.cancels|
    ensures Inv(a.(cancels := a.cancels[..index] + a.cancels[index + 1..]))
    ensures forall c :: c in a.cancels <==> c == a.cancels[index] || c in a.cancels[..index] + a.cancels[index + 1..]
  {
    var fewer := a.cancels[..index] + a.cancels[index + 1..];
    assert a.cancels == a.cancels[..index] + [a.cancels[index]] + a.cancels[index + 1..];
  }

  lemma {:induction false} ClearAllActive(s: Store, ids: seq<SessionId>, now: int)
    requires StoreOk(s)
    ensures var r := ClearAll(s, ids, now);
            && StoreOk(r) && r.sessions.Keys == s.sessions.Keys
            && forall x :: Active(r, x) == if x in ids then None else Active(s, x)
    decreases |ids|
  {
    if ids != [] {
      ClearActive(s, ids[0], now);
      ClearAllActive(ClearActiveRun(s, ids[0], now), ids[1..], now);
      assert forall x :: x in ids <==> x == ids[0] || x in ids[1..];
    }
  }

  lemma {:induction false} RejectAllSettles(settled: map<RunId, Outcome>, ids: seq<SessionId>, pending: map<SessionId, Pending>)
    ensures var r := RejectAll(settled, ids, pending);
            && (forall run :: run in settled ==> run in r && r[run] == settled[run])
            && (forall run :: run in r <==> run in settled || exists id :: id in ids && id in pending && pending[id].run == run)
            && (forall run :: run in r && run !in settled ==> r[run] == Rejected)
    decreases |ids|
  {
    if ids != [] {
      var next := if ids[0] in pending then Settle(settled, pending[ids[0]].run, Rejected) else settled;
      RejectAllSettles(next, ids[1..], pending);
      assert forall x :: x in ids <==> x == ids[0] || x in ids[1..];
    }
  }

  lemma DisconnectedKeepsInv(a: Agent, now: int)
    requires Inv(a)
    ensures Inv(Disconnected(a, now))
  {
    ClearAllActive(a.store, a.order, now);
    RejectAllSettles(a.settled, a.order, a.pending);
  }

  lemma StepKeepsInv(a: Agent, limits: Limits, e: Event, now: int)
    requires Inv(a) && ValidLimits(limits) && Enabled(a, e)
    ensures Recorded(a) && Inv(Step(a, limits, e, now))
  {
    match e {
      case OpenSession(id, key, cwd) => OpenSessionKeepsInv(a, limits, id, key, cwd, now);
      case Prompt(id, run, controller) => StartPromptKeepsInv(a, id, run, controller, now);
      case RefusePrompt(id) => RefusedPromptKeepsInv(a, id, now);
      case ChatEvent(key, runId, state) => HandleChatKeepsInv(a, key, runId, state, now);
      case ResumeFinish(run) => FinishResumedKeepsInv(a, run);
      case SendFailed(run) => SendRejectedKeepsInv(a, run, now);
      case SendDone(run) =>
      case BeginCancel(id) => CancelBegunKeepsInv(a, id, now);
      case ResumeCancel(index) => CancelResumedKeepsInv(a, index);
      case Disconnect => DisconnectedKeepsInv(a, now);
    }
  }
}
