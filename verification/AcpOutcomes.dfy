/** What each event leads to for the prompt it is meant for, said without naming the handlers. */
module AcpOutcomes {
  import opened Text
  import opened SessionStore
  import opened AcpBridge
  import opened AcpPrompts
  import opened AcpRuns

  // ----- the prompt an event is meant for

  ghost predicate Fits(a: Agent, id: SessionId, key: string, runId: Option<RunId>) {
    && id in a.pending && a.pending[id].sessionKey == key
    && (runId.None? || runId.value == "" || runId.value == a.pending[id].run)
  }

  // The first pending prompt, in the order they were begun, with the session key and, if one is named, the run.
  ghost predicate IsMeant(a: Agent, id: SessionId, key: string, runId: Option<RunId>) {
    && key != "" && Fits(a, id, key, runId)
    && exists k :: 0 <= k < |a.order| && a.order[k] == id && forall j :: 0 <= j < k ==> !Fits(a, a.order[j], key, runId)
  }

  lemma {:induction false} FirstFitIsFound(a: Agent, key: string, runId: Option<RunId>, ids: seq<SessionId>, k: nat)
    requires k < |ids| && Fits(a, ids[k], key, runId) && forall j :: 0 <= j < k ==> !Fits(a, ids[j], key, runId)
    ensures FindPending(ids, a.pending, key, runId) == Some(ids[k])
  {
    if k > 0 {
      assert !Fits(a, ids[0], key, runId);
      forall j | 0 <= j < k - 1 ensures !Fits(a, ids[1..][j], key, runId) { assert ids[1..][j] == ids[j + 1]; }
      FirstFitIsFound(a, key, runId, ids[1..], k - 1);
    }
  }

  lemma {:induction false} NoFitIsFound(a: Agent, key: string, runId: Option<RunId>, ids: seq<SessionId>)
    requires forall id :: id in ids ==> !Fits(a, id, key, runId)
    ensures FindPending(ids, a.pending, key, runId) == None
  {
    if ids != [] {
      assert ids[0] in ids && forall id :: id in ids[1..] ==> id in ids;
      NoFitIsFound(a, key, runId, ids[1..]);
    }
  }

  lemma MeantIsFound(a: Agent, id: SessionId, key: string, runId: Option<RunId>)
    requires IsMeant(a, id, key, runId)
    ensures FindPending(a.order, a.pending, key, runId) == Some(id)
  {
    var k :| 0 <= k < |a.order| && a.order[k] == id && forall j :: 0 <= j < k ==> !Fits(a, a.order[j], key, runId);
    FirstFitIsFound(a, key, runId, a.order, k);
  }

  // An event that names a pending prompt's run is meant for that prompt.
  lemma NamedIsMeant(a: Agent, id: SessionId)
    requires Inv(a) && id in a.pending && a.pending[id].sessionKey != ""
    ensures IsMeant(a, id, a.pending[id].sessionKey, Some(a.pending[id].run))
  {
    assert id in a.order;
    var k :| 0 <= k < |a.order| && a.order[k] == id;
    var run := a.pending[id].run;
    forall j | 0 <= j < k ensures !Fits(a, a.order[j], a.pending[id].sessionKey, Some(run)) {
      assert a.order[j] in a.pending;
    }
  }

  // Events meant for nobody, of an unknown kind, or without a session key, change nothing.
  lemma OtherEventsAreIgnored(a: Agent, limits: Limits, key: string, runId: Option<RunId>, state: ChatState, now: int)
    requires Inv(a)
    requires key == "" || state.Unknown? || forall id :: id in a.order ==> !Fits(a, id, key, runId)
    ensures Recorded(a) && Step(a, limits, ChatEvent(key, runId, state), now) == a
  {
    if forall id :: id in a.order ==> !Fits(a, id, key, runId) { NoFitIsFound(a, key, runId, a.order); }
  }

  // ----- the end of a prompt

  predicate EndsRun(state: ChatState) {
    state.Final? || state.Aborted? || state.Failed?
  }

  // The prompt is out of the map, its session has no run in progress, and it waits to be settled.
  lemma EndIsBegun(a: Agent, limits: Limits, id: SessionId, key: string, runId: Option<RunId>, state: ChatState, now: int)
    requires Inv(a) && IsMeant(a, id, key, runId) && EndsRun(state)
    ensures Recorded(a)
    ensures var b, run := Step(a, limits, ChatEvent(key, runId, state), now), a.pending[id].run;
            && b.pending == a.pending - {id} && Active(b.store, id) == None
            && (forall x :: x != id ==> Active(b.store, x) == Active(a.store, x))
            && run in b.finishing && b.finishing[run] == Reason(state) && run !in b.settled
  {
    MeantIsFound(a, id, key, runId);
    ClearActive(a.store, id, now);
  }

  function Reason(state: ChatState): StopReason
    requires EndsRun(state)
  {
    match state
    case Final(true) => MaxTokens
    case Final(false) => EndTurn
    case Aborted => Cancelled
    case Failed => EndTurn
  }

  lemma EndIsSettled(a: Agent, limits: Limits, run: RunId, now: int)
    requires Inv(a) && run in a.finishing && run !in a.settled
    ensures Recorded(a)
    ensures var b := Step(a, limits, ResumeFinish(run), now);
            run in b.settled && b.settled[run] == Resolved(a.finishing[run]) && run !in b.finishing
  {
  }

  // Over runs: the event that ends a pending prompt's run takes the prompt out of the map and leaves its session
  // without a run; then the prompt is resolved, and the reason is the event's.
  lemma EventEndsPrompt(limits: Limits, es: seq<At>, id: SessionId, state: ChatState, now: int, later: int)
    returns (ended: seq<At>, settled: seq<At>)
    requires ValidLimits(limits) && AcpRuns.Legal(limits, es) && EndsRun(state)
    requires id in AcpRuns.After(limits, es).pending && AcpRuns.After(limits, es).pending[id].sessionKey != ""
    ensures var p := AcpRuns.After(limits, es).pending[id];
            && ended == es + [At(ChatEvent(p.sessionKey, Some(p.run), state), now)] && AcpRuns.Legal(limits, ended)
            && id !in AcpRuns.After(limits, ended).pending && Active(AcpRuns.After(limits, ended).store, id) == None
            && settled == ended + [At(ResumeFinish(p.run), later)] && AcpRuns.Legal(limits, settled)
            && p.run in AcpRuns.After(limits, settled).settled
            && AcpRuns.After(limits, settled).settled[p.run] ==
                 match state
                 case Final(maxTokens) => Resolved(if maxTokens then MaxTokens else EndTurn)
                 case Aborted => Resolved(Cancelled)
                 case _ => Resolved(EndTurn)
  {
    var a := AcpRuns.After(limits, es);
    var p := a.pending[id];
    var event := ChatEvent(p.sessionKey, Some(p.run), state);
    NamedIsMeant(a, id);
    EndIsBegun(a, limits, id, p.sessionKey, Some(p.run), state, now);
    AfterOneMore(limits, es, event, now);
    ended := es + [At(event, now)];
    var b := AcpRuns.After(limits, ended);
    EndIsSettled(b, limits, p.run, later);
    AfterOneMore(limits, ended, ResumeFinish(p.run), later);
    settled := ended + [At(ResumeFinish(p.run), later)];
  }

  // ----- streaming

  lemma LongerIsDelivered(a: Agent, id: SessionId, text: string)
    requires Inv(a) && id in a.pending && |text| > a.pending[id].sentTextLength
    ensures var b, p := DeliverDelta(a, id, text), a.pending[id];
            && b.emitted == a.emitted[p.run := a.emitted[p.run] + text[p.sentTextLength..]]
            && b.pending == a.pending[id := p.(sentTextLength := |text|, sentText := text)]
  {
  }

  lemma ShorterIsDropped(a: Agent, id: SessionId, text: string)
    requires Inv(a) && id in a.pending && |text| <= a.pending[id].sentTextLength
    ensures var b := DeliverDelta(a, id, text); b.pending == a.pending && b.emitted == a.emitted
  {
    var p := a.pending[id];
    assert a.emitted[p.run] + "" == a.emitted[p.run];
    assert a.emitted[p.run := a.emitted[p.run]] == a.emitted && a.pending[id := p] == a.pending;
  }

  // A snapshot longer than what was sent is emitted from there on; one that is not changes nothing but the record of
  // what was seen.
  lemma DeltaIsEmitted(a: Agent, limits: Limits, id: SessionId, key: string, runId: Option<RunId>, text: string, now: int)
    requires Inv(a) && IsMeant(a, id, key, runId)
    ensures Recorded(a)
    ensures var b, p := Step(a, limits, ChatEvent(key, runId, Delta(text)), now), a.pending[id];
            && b == a.(pending := b.pending, emitted := b.emitted, seen := b.seen)
            && (|text| <= p.sentTextLength ==> b.pending == a.pending && b.emitted == a.emitted)
            && (|text| > p.sentTextLength ==>
                  && b.emitted == a.emitted[p.run := a.emitted[p.run] + text[p.sentTextLength..]]
                  && b.pending == a.pending[id := p.(sentTextLength := |text|, sentText := text)])
  {
    MeantIsFound(a, id, key, runId);
    if |text| > a.pending[id].sentTextLength {
      LongerIsDelivered(a, id, text);
    } else {
      ShorterIsDropped(a, id, text);
    }
  }

  // ----- the beginning of a prompt

  // A prompt on a session that is there is pending, with nothing sent, and its run is the session's; the run before
  // it leads nowhere any more.
  lemma PromptIsBegun(a: Agent, limits: Limits, id: SessionId, run: RunId, controller: nat, now: int)
    requires Inv(a) && id in a.store.sessions && run != "" && run !in a.home
    ensures Recorded(a)
    ensures var b := Step(a, limits, Prompt(id, run, controller), now);
            && b.pending == a.pending[id := Pending(id, a.store.sessions[id].sessionKey, run, 0, "")]
            && run in b.sends && b.sends[run] == id && run in b.emitted && b.emitted[run] == ""
            && id in b.store.sessions && Active(b.store, id) == Some(run)
            && b.store.sessions[id].abortController == Some(controller)
            && (forall x :: x != id ==> Active(b.store, x) == Active(a.store, x))
            && run in b.store.runs && b.store.runs[run] == id
            && (forall r :: Active(a.store, id) == Some(r) ==> r !in b.store.runs)
  {
    StartPromptStore(a, id, run, controller, now);
    StartPromptFrame(a, id, run, controller, now);
    var b := Step(a, limits, Prompt(id, run, controller), now);
    assert Active(b.store, id) == Some(run);
    assert forall r :: r in b.store.runs ==> Active(b.store, b.store.runs[r]) == Some(r);
    assert forall x, r :: Active(a.store, x) == Some(r) ==> a.store.runs[r] == x && r != run;
  }

  // A prompt on a session that is not there changes nothing; one that is refused has ended the run before it.
  lemma PromptIsRefused(a: Agent, limits: Limits, id: SessionId, run: RunId, controller: nat, now: int)
    requires Inv(a) && run != "" && run !in a.home
    ensures Recorded(a)
    ensures id !in a.store.sessions ==> Step(a, limits, Prompt(id, run, controller), now) == a
    ensures var b := Step(a, limits, RefusePrompt(id), now);
            && b == a.(store := b.store)
            && forall x :: Active(b.store, x) == if x == id then None else Active(a.store, x)
  {
    CancelledActive(a, id, now);
  }

  // ----- who is first

  function Still(order: seq<SessionId>, ids: set<SessionId>): seq<SessionId> {
    if order == [] then [] else (if order[0] in ids then [order[0]] else []) + Still(order[1..], ids)
  }

  lemma {:induction false} StillAll(order: seq<SessionId>, ids: set<SessionId>)
    requires forall id :: id in order ==> id in ids
    ensures Still(order, ids) == order
  {
    if order != [] {
      assert order[0] in order && forall id :: id in order[1..] ==> id in order;
      StillAll(order[1..], ids);
    }
  }

  lemma {:induction false} StillWithout(order: seq<SessionId>, ids: set<SessionId>, id: SessionId)
    requires forall x :: x in order ==> x in ids
    ensures Still(order, ids - {id}) == Without(order, id)
  {
    if order != [] {
      assert order[0] in order && forall x :: x in order[1..] ==> x in order;
      StillWithout(order[1..], ids, id);
    }
  }

  lemma {:induction false} NoneStill(order: seq<SessionId>)
    ensures Still(order, {}) == []
  {
    if order != [] { NoneStill(order[1..]); }
  }

  // What a step leaves of the pending prompts.
  ghost predicate Leaves(a: Agent, order: seq<SessionId>, ids: set<SessionId>) {
    || (order == a.order && ids == a.pending.Keys)
    || (order == [] && ids == {})
    || exists id :: order == Without(a.order, id) && ids == a.pending.Keys - {id}
  }

  lemma LeavesInOrder(a: Agent, order: seq<SessionId>, ids: set<SessionId>)
    requires Lists(a.order, a.pending.Keys) && Leaves(a, order, ids)
    ensures order == Still(a.order, ids)
  {
    StillAll(a.order, a.pending.Keys);
    NoneStill(a.order);
    if id :| order == Without(a.order, id) && ids == a.pending.Keys - {id} { StillWithout(a.order, a.pending.Keys, id); }
  }

  lemma DropLeaves(a: Agent, b: Agent, id: SessionId)
    requires b.order == DropPending(a, id).order && b.pending == DropPending(a, id).pending
    ensures Leaves(a, b.order, b.pending.Keys)
  {
    assert b.pending.Keys == a.pending.Keys - {id};
  }

  lemma StepLeaves(a: Agent, limits: Limits, e: Event, now: int)
    requires Inv(a) && ValidLimits(limits) && Enabled(a, e) && !e.Prompt?
    ensures Recorded(a)
    ensures var b := Step(a, limits, e, now); Leaves(a, b.order, b.pending.Keys)
  {
    var b := Step(a, limits, e, now);
    match e
    case ChatEvent(key, runId, state) => ChatLeaves(a, key, runId, state, now);
    case SendFailed(run) => DropLeaves(a, b, a.sends[run]);
    case ResumeCancel(index) =>
      if a.cancels[index].captured.Some? { DropLeaves(a, b, a.cancels[index].sessionId); }
    case Disconnect => assert b.pending.Keys == {};
    case _ =>
  }

  lemma ChatLeaves(a: Agent, key: string, runId: Option<RunId>, state: ChatState, now: int)
    requires Inv(a)
    ensures Recorded(a)
    ensures var b := HandleChat(a, key, runId, state, now); Leaves(a, b.order, b.pending.Keys)
  {
    var b := HandleChat(a, key, runId, state, now);
    var found := FindPending(a.order, a.pending, key, runId);
    if found.Some? && EndsRun(state) && key != "" { DropLeaves(a, b, found.value); }
    if found.Some? && !EndsRun(state) { assert b.pending.Keys == a.pending.Keys; }
  }

  // Prompts stay in the order in which their sessions came to have one: a new one is last, one that displaces another
  // has its place, and when some go, the others keep theirs.
  lemma OrderIsKept(a: Agent, limits: Limits, e: Event, now: int)
    requires Inv(a) && ValidLimits(limits) && Enabled(a, e)
    ensures Recorded(a)
    ensures var b := Step(a, limits, e, now);
            var begins := e.Prompt? && e.id in a.store.sessions && e.id !in a.pending;
            b.order == Still(a.order, b.pending.Keys) + if begins then [e.id] else []
  {
    var b := Step(a, limits, e, now);
    if e.Prompt? {
      StillAll(a.order, b.pending.Keys);
    } else {
      StepLeaves(a, limits, e, now);
      LeavesInOrder(a, b.order, b.pending.Keys);
    }
  }

  // ----- failure, cancel, disconnect

  // A failed chat.send rejects its prompt, if nothing has settled it, and ends what its session has going on.
  lemma FailureRejects(a: Agent, limits: Limits, run: RunId, now: int)
    requires Inv(a) && run in a.sends
    ensures Recorded(a)
    ensures var b, id := Step(a, limits, SendFailed(run), now), a.sends[run];
            && b.pending == a.pending - {id} && run !in b.sends
            && (forall x :: Active(b.store, x) == if x == id then None else Active(a.store, x))
            && run in b.settled && b.settled[run] == if run in a.settled then a.settled[run] else Rejected
  {
    ClearActive(a.store, a.sends[run], now);
  }

  lemma SendIsDone(a: Agent, limits: Limits, run: RunId, now: int)
    requires Inv(a) && run in a.sends
    ensures Recorded(a) && Step(a, limits, SendDone(run), now) == a.(sends := a.sends - {run})
  {
  }

  // A cancel ends the session's run at once; it waits if there was a run or a pending prompt, and holds the prompt.
  lemma CancelIsBegun(a: Agent, limits: Limits, id: SessionId, now: int)
    requires Inv(a) && id in a.store.sessions
    ensures Recorded(a)
    ensures var b := Step(a, limits, BeginCancel(id), now);
            && b == a.(store := b.store, cancels := b.cancels)
            && (forall x :: Active(b.store, x) == if x == id then None else Active(a.store, x))
            && b.cancels == if id in a.pending then a.cancels + [Cancel(id, Some(a.pending[id].run))]
                            else if Active(a.store, id).Some? then a.cancels + [Cancel(id, None)]
                            else a.cancels
  {
    CancelledActive(a, id, now);
    assert id in a.pending ==> a.pending[id].run in a.home;
    assert Active(a.store, id).Some? ==> Active(a.store, id).value in a.home;
  }

  // When the cancel comes back, the prompt it holds is resolved as cancelled, if nothing has settled it.
  lemma CancelIsSettled(a: Agent, limits: Limits, index: nat, now: int)
    requires Inv(a) && index < |a.cancels|
    ensures Recorded(a)
    ensures var b, c := Step(a, limits, ResumeCancel(index), now), a.cancels[index];
            && b.cancels == a.cancels[..index] + a.cancels[index + 1..] && b.store == a.store
            && (c.captured.None? ==> b.pending == a.pending && b.settled == a.settled)
            && (c.captured.Some? ==>
                  && b.pending == a.pending - {c.sessionId} && c.captured.value in b.settled
                  && b.settled[c.captured.value] ==
                       if c.captured.value in a.settled then a.settled[c.captured.value] else Resolved(Cancelled))
  {
  }

  // Over runs: cancelling a session with a pending prompt resolves that prompt as cancelled.
  lemma CancelEndsPrompt(limits: Limits, es: seq<At>, id: SessionId, now: int, later: int)
    returns (begun: seq<At>, settled: seq<At>)
    requires ValidLimits(limits) && AcpRuns.Legal(limits, es)
    requires id in AcpRuns.After(limits, es).pending && id in AcpRuns.After(limits, es).store.sessions
    ensures var a := AcpRuns.After(limits, es);
            var run, n := a.pending[id].run, |a.cancels|;
            && begun == es + [At(BeginCancel(id), now)] && AcpRuns.Legal(limits, begun)
            && Active(AcpRuns.After(limits, begun).store, id) == None
            && settled == begun + [At(ResumeCancel(n), later)] && AcpRuns.Legal(limits, settled)
            && id !in AcpRuns.After(limits, settled).pending && run in AcpRuns.After(limits, settled).settled
            && AcpRuns.After(limits, settled).settled[run] == Resolved(Cancelled)
  {
    var a := AcpRuns.After(limits, es);
    var n := |a.cancels|;
    CancelIsBegun(a, limits, id, now);
    AfterOneMore(limits, es, BeginCancel(id), now);
    begun := es + [At(BeginCancel(id), now)];
    var b := AcpRuns.After(limits, begun);
    CancelIsSettled(b, limits, n, later);
    AfterOneMore(limits, begun, ResumeCancel(n), later);
    settled := begun + [At(ResumeCancel(n), later)];
  }
}
