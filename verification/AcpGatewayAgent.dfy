/** The bridge's agent as a program: each handler's stretch between two awaits is a method. */
module AcpGatewayAgent {
  import opened Text
  import opened SessionStore
  import opened AcpBridge

  class GatewayAgent {
    const sessionStore: InMemorySessionStore
    // The map of pending prompts, and the order in which it is iterated.
    var pendingOrder: seq<SessionId>
    var pendingPrompts: map<SessionId, Pending>
    // What waits behind an await.
    var sends: map<RunId, SessionId>
    var cancels: seq<Cancel>
    var finishing: map<RunId, StopReason>
    // The record of the run so far.
    var home: map<RunId, SessionId>
    var settled: map<RunId, Outcome>
    var emitted: map<RunId, string>
    var seen: map<RunId, seq<string>>

    function State(): Agent
      reads this, sessionStore
    {
      Agent(sessionStore.State(), pendingOrder, pendingPrompts, sends, cancels, finishing, home, settled, emitted, seen)
    }

    constructor (store: InMemorySessionStore)
      requires store.State() == Store([], map[], map[])
      ensures sessionStore == store && State() == START
    {
      sessionStore := store;
      pendingOrder, pendingPrompts := [], map[];
      sends, cancels, finishing := map[], [], map[];
      home, settled, emitted, seen := map[], map[], map[], map[];
    }

    method SetPending(p: Pending)
      modifies this
      ensures State() == PutPending(old(State()), p)
    {
      if p.sessionId !in pendingPrompts {
        pendingOrder := pendingOrder + [p.sessionId];
      }
      pendingPrompts := pendingPrompts[p.sessionId := p];
    }

    method DeletePending(id: SessionId)
      modifies this
      ensures State() == DropPending(old(State()), id)
    {
      pendingOrder := Without(pendingOrder, id);
      pendingPrompts := pendingPrompts - {id};
    }

    // The synchronous part of prompt: the old run is cancelled before the new one becomes active.
    method StartPrompt(id: SessionId, run: RunId, abortController: nat, now: int) returns (found: bool)
      modifies this, sessionStore
      ensures State() == AcpBridge.StartPrompt(old(State()), id, run, abortController, now)
      ensures found == (id in old(sessionStore.sessions))
    {
      var session := sessionStore.GetSession(id, now);
      if session.None? {
        return false;
      }
      if session.value.abortController.Some? {
        var _ := sessionStore.CancelRun(id, now);
      }
      sessionStore.StartRun(id, run, abortController, now);
      SetPending(Pending(id, session.value.sessionKey, run, 0, ""));
      sends := sends[run := id];
      home, emitted, seen := home[run := id], emitted[run := ""], seen[run := []];
      return true;
    }

    // chat.send has failed.
    method OnSendFailed(run: RunId, now: int)
      requires run in sends
      modifies this, sessionStore
      ensures State() == SendRejected(old(State()), run, now)
    {
      var id := sends[run];
      DeletePending(id);
      sessionStore.ClearRun(id, now);
      settled := Settle(settled, run, Rejected);
      sends := sends - {run};
    }

    method FindPendingBySessionKey(key: string, runId: Option<RunId>) returns (found: Option<SessionId>)
      ensures found == FindPending(pendingOrder, pendingPrompts, key, runId)
    {
      var k := 0;
      assert pendingOrder[0..] == pendingOrder;
      while k < |pendingOrder|
        invariant 0 <= k <= |pendingOrder|
        invariant FindPending(pendingOrder, pendingPrompts, key, runId) ==
                  FindPending(pendingOrder[k..], pendingPrompts, key, runId)
      {
        var id := pendingOrder[k];
        assert pendingOrder[k..][1..] == pendingOrder[k + 1..];
        k := k + 1;
        if id !in pendingPrompts || pendingPrompts[id].sessionKey != key {
          continue;
        }
        if IsSet(runId) && pendingPrompts[id].run != runId.value {
          continue;
        }
        return Some(id);
      }
      return None;
    }

    method HandleDeltaEvent(id: SessionId, fullText: string)
      requires Recorded(State())
      requires id in pendingPrompts
      modifies this
      ensures State() == DeliverDelta(old(State()), id, fullText)
    {
      var pending := pendingPrompts[id];
      seen := seen[pending.run := seen[pending.run] + [fullText]];
      var sentSoFar := pending.sentTextLength;
      if |fullText| <= sentSoFar {
        assert emitted[pending.run] + "" == emitted[pending.run];
        assert emitted[pending.run := emitted[pending.run]] == emitted && pendingPrompts[id := pending] == pendingPrompts;
        return;
      }
      var newText := fullText[sentSoFar..];
      pendingPrompts := pendingPrompts[id := pending.(sentTextLength := |fullText|, sentText := fullText)];
      emitted := emitted[pending.run := emitted[pending.run] + newText];
    }

    // The synchronous part of finishPrompt.
    method FinishPrompt(id: SessionId, reason: StopReason, now: int)
      requires id in pendingPrompts
      modifies this, sessionStore
      ensures State() == BeginFinish(old(State()), id, reason, now)
    {
      var run := pendingPrompts[id].run;
      DeletePending(id);
      sessionStore.ClearRun(id, now);
      finishing := finishing[run := reason];
    }

    method HandleChatEvent(key: string, runId: Option<RunId>, state: ChatState, now: int)
      requires Recorded(State())
      modifies this, sessionStore
      ensures State() == HandleChat(old(State()), key, runId, state, now)
    {
      if key == "" {
        return;
      }
      var found := FindPendingBySessionKey(key, runId);
      if found.None? {
        return;
      }
      match state {
        case Delta(text) => HandleDeltaEvent(found.value, text);
        case Final(maxTokens) => FinishPrompt(found.value, if maxTokens then MaxTokens else EndTurn, now);
        case Aborted => FinishPrompt(found.value, Cancelled, now);
        case Failed => FinishPrompt(found.value, EndTurn, now);
        case Unknown =>
      }
    }

    method ResumeFinish(run: RunId)
      requires run in finishing
      modifies this
      ensures State() == FinishResumed(old(State()), run)
    {
      settled := Settle(settled, run, Resolved(finishing[run]));
      finishing := finishing - {run};
    }

    // The part of cancel before its abort request.
    method BeginCancel(id: SessionId, now: int)
      modifies this, sessionStore
      ensures State() == CancelBegun(old(State()), id, now)
    {
      var session := sessionStore.GetSession(id, now);
      if session.None? {
        return;
      }
      var activeRunId := session.value.activeRunId;
      var _ := sessionStore.CancelRun(id, now);
      var pending := if id in pendingPrompts then Some(pendingPrompts[id].run) else None;
      var scopedRunId := if activeRunId.Some? then activeRunId else pending;
      if !IsSet(scopedRunId) {
        return;
      }
      cancels := cancels + [Cancel(id, pending)];
    }

    // The part of cancel after its abort request, whether that succeeded or not.
    method ResumeCancel(index: nat)
      requires index < |cancels|
      modifies this
      ensures State() == CancelResumed(old(State()), index)
    {
      var c := cancels[index];
      cancels := cancels[..index] + cancels[index + 1..];
      if c.captured.Some? {
        DeletePending(c.sessionId);
        settled := Settle(settled, c.captured.value, Resolved(Cancelled));
      }
    }

    method HandleGatewayDisconnect(now: int)
      modifies this, sessionStore
      ensures State() == Disconnected(old(State()), now)
    {
      var k := 0;
      assert pendingOrder[0..] == pendingOrder;
      while k < |pendingOrder|
        invariant 0 <= k <= |pendingOrder|
        invariant State() == old(State()).(store := sessionStore.State(), settled := settled)
        invariant ClearAll(old(sessionStore.State()), pendingOrder, now) ==
                  ClearAll(sessionStore.State(), pendingOrder[k..], now)
        invariant RejectAll(old(settled), pendingOrder, pendingPrompts) ==
                  RejectAll(settled, pendingOrder[k..], pendingPrompts)
      {
        var id := pendingOrder[k];
        assert pendingOrder[k..][1..] == pendingOrder[k + 1..];
        if id in pendingPrompts {
          settled := Settle(settled, pendingPrompts[id].run, Rejected);
        }
        sessionStore.ClearRun(id, now);
        k := k + 1;
      }
      pendingOrder, pendingPrompts := [], map[];
    }
  }
}
