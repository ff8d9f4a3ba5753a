/**
 Which prompts can still be settled, step by step: beside what holds a prompt in hand, the failure of its own
 chat.send settles it, however late it comes.
 */
module AcpSettlement {
  import opened Text
  import opened SessionStore
  import opened AcpBridge
  import opened AcpPrompts

  ghost predicate CanSettle(a: Agent, run: RunId) {
    Covered(a, run) || run in a.sends
  }

  // Nothing but the pending entry is left to settle the prompt.
  ghost predicate OnlyPending(a: Agent, run: RunId) {
    IsPending(a, run) && !Captured(a.cancels, run) && run !in a.sends
  }

  // The four ways in which a step takes away the last thing that can settle a prompt.
  ghost predicate LosesPrompt(a: Agent, e: Event, run: RunId)
    requires Enabled(a, e)
  {
    match e
    case Prompt(id, _, _) => id in a.store.sessions && OnlyPending(a, run) && a.home[run] == id
    case SendFailed(failed) => OnlyPending(a, run) && a.home[run] == a.sends[failed]
    case SendDone(done) => done == run && !Covered(a, run)
    case ResumeCancel(index) =>
      a.cancels[index].captured.Some? && OnlyPending(a, run) && a.home[run] == a.cancels[index].sessionId
    case _ => false
  }

  lemma PromptSettles(a: Agent, id: SessionId, run: RunId, controller: nat, now: int, r: RunId)
    requires Inv(a) && r in a.home && run != "" && run !in a.home
    ensures CanSettle(StartPrompt(a, id, run, controller, now), r) <==>
            CanSettle(a, r) && !(id in a.store.sessions && OnlyPending(a, r) && a.home[r] == id)
  {
    if id in a.store.sessions {
      StartPromptFrame(a, id, run, controller, now);
      var b := StartPrompt(a, id, run, controller, now);
      assert b.sends == a.sends[run := id];
      assert IsPending(b, r) <==> IsPending(a, r) && a.home[r] != id;
    }
  }

  lemma SendFailedSettles(a: Agent, run: RunId, now: int, r: RunId)
    requires Inv(a) && r in a.home && run in a.sends
    ensures CanSettle(SendRejected(a, run, now), r) <==>
            CanSettle(a, r) && !(OnlyPending(a, r) && a.home[r] == a.sends[run])
  {
    DropCovers(a, a.sends[run], SendRejected(a, run, now));
  }

  lemma SendDoneSettles(a: Agent, run: RunId, r: RunId)
    requires Inv(a) && r in a.home && run in a.sends
    ensures CanSettle(a.(sends := a.sends - {run}), r) <==> CanSettle(a, r) && !(run == r && !Covered(a, r))
  {
  }

  lemma CancelSettles(a: Agent, index: nat, r: RunId)
    requires Inv(a) && r in a.home && index < |a.cancels|
    ensures CanSettle(CancelResumed(a, index), r) <==>
            CanSettle(a, r)
            && !(a.cancels[index].captured.Some? && OnlyPending(a, r) && a.home[r] == a.cancels[index].sessionId)
  {
    var c := a.cancels[index];
    FewerCancelsCover(a, index);
    assert c in a.cancels;
    if c.captured.Some? {
      DropCovers(a, c.sessionId, CancelResumed(a, index));
    }
  }

  lemma ChatSettles(a: Agent, key: string, runId: Option<RunId>, state: ChatState, now: int, r: RunId)
    requires Inv(a) && r in a.home
    ensures Recorded(a) && (CanSettle(HandleChat(a, key, runId, state, now), r) <==> CanSettle(a, r))
  {
    var b := HandleChat(a, key, runId, state, now);
    var found := FindPending(a.order, a.pending, key, runId);
    if found.Some? && b != a {
      if state.Delta? {
        DeliverDeltaPending(a, found.value, state.text);
      } else {
        DropCovers(a, found.value, b);
      }
    }
  }

  lemma CancelBegunSettles(a: Agent, id: SessionId, now: int, r: RunId)
    requires Inv(a) && r in a.home
    ensures CanSettle(CancelBegun(a, id, now), r) <==> CanSettle(a, r)
  {
    CancelBegunFrame(a, id, now);
    var b := CancelBegun(a, id, now);
    if Captured(a.cancels, r) {
      var c :| c in a.cancels && c.captured == Some(r);
      assert c in b.cancels;
    }
  }

  lemma DisconnectSettles(a: Agent, now: int, r: RunId)
    requires Inv(a) && r in a.home
    ensures CanSettle(Disconnected(a, now), r) <==> CanSettle(a, r)
  {
    RejectAllSettles(a.settled, a.order, a.pending);
    if IsPending(a, r) {
      assert a.home[r] in a.order;
    }
  }

  lemma OtherSettles(a: Agent, limits: Limits, e: Event, now: int, r: RunId)
    requires Inv(a) && r in a.home && Enabled(a, e)
    requires e.OpenSession? || e.RefusePrompt? || e.ResumeFinish?
    ensures Recorded(a) && (CanSettle(Step(a, limits, e, now), r) <==> CanSettle(a, r))
  {
  }

  // A prompt can be settled after a step exactly if it could be before and the step is none of the four. So a
  // prompt that cannot be settled never can be again.
  lemma StepSettles(a: Agent, limits: Limits, e: Event, now: int, run: RunId)
    requires Inv(a) && Enabled(a, e) && run in a.home
    ensures Recorded(a)
    ensures CanSettle(Step(a, limits, e, now), run) <==> CanSettle(a, run) && !LosesPrompt(a, e, run)
  {
    match e {
      case Prompt(id, started, controller) => PromptSettles(a, id, started, controller, now, run);
      case ChatEvent(key, runId, state) => ChatSettles(a, key, runId, state, now, run);
      case SendFailed(failed) => SendFailedSettles(a, failed, now, run);
      case SendDone(done) => SendDoneSettles(a, done, run);
      case BeginCancel(id) => CancelBegunSettles(a, id, now, run);
      case ResumeCancel(index) => CancelSettles(a, index, run);
      case Disconnect => DisconnectSettles(a, now, run);
      case _ => OtherSettles(a, limits, e, now, run);
    }
  }
}
