/** What single steps of the bridge do to prompts: which leave the pending map unsettled, and which runs are stranded. */
module AcpPrompts {
  import opened Text
  import opened SessionStore
  import opened AcpBridge

  // ----- prompts in hand

  ghost predicate IsPending(a: Agent, run: RunId) {
    run in a.home && a.home[run] in a.pending && a.pending[a.home[run]].run == run
  }

  ghost predicate Captured(cancels: seq<Cancel>, run: RunId) {
    exists c :: c in cancels && c.captured == Some(run)
  }

  // The prompt is settled, or it is pending, being finished, or held by a cancel.
  ghost predicate Covered(a: Agent, run: RunId) {
    IsPending(a, run) || run in a.settled || run in a.finishing || Captured(a.cancels, run)
  }

  ghost predicate NoneDropped(a: Agent) {
    forall run :: run in a.home ==> Covered(a, run)
  }

  // The session's pending prompt is about to leave the map without being settled.
  ghost predicate Displaced(a: Agent, id: SessionId, cause: Option<RunId>) {
    id in a.pending && Some(a.pending[id].run) != cause && !Captured(a.cancels, a.pending[id].run)
  }

  // The three ways for a prompt to drop out of the map unsettled, each visible before the step: a new prompt on a
  // session with a pending one, and the late failure or cancel of an older prompt of the session.
  ghost predicate Drops(a: Agent, e: Event)
    requires Enabled(a, e)
  {
    match e
    case Prompt(id, _, _) => id in a.store.sessions && Displaced(a, id, None)
    case SendFailed(run) => Displaced(a, a.sends[run], Some(run))
    case ResumeCancel(index) =>
      a.cancels[index].captured.Some? && Displaced(a, a.cancels[index].sessionId, a.cancels[index].captured)
    case _ => false
  }

  lemma TakeOverDropsIff(a: Agent, b: Agent, p: Pending)
    requires Inv(a) && NoneDropped(a) && p.run !in a.home
    requires b.pending == a.pending[p.sessionId := p] && b.home == a.home[p.run := p.sessionId]
    requires b.cancels == a.cancels && b.finishing == a.finishing && b.settled == a.settled
    ensures NoneDropped(b) <==> !Displaced(a, p.sessionId, None)
  {
    var id := p.sessionId;
    assert IsPending(b, p.run);
    forall r | r in a.home
      ensures Covered(b, r) <==> !(id in a.pending && a.pending[id].run == r && !Captured(a.cancels, r))
    {
      assert Covered(a, r);
    }
    if Displaced(a, id, None) {
      assert a.pending[id].run in b.home;
    }
  }

  lemma PromptDropsIff(a: Agent, id: SessionId, run: RunId, controller: nat, now: int)
    requires Inv(a) && NoneDropped(a) && run != "" && run !in a.home
    ensures NoneDropped(StartPrompt(a, id, run, controller, now)) <==> !(id in a.store.sessions && Displaced(a, id, None))
  {
    if id in a.store.sessions {
      StartPromptFrame(a, id, run, controller, now);
      TakeOverDropsIff(a, StartPrompt(a, id, run, controller, now),
                       Pending(id, a.store.sessions[id].sessionKey, run, 0, ""));
    }
  }

  lemma DropCovers(a: Agent, id: SessionId, b: Agent)
    requires Inv(a) && b.pending == a.pending - {id} && b.home == a.home
    ensures forall run :: run in a.home ==> (IsPending(b, run) <==> IsPending(a, run) && a.home[run] != id)
  {
  }

  lemma SendFailedDropsIff(a: Agent, run: RunId, now: int)
    requires Inv(a) && NoneDropped(a) && run in a.sends
    ensures NoneDropped(SendRejected(a, run, now)) <==> !Displaced(a, a.sends[run], Some(run))
  {
    var id := a.sends[run];
    var b := SendRejected(a, run, now);
    DropCovers(a, id, b);
    forall r | r in a.home
      ensures Covered(b, r) <==> !(id in a.pending && a.pending[id].run == r && r != run && !Captured(a.cancels, r))
    {
      assert Covered(a, r);
    }
    if Displaced(a, id, Some(run)) {
      assert a.pending[id].run in b.home;
    }
  }

  lemma FewerCancelsCover(a: Agent, index: nat)
    requires Inv(a) && index < |a.cancels|
    ensures var fewer := a.cancels[..index] + a.cancels[index + 1..];
            forall r :: Some(r) != a.cancels[index].captured ==> (Captured(fewer, r) <==> Captured(a.cancels, r))
  {
    FewerCancels(a, index);
  }

  lemma CancelHoldingDropsIff(a: Agent, b: Agent, id: SessionId, held: RunId)
    requires Inv(a) && NoneDropped(a)
    requires b.pending == a.pending - {id} && b.home == a.home && b.finishing == a.finishing
    requires b.settled == Settle(a.settled, held, Resolved(Cancelled))
    requires forall r :: r != held ==> (Captured(b.cancels, r) <==> Captured(a.cancels, r))
    ensures NoneDropped(b) <==> !Displaced(a, id, Some(held))
  {
    DropCovers(a, id, b);
    forall r | r in a.home
      ensures Covered(b, r) <==> !(id in a.pending && a.pending[id].run == r && r != held && !Captured(a.cancels, r))
    {
      assert Covered(a, r);
    }
    if Displaced(a, id, Some(held)) {
      assert a.pending[id].run in b.home;
    }
  }

  lemma CancelDropsIff(a: Agent, index: nat)
    requires Inv(a) && NoneDropped(a) && index < |a.cancels|
    ensures var c := a.cancels[index];
            NoneDropped(CancelResumed(a, index)) <==> !(c.captured.Some? && Displaced(a, c.sessionId, c.captured))
  {
    var c := a.cancels[index];
    var b := CancelResumed(a, index);
    FewerCancelsCover(a, index);
    if c.captured.Some? {
      CancelHoldingDropsIff(a, b, c.sessionId, c.captured.value);
    } else {
      forall r | r in a.home
        ensures Covered(b, r)
      {
        assert Covered(a, r);
      }
    }
  }

  lemma ChatDropsNothing(a: Agent, key: string, runId: Option<RunId>, state: ChatState, now: int)
    requires Inv(a) && NoneDropped(a)
    ensures Recorded(a) && NoneDropped(HandleChat(a, key, runId, state, now))
  {
    var b := HandleChat(a, key, runId, state, now);
    var found := FindPending(a.order, a.pending, key, runId);
    if found.Some? && b != a {
      var id := found.value;
      if state.Delta? {
        DeliverDeltaPending(a, id, state.text);
      } else {
        DropCovers(a, id, b);
      }
      forall r | r in a.home
        ensures Covered(b, r)
      {
        assert Covered(a, r);
      }
    }
  }

  lemma CancelBegunFrame(a: Agent, id: SessionId, now: int)
    ensures var b := CancelBegun(a, id, now);
            && b == a.(store := b.store, cancels := b.cancels)
            && a.cancels <= b.cancels
            && forall c :: c in b.cancels && c !in a.cancels ==>
                 c.sessionId == id && (c.captured.Some? ==> id in a.pending && c.captured.value == a.pending[id].run)
  {
    var captured := if id in a.pending then Some(a.pending[id].run) else None;
    AddedCancel(a.cancels, CancelBegun(a, id, now).cancels, Cancel(id, captured));
  }

  lemma AddedCancel(before: seq<Cancel>, later: seq<Cancel>, c: Cancel)
    requires later == before || later == before + [c]
    ensures before <= later && forall d :: d in later && d !in before ==> d == c
  {
  }

  // More cancels cover no fewer prompts.
  lemma MoreCancelsCover(a: Agent, b: Agent)
    requires NoneDropped(a)
    requires b == a.(store := b.store, cancels := b.cancels) && a.cancels <= b.cancels
    ensures NoneDropped(b)
  {
    forall r | r in a.home
      ensures Covered(b, r)
    {
      assert Covered(a, r);
      if c :| c in a.cancels && c.captured == Some(r) {
        assert c in b.cancels;
      }
    }
  }

  lemma CancelBegunDropsNothing(a: Agent, id: SessionId, now: int)
    requires Inv(a) && NoneDropped(a)
    ensures NoneDropped(CancelBegun(a, id, now))
  {
    CancelBegunFrame(a, id, now);
    MoreCancelsCover(a, CancelBegun(a, id, now));
  }

  lemma DisconnectDropsNothing(a: Agent, now: int)
    requires Inv(a) && NoneDropped(a)
    ensures NoneDropped(Disconnected(a, now))
  {
    var b := Disconnected(a, now);
    RejectAllSettles(a.settled, a.order, a.pending);
    forall r | r in a.home
      ensures Covered(b, r)
    {
      assert Covered(a, r);
      if IsPending(a, r) {
        assert a.home[r] in a.order;
      }
    }
  }

  // A step lets a prompt leave the map unsettled exactly when it is one of the three.
  lemma StepDropsIff(a: Agent, limits: Limits, e: Event, now: int)
    requires Inv(a) && NoneDropped(a) && Enabled(a, e)
    ensures Recorded(a) && (NoneDropped(Step(a, limits, e, now)) <==> !Drops(a, e))
  {
    match e {
      case Prompt(id, run, controller) => PromptDropsIff(a, id, run, controller, now);
      case ChatEvent(key, runId, state) => ChatDropsNothing(a, key, runId, state, now);
      case SendFailed(run) => SendFailedDropsIff(a, run, now);
      case BeginCancel(id) => CancelBegunDropsNothing(a, id, now);
      case ResumeCancel(index) => CancelDropsIff(a, index);
      case Disconnect => DisconnectDropsNothing(a, now);
      case _ => OtherStepsDropNothing(a, limits, e, now);
    }
  }

  lemma OtherStepsDropNothing(a: Agent, limits: Limits, e: Event, now: int)
    requires Inv(a) && NoneDropped(a) && Enabled(a, e)
    requires e.OpenSession? || e.RefusePrompt? || e.ResumeFinish? || e.SendDone?
    ensures Recorded(a) && NoneDropped(Step(a, limits, e, now))
  {
    var b := Step(a, limits, e, now);
    forall r | r in a.home
      ensures Covered(b, r)
    {
      assert Covered(a, r);
    }
  }

  // ----- a disconnect leaves nothing active

  ghost predicate ActiveIsPending(a: Agent) {
    forall id :: Active(a.store, id).Some? ==> id in a.pending
  }

  ghost predicate NoneActive(a: Agent) {
    forall id :: Active(a.store, id).None?
  }

  // After a disconnect no prompt is pending; no run is in progress exactly if every session with a run
  // in progress had its prompt pending.
  lemma DisconnectClearsIff(a: Agent, now: int)
    requires Inv(a)
    ensures var b := Disconnected(a, now);
            && b.pending == map[] && b.order == []
            && (forall id :: id in a.pending ==> a.pending[id].run in b.settled && b.settled[a.pending[id].run] == Rejected)
            && (NoneActive(b) <==> ActiveIsPending(a))
  {
    ClearAllActive(a.store, a.order, now);
    RejectAllSettles(a.settled, a.order, a.pending);
    var b := Disconnected(a, now);
    forall id | id in a.pending
      ensures a.pending[id].run in b.settled && b.settled[a.pending[id].run] == Rejected
    {
      assert id in a.order;
    }
    assert forall id :: Active(b.store, id).Some? <==> Active(a.store, id).Some? && id !in a.pending;
  }

  // The one step that strands a run in progress: a cancel comes back after a new prompt has started.
  ghost predicate Strands(a: Agent, e: Event)
    requires Enabled(a, e)
  {
    e.ResumeCancel? && var c := a.cancels[e.index];
    c.captured.Some? && c.sessionId in a.pending && Active(a.store, c.sessionId).Some?
  }

  lemma PromptStrandsNothing(a: Agent, id: SessionId, run: RunId, controller: nat, now: int)
    requires Inv(a) && ActiveIsPending(a) && run != "" && run !in a.home
    ensures ActiveIsPending(StartPrompt(a, id, run, controller, now))
  {
    if id in a.store.sessions {
      StartPromptStore(a, id, run, controller, now);
      StartPromptFrame(a, id, run, controller, now);
    }
  }

  lemma ChatStrandsNothing(a: Agent, key: string, runId: Option<RunId>, state: ChatState, now: int)
    requires Inv(a) && ActiveIsPending(a)
    ensures Recorded(a) && ActiveIsPending(HandleChat(a, key, runId, state, now))
  {
    var found := FindPending(a.order, a.pending, key, runId);
    if found.Some? {
      ClearActive(a.store, found.value, now);
    }
  }

  lemma CancelBegunStrandsNothing(a: Agent, id: SessionId, now: int)
    requires Inv(a) && ActiveIsPending(a)
    ensures ActiveIsPending(CancelBegun(a, id, now))
  {
    CancelledActive(a, id, now);
  }

  lemma CancelStrandsIff(a: Agent, index: nat)
    requires Inv(a) && ActiveIsPending(a) && index < |a.cancels|
    ensures var c := a.cancels[index];
            ActiveIsPending(CancelResumed(a, index)) <==>
            !(c.captured.Some? && c.sessionId in a.pending && Active(a.store, c.sessionId).Some?)
  {
  }

  lemma StepStrandsIff(a: Agent, limits: Limits, e: Event, now: int)
    requires Inv(a) && ActiveIsPending(a) && ValidLimits(limits) && Enabled(a, e)
    ensures Recorded(a) && (ActiveIsPending(Step(a, limits, e, now)) <==> !Strands(a, e))
  {
    match e {
      case OpenSession(id, key, cwd) => CreateActive(a.store, limits, id, key, cwd, now);
      case Prompt(id, run, controller) => PromptStrandsNothing(a, id, run, controller, now);
      case RefusePrompt(id) => CancelledActive(a, id, now);
      case ChatEvent(key, runId, state) => ChatStrandsNothing(a, key, runId, state, now);
      case SendFailed(run) => ClearActive(a.store, a.sends[run], now);
      case BeginCancel(id) => CancelBegunStrandsNothing(a, id, now);
      case ResumeCancel(index) => CancelStrandsIff(a, index);
      case Disconnect => DisconnectClearsIff(a, now);
      case _ =>
    }
  }

  lemma CancelledActive(a: Agent, id: SessionId, now: int)
    requires Inv(a)
    ensures forall x :: Active(CancelActiveRun(Touch(a.store, id, now), id, now), x) == if x == id then None else Active(a.store, x)
  {
    TouchActive(a.store, id, now);
    CancelActive(Touch(a.store, id, now), id, now);
  }

  // ----- quiet runs

  // A prompt is started only on a session with no prompt pending, no chat.send of it outstanding and no
  // cancel that holds a prompt of it.
  ghost predicate Quiet(a: Agent, e: Event) {
    e.Prompt? ==>
      && e.id !in a.pending
      && (forall run :: run in a.sends ==> a.sends[run] != e.id)
      && (forall c :: c in a.cancels && c.sessionId == e.id ==> c.captured.None?)
  }

  // Whatever waits for a session with a pending prompt waits for that prompt.
  ghost predicate Exclusive(a: Agent) {
    forall id :: id in a.pending ==>
      && (forall run :: run in a.sends && a.sends[run] == id ==> run == a.pending[id].run)
      && (forall c :: c in a.cancels && c.sessionId == id && c.captured.Some? ==> c.captured.value == a.pending[id].run)
  }

  lemma ExclusiveIsSafe(a: Agent, e: Event)
    requires Inv(a) && Exclusive(a) && Quiet(a, e) && Enabled(a, e)
    ensures !Drops(a, e) && !Strands(a, e)
  {
    if e.ResumeCancel? {
      assert a.cancels[e.index] in a.cancels;
    }
  }

  // Fewer pending prompts and fewer things waiting.
  lemma FewerStayExclusive(a: Agent, b: Agent)
    requires Exclusive(a)
    requires forall id :: id in b.pending ==> id in a.pending && b.pending[id].run == a.pending[id].run
    requires forall run :: run in b.sends ==> run in a.sends && b.sends[run] == a.sends[run]
    requires forall c :: c in b.cancels && c !in a.cancels ==>
               c.captured.Some? && c.sessionId in a.pending ==> c.captured.value == a.pending[c.sessionId].run
    ensures Exclusive(b)
  {
  }

  lemma PromptKeepsExclusive(a: Agent, id: SessionId, run: RunId, controller: nat, now: int)
    requires Inv(a) && Exclusive(a) && Quiet(a, Prompt(id, run, controller)) && run != "" && run !in a.home
    ensures Exclusive(StartPrompt(a, id, run, controller, now))
  {
    if id in a.store.sessions {
      StartPromptFrame(a, id, run, controller, now);
    }
  }

  lemma ChatKeepsExclusive(a: Agent, key: string, runId: Option<RunId>, state: ChatState, now: int)
    requires Inv(a) && Exclusive(a)
    ensures Recorded(a) && Exclusive(HandleChat(a, key, runId, state, now))
  {
    var found := FindPending(a.order, a.pending, key, runId);
    if found.Some? && state.Delta? {
      DeliverDeltaPending(a, found.value, state.text);
    }
    FewerStayExclusive(a, HandleChat(a, key, runId, state, now));
  }

  lemma CancelsKeepExclusive(a: Agent, id: SessionId, index: nat, now: int)
    requires Inv(a) && Exclusive(a)
    ensures Exclusive(CancelBegun(a, id, now))
    ensures index < |a.cancels| ==> Exclusive(CancelResumed(a, index))
  {
    CancelBegunFrame(a, id, now);
    FewerStayExclusive(a, CancelBegun(a, id, now));
    if index < |a.cancels| {
      FewerCancels(a, index);
      FewerStayExclusive(a, CancelResumed(a, index));
    }
  }

  lemma QuietKeepsExclusive(a: Agent, limits: Limits, e: Event, now: int)
    requires Inv(a) && Exclusive(a) && Quiet(a, e) && ValidLimits(limits) && Enabled(a, e)
    ensures Recorded(a) && Exclusive(Step(a, limits, e, now))
  {
    match e {
      case Prompt(id, run, controller) => PromptKeepsExclusive(a, id, run, controller, now);
      case ChatEvent(key, runId, state) => ChatKeepsExclusive(a, key, runId, state, now);
      case BeginCancel(id) => CancelsKeepExclusive(a, id, 0, now);
      case ResumeCancel(index) => CancelsKeepExclusive(a, "", index, now);
      case _ => OtherStepsKeepExclusive(a, limits, e, now);
    }
  }

  lemma OtherStepsKeepExclusive(a: Agent, limits: Limits, e: Event, now: int)
    requires Inv(a) && Exclusive(a) && Enabled(a, e)
    requires e.OpenSession? || e.RefusePrompt? || e.ResumeFinish? || e.SendFailed? || e.SendDone? || e.Disconnect?
    ensures Recorded(a) && Exclusive(Step(a, limits, e, now))
  {
    FewerStayExclusive(a, Step(a, limits, e, now));
  }
}
