/** The bridge over whole runs, from its start on. */
module AcpRuns {
  import opened Text
  import opened SessionStore
  import opened AcpBridge
  import opened AcpPrompts

  // ----- events reach only the prompt they name

  // What belongs to a prompt in the bridge's state.
  ghost predicate SamePrompt(a: Agent, b: Agent, run: RunId) {
    && (IsPending(a, run) <==> IsPending(b, run))
    && (IsPending(a, run) && IsPending(b, run) ==> a.pending[a.home[run]] == b.pending[b.home[run]])
    && (run in a.finishing <==> run in b.finishing)
    && (run in a.settled <==> run in b.settled)
    && (run in a.settled && run in b.settled ==> a.settled[run] == b.settled[run])
    && (run in a.emitted && run in b.emitted ==> a.emitted[run] == b.emitted[run])
  }

  // An event that carries a run id changes no other prompt and clears no other run in progress, even if
  // several sessions share the session key.
  lemma EventReachesItsRunOnly(a: Agent, key: string, run: RunId, state: ChatState, now: int, other: RunId)
    requires Inv(a) && run != "" && other != run
    ensures Recorded(a)
    ensures var b := HandleChat(a, key, Some(run), state, now);
            && SamePrompt(a, b, other)
            && forall id :: Active(a.store, id) == Some(other) ==> Active(b.store, id) == Some(other)
  {
    var found := FindPending(a.order, a.pending, key, Some(run));
    if found.Some? {
      if state.Delta? {
        DeltaReachesItsRunOnly(a, found.value, state.text, other);
      } else {
        FinishReachesItsRunOnly(a, found.value, ReasonOf(state), now, other);
      }
    }
  }

  lemma DeltaReachesItsRunOnly(a: Agent, id: SessionId, text: string, other: RunId)
    requires Inv(a) && id in a.pending && a.pending[id].run != other
    ensures SamePrompt(a, DeliverDelta(a, id, text), other)
  {
    DeliverDeltaPending(a, id, text);
  }

  lemma FinishReachesItsRunOnly(a: Agent, id: SessionId, reason: StopReason, now: int, other: RunId)
    requires Inv(a) && id in a.pending && a.pending[id].run != other
    ensures var b := BeginFinish(a, id, reason, now);
            && SamePrompt(a, b, other)
            && forall x :: Active(a.store, x) == Some(other) ==> Active(b.store, x) == Some(other)
  {
    ClearActive(a.store, id, now);
  }

  // ----- streaming

  // The streamed text is the longest of the snapshots seen.
  ghost predicate IsLongest(text: string, seen: seq<string>) {
    (text == "" || text in seen) && forall s :: s in seen ==> s <= text
  }

  ghost predicate CountsRight(a: Agent) {
    forall id :: id in a.pending && a.pending[id].run in a.emitted ==>
      a.pending[id].sentTextLength == |a.emitted[a.pending[id].run]|
  }

  // What has been streamed for each prompt, if every snapshot of a run is a prefix of one text.
  ghost predicate StreamsRight(a: Agent, whole: RunId -> string) {
    && CountsRight(a)
    && forall run :: run in a.emitted && run in a.seen ==>
         a.emitted[run] <= whole(run) && IsLongest(a.emitted[run], a.seen[run])
  }

  // A snapshot delivered to a prompt is a prefix of the prompt's text.
  ghost predicate Consistent(a: Agent, e: Event, whole: RunId -> string) {
    e.ChatEvent? && e.key != "" && e.state.Delta? ==>
      var found := FindPending(a.order, a.pending, e.key, e.runId);
      found.Some? ==> e.state.text <= whole(a.pending[found.value].run)
  }

  lemma PrefixesCompare(s: string, t: string, whole: string)
    requires s <= whole && t <= whole
    ensures |s| <= |t| ==> s <= t
    ensures |s| > |t| ==> t + s[|t|..] == s
  {
  }

  lemma SnapshotExtends(sent: string, seen: seq<string>, text: string, whole: string)
    requires IsLongest(sent, seen) && sent <= whole && text <= whole
    ensures var next := sent + if |text| <= |sent| then "" else text[|sent|..];
            IsLongest(next, seen + [text]) && next <= whole
  {
    PrefixesCompare(text, sent, whole);
    if |text| <= |sent| {
      assert sent + "" == sent;
    } else {
      assert text in seen + [text];
      forall s | s in seen
        ensures s <= text
      {
        PrefixesCompare(s, text, whole);
      }
    }
  }

  lemma DeltaStreamsRight(a: Agent, id: SessionId, text: string, whole: RunId -> string)
    requires Inv(a) && StreamsRight(a, whole) && id in a.pending && text <= whole(a.pending[id].run)
    ensures StreamsRight(DeliverDelta(a, id, text), whole)
  {
    var p := a.pending[id];
    var b := DeliverDelta(a, id, text);
    SnapshotExtends(a.emitted[p.run], a.seen[p.run], text, whole(p.run));
    DeliverDeltaPending(a, id, text);
    assert b.emitted[p.run] == a.emitted[p.run] + NewText(p, text);
    forall x | x in b.pending && b.pending[x].run in b.emitted
      ensures b.pending[x].sentTextLength == |b.emitted[b.pending[x].run]|
    {
      if x != id {
        assert a.pending[x].run != p.run;
      }
    }
  }

  // Without the prefix property the count still equals the length of what was streamed, and a snapshot
  // that adds text leaves the stream equal to the snapshot exactly if the stream was a prefix of it.
  lemma DeltaIsExactIff(a: Agent, id: SessionId, text: string)
    requires Inv(a) && CountsRight(a) && id in a.pending && |text| > a.pending[id].sentTextLength
    ensures var run := a.pending[id].run;
            DeliverDelta(a, id, text).emitted[run] == text <==> a.emitted[run] <= text
  {
    var p := a.pending[id];
    var was, next := a.emitted[p.run], DeliverDelta(a, id, text).emitted[p.run];
    assert next == was + text[|was|..];
    assert next[..|was|] == was;
    assert was <= text ==> was + text[|was|..] == text;
  }

  // A prompt with a new run streams nothing yet.
  lemma TakeOverStreams(a: Agent, b: Agent, p: Pending, whole: RunId -> string)
    requires StreamsRight(a, whole) && p.run !in a.emitted && p.sentTextLength == 0
    requires forall x :: x in a.pending ==> a.pending[x].run in a.emitted
    requires b.pending == a.pending[p.sessionId := p]
    requires b.emitted == a.emitted[p.run := ""] && b.seen == a.seen[p.run := []]
    ensures StreamsRight(b, whole)
  {
  }

  lemma StartPromptStreams(a: Agent, id: SessionId, run: RunId, controller: nat, now: int, whole: RunId -> string)
    requires Inv(a) && StreamsRight(a, whole) && run != "" && run !in a.home
    ensures StreamsRight(StartPrompt(a, id, run, controller, now), whole)
  {
    if id in a.store.sessions {
      StartPromptFrame(a, id, run, controller, now);
      TakeOverStreams(a, StartPrompt(a, id, run, controller, now),
                      Pending(id, a.store.sessions[id].sessionKey, run, 0, ""), whole);
    }
  }

  lemma SameStreams(a: Agent, b: Agent, whole: RunId -> string)
    requires StreamsRight(a, whole) && Narrows(a, b)
    ensures StreamsRight(b, whole)
  {
  }

  lemma ChatStreams(a: Agent, key: string, runId: Option<RunId>, state: ChatState, now: int, whole: RunId -> string)
    requires Inv(a) && StreamsRight(a, whole) && Consistent(a, ChatEvent(key, runId, state), whole)
    ensures Recorded(a) && StreamsRight(HandleChat(a, key, runId, state, now), whole)
  {
    var found := FindPending(a.order, a.pending, key, runId);
    if found.Some? && key != "" && !state.Unknown? {
      if state.Delta? {
        DeltaStreamsRight(a, found.value, state.text, whole);
      } else {
        SameStreams(a, BeginFinish(a, found.value, ReasonOf(state), now), whole);
      }
    }
  }

  // The same streams, and no pending prompt that was not there before.
  ghost predicate Narrows(a: Agent, b: Agent) {
    && b.emitted == a.emitted && b.seen == a.seen
    && forall id :: id in b.pending ==> id in a.pending && b.pending[id] == a.pending[id]
  }

  lemma CancelNarrows(a: Agent, index: nat)
    requires index < |a.cancels|
    ensures Narrows(a, CancelResumed(a, index))
  {
    if a.cancels[index].captured.Some? {
      FewerPendingNarrow(a, CancelResumed(a, index), a.cancels[index].sessionId);
    }
  }

  lemma FewerPendingNarrow(a: Agent, b: Agent, id: SessionId)
    requires b.emitted == a.emitted && b.seen == a.seen && b.pending == a.pending - {id}
    ensures Narrows(a, b)
  {
  }

  lemma SendRejectedNarrows(a: Agent, run: RunId, now: int)
    requires run in a.sends
    ensures Narrows(a, SendRejected(a, run, now))
  {
    assert SendRejected(a, run, now).pending == a.pending - {a.sends[run]};
  }

  lemma OtherStepsNarrow(a: Agent, limits: Limits, e: Event, now: int)
    requires Valid(a.store) && Recorded(a) && Enabled(a, e) && !e.Prompt? && !e.ChatEvent?
    ensures Narrows(a, Step(a, limits, e, now))
  {
    match e {
      case BeginCancel(id) => CancelBegunFrame(a, id, now);
      case ResumeCancel(index) => CancelNarrows(a, index);
      case SendFailed(run) => SendRejectedNarrows(a, run, now);
      case _ =>
    }
  }

  lemma OtherStepsStream(a: Agent, limits: Limits, e: Event, now: int, whole: RunId -> string)
    requires Inv(a) && StreamsRight(a, whole) && Enabled(a, e) && !e.Prompt? && !e.ChatEvent?
    ensures Recorded(a) && StreamsRight(Step(a, limits, e, now), whole)
  {
    OtherStepsNarrow(a, limits, e, now);
    SameStreams(a, Step(a, limits, e, now), whole);
  }

  lemma StepStreams(a: Agent, limits: Limits, e: Event, now: int, whole: RunId -> string)
    requires Inv(a) && StreamsRight(a, whole) && Enabled(a, e) && Consistent(a, e, whole)
    ensures Recorded(a) && StreamsRight(Step(a, limits, e, now), whole)
  {
    match e {
      case Prompt(id, run, controller) => StartPromptStreams(a, id, run, controller, now, whole);
      case ChatEvent(key, runId, state) => ChatStreams(a, key, runId, state, now, whole);
      case _ => OtherStepsStream(a, limits, e, now, whole);
    }
  }

  // ----- settled once

  lemma ChatFrame(a: Agent, key: string, runId: Option<RunId>, state: ChatState, now: int)
    requires Recorded(a)
    ensures var b := HandleChat(a, key, runId, state, now);
            b.settled == a.settled && b.home == a.home && b.sends == a.sends
  {
  }

  ghost predicate SettledMore(a: Agent, b: Agent) {
    forall run :: run in a.settled ==> run in b.settled && b.settled[run] == a.settled[run]
  }

  lemma StepKeepsSettled(a: Agent, limits: Limits, e: Event, now: int)
    requires Inv(a) && Enabled(a, e)
    ensures Recorded(a) && SettledMore(a, Step(a, limits, e, now))
  {
    match e {
      case Prompt(id, run, controller) => PromptKeepsSettled(a, limits, id, run, controller, now);
      case ChatEvent(key, runId, state) => ChatFrame(a, key, runId, state, now);
      case BeginCancel(id) => BeginCancelSettles(a, limits, id, now);
      case Disconnect => DisconnectKeepsSettled(a, limits, now);
      case _ => RestKeepsSettled(a, limits, e, now);
    }
  }

  lemma SettlesOne(a: Agent, b: Agent, run: RunId, outcome: Outcome)
    requires b.settled == Settle(a.settled, run, outcome)
    ensures SettledMore(a, b)
  {
  }

  lemma RestKeepsSettled(a: Agent, limits: Limits, e: Event, now: int)
    requires Inv(a) && Enabled(a, e)
    requires !e.Prompt? && !e.ChatEvent? && !e.BeginCancel? && !e.Disconnect?
    ensures SettledMore(a, Step(a, limits, e, now))
  {
    match e {
      case ResumeFinish(run) => SettlesOne(a, FinishResumed(a, run), run, Resolved(a.finishing[run]));
      case SendFailed(run) => SettlesOne(a, SendRejected(a, run, now), run, Rejected);
      case ResumeCancel(index) => ResumeCancelSettles(a, index);
      case _ =>
    }
  }

  lemma ResumeCancelSettles(a: Agent, index: nat)
    requires index < |a.cancels|
    ensures SettledMore(a, CancelResumed(a, index))
  {
    var c := a.cancels[index];
    if c.captured.Some? { SettlesOne(a, CancelResumed(a, index), c.captured.value, Resolved(Cancelled)); }
  }

  lemma PromptKeepsSettled(a: Agent, limits: Limits, id: SessionId, run: RunId, controller: nat, now: int)
    requires Inv(a) && Enabled(a, Prompt(id, run, controller))
    ensures SettledMore(a, Step(a, limits, Prompt(id, run, controller), now))
  {
    if id in a.store.sessions { StartPromptFrame(a, id, run, controller, now); }
  }

  lemma BeginCancelSettles(a: Agent, limits: Limits, id: SessionId, now: int)
    requires Inv(a)
    ensures Step(a, limits, BeginCancel(id), now).settled == a.settled
  {
    CancelBegunFrame(a, id, now);
  }

  lemma DisconnectKeepsSettled(a: Agent, limits: Limits, now: int)
    requires Inv(a)
    ensures SettledMore(a, Step(a, limits, Disconnect, now))
  {
    RejectAllSettles(a.settled, a.order, a.pending);
  }

  // ----- runs

  datatype At = At(event: Event, now: int)

  ghost predicate Legal(limits: Limits, es: seq<At>)
    requires ValidLimits(limits)
    decreases |es|, 0
  {
    es != [] ==> Legal(limits, es[..|es| - 1]) && Enabled(After(limits, es[..|es| - 1]), es[|es| - 1].event)
  }

  // The state after a run; whatever the interleaving, the invariant holds there.
  ghost function After(limits: Limits, es: seq<At>): (a: Agent)
    requires ValidLimits(limits) && Legal(limits, es)
    ensures Inv(a)
    decreases |es|, 1
  {
    if es == [] then START
    else
      var before, last := After(limits, es[..|es| - 1]), es[|es| - 1];
      StepKeepsInv(before, limits, last.event, last.now);
      Step(before, limits, last.event, last.now)
  }

  // Over every run the index leads from a run to exactly the session it is active in, and a session with
  // a pending prompt has no run in progress or that prompt's.
  lemma EveryRunAgrees(limits: Limits, es: seq<At>)
    requires ValidLimits(limits) && Legal(limits, es)
    ensures var a := After(limits, es);
            && (forall run, id :: run in a.store.runs && a.store.runs[run] == id <==> Active(a.store, id) == Some(run))
            && (forall id :: id in a.store.sessions ==>
                  (a.store.sessions[id].activeRunId.None? <==> a.store.sessions[id].abortController.None?))
            && (forall id :: id in a.pending ==> Active(a.store, id) == None || Active(a.store, id) == Some(a.pending[id].run))
  {
    assert Inv(After(limits, es));
  }

  ghost predicate AlwaysNoneDropped(limits: Limits, es: seq<At>)
    requires ValidLimits(limits) && Legal(limits, es)
    decreases |es|
  {
    NoneDropped(After(limits, es)) && (es != [] ==> AlwaysNoneDropped(limits, es[..|es| - 1]))
  }

  ghost predicate NeverDrops(limits: Limits, es: seq<At>)
    requires ValidLimits(limits) && Legal(limits, es)
    decreases |es|
  {
    es != [] ==>
      && NeverDrops(limits, es[..|es| - 1])
      && !Drops(After(limits, es[..|es| - 1]), es[|es| - 1].event)
  }

  // Every prompt is at all times in the pending map, being finished, held by a cancel or settled, exactly in the runs
  // without a dropping step.
  lemma {:induction false} NoPromptDroppedIff(limits: Limits, es: seq<At>)
    requires ValidLimits(limits) && Legal(limits, es)
    ensures AlwaysNoneDropped(limits, es) <==> NeverDrops(limits, es)
    decreases |es|
  {
    if es != [] {
      var prefix, last := es[..|es| - 1], es[|es| - 1];
      NoPromptDroppedIff(limits, prefix);
      if AlwaysNoneDropped(limits, prefix) {
        NoneDroppedNow(limits, prefix);
        StepDropsIff(After(limits, prefix), limits, last.event, last.now);
      }
    }
  }

  lemma NoneDroppedNow(limits: Limits, es: seq<At>)
    requires ValidLimits(limits) && Legal(limits, es) && AlwaysNoneDropped(limits, es)
    ensures NoneDropped(After(limits, es))
  {
  }

  ghost predicate AlwaysQuiet(limits: Limits, es: seq<At>)
    requires ValidLimits(limits) && Legal(limits, es)
    decreases |es|
  {
    es != [] ==>
      && AlwaysQuiet(limits, es[..|es| - 1])
      && Quiet(After(limits, es[..|es| - 1]), es[|es| - 1].event)
  }

  // In quiet runs no prompt is dropped, and every run in progress has its prompt pending.
  lemma {:induction false} QuietRunsAreSafe(limits: Limits, es: seq<At>)
    requires ValidLimits(limits) && Legal(limits, es) && AlwaysQuiet(limits, es)
    ensures NeverDrops(limits, es)
    ensures var a := After(limits, es); NoneDropped(a) && Exclusive(a) && ActiveIsPending(a)
    decreases |es|
  {
    if es != [] {
      var prefix, last := es[..|es| - 1], es[|es| - 1];
      var before := After(limits, prefix);
      QuietRunsAreSafe(limits, prefix);
      ExclusiveIsSafe(before, last.event);
      QuietKeepsExclusive(before, limits, last.event, last.now);
      StepDropsIff(before, limits, last.event, last.now);
      StepStrandsIff(before, limits, last.event, last.now);
    }
  }

  // A disconnect at the end of a quiet run leaves no prompt pending, settles every prompt that was, and
  // leaves no run in progress.
  lemma QuietDisconnect(limits: Limits, es: seq<At>, now: int)
    requires ValidLimits(limits) && Legal(limits, es) && AlwaysQuiet(limits, es)
    ensures var a := After(limits, es); var b := Disconnected(a, now);
            && b.pending == map[] && NoneActive(b) && NoneDropped(b)
            && forall id :: id in a.pending ==> a.pending[id].run in b.settled
  {
    QuietRunsAreSafe(limits, es);
    DisconnectClearsIff(After(limits, es), now);
    DisconnectDropsNothing(After(limits, es), now);
  }

  // A prompt's outcome, once decided, is the outcome at the end of every longer run.
  lemma {:induction false} OutcomeIsDecidedOnce(limits: Limits, es: seq<At>, n: nat, run: RunId)
    requires ValidLimits(limits) && n <= |es| && Legal(limits, es)
    requires Legal(limits, es[..n]) && run in After(limits, es[..n]).settled
    ensures run in After(limits, es).settled && After(limits, es).settled[run] == After(limits, es[..n]).settled[run]
    decreases |es|
  {
    if n == |es| {
      assert es[..n] == es;
    } else {
      var prefix, last := es[..|es| - 1], es[|es| - 1];
      assert prefix[..n] == es[..n];
      OutcomeIsDecidedOnce(limits, prefix, n, run);
      StepKeepsSettled(After(limits, prefix), limits, last.event, last.now);
    }
  }

  ghost predicate AlwaysConsistent(limits: Limits, es: seq<At>, whole: RunId -> string)
    requires ValidLimits(limits) && Legal(limits, es)
    decreases |es|
  {
    es != [] ==>
      && AlwaysConsistent(limits, es[..|es| - 1], whole)
      && Consistent(After(limits, es[..|es| - 1]), es[|es| - 1].event, whole)
  }

  // If all snapshots delivered for a run are prefixes of one text, then in whatever order and however
  // often they come, what has been streamed is always the longest snapshot seen.
  lemma {:induction false} EveryRunStreams(limits: Limits, es: seq<At>, whole: RunId -> string)
    requires ValidLimits(limits) && Legal(limits, es) && AlwaysConsistent(limits, es, whole)
    ensures StreamsRight(After(limits, es), whole)
    decreases |es|
  {
    if es != [] {
      var prefix, last := es[..|es| - 1], es[|es| - 1];
      EveryRunStreams(limits, prefix, whole);
      StepStreams(After(limits, prefix), limits, last.event, last.now, whole);
    }
  }

  // ----- runs that are not quiet

  lemma AfterOneMore(limits: Limits, es: seq<At>, e: Event, now: int)
    requires ValidLimits(limits) && Legal(limits, es) && Enabled(After(limits, es), e)
    ensures Legal(limits, es + [At(e, now)])
    ensures Recorded(After(limits, es))
    ensures After(limits, es + [At(e, now)]) == Step(After(limits, es), limits, e, now)
  {
    assert (es + [At(e, now)])[..|es|] == es;
  }

  // A session is opened and prompted, and its prompt, with run r1, is pending and being sent.
  ghost predicate Prompted(a: Agent) {
    && "s" in a.store.sessions && Active(a.store, "s") == Some("r1")
    && a.pending.Keys == {"s"} && "s" in a.pending && a.pending["s"].run == "r1"
    && a.home == map["r1" := "s"] && a.sends == map["r1" := "s"]
    && a.cancels == [] && a.settled == map[] && a.finishing == map[]
  }

  lemma OpenedFirst(limits: Limits)
    requires ValidLimits(limits)
    ensures var a := Step(START, limits, OpenSession("s", "k", "/"), 0);
            a == START.(store := a.store) && "s" in a.store.sessions
  {
    assert Reap(START.store, limits, 0) == START.store;
  }

  lemma PromptedFirst(a: Agent)
    requires Inv(a) && a == START.(store := a.store) && "s" in a.store.sessions
    ensures Prompted(StartPrompt(a, "s", "r1", 0, 0))
  {
    StartPromptStore(a, "s", "r1", 0, 0);
    StartPromptFrame(a, "s", "r1", 0, 0);
    assert Active(StartPrompt(a, "s", "r1", 0, 0).store, "s") == Some("r1");
  }

  lemma FirstPrompt(limits: Limits) returns (es: seq<At>)
    requires ValidLimits(limits)
    ensures Legal(limits, es) && Prompted(After(limits, es))
  {
    es := [];
    var open, prompt := OpenSession("s", "k", "/"), Prompt("s", "r1", 0);
    OpenedFirst(limits);
    AfterOneMore(limits, es, open, 0);
    es := es + [At(open, 0)];
    PromptedFirst(After(limits, es));
    AfterOneMore(limits, es, prompt, 0);
    es := es + [At(prompt, 0)];
  }

  // A cancel that comes back after a second prompt has started leaves that prompt's run in progress even
  // after a disconnect.
  lemma RunCanBeStranded(limits: Limits) returns (es: seq<At>)
    requires ValidLimits(limits)
    ensures Legal(limits, es) && !NoneActive(Disconnected(After(limits, es), 0))
  {
    es := FirstPrompt(limits);
    var a := After(limits, es);
    var cancel, second, back := BeginCancel("s"), Prompt("s", "r2", 1), ResumeCancel(0);
    AfterOneMore(limits, es, cancel, 0);
    es := es + [At(cancel, 0)];
    CancelledActive(a, "s", 0);
    var b := After(limits, es);
    assert b.cancels == [Cancel("s", Some("r1"))];
    AfterOneMore(limits, es, second, 0);
    es := es + [At(second, 0)];
    StartPromptStore(b, "s", "r2", 1, 0);
    StartPromptFrame(b, "s", "r2", 1, 0);
    var c := After(limits, es);
    AfterOneMore(limits, es, back, 0);
    es := es + [At(back, 0)];
    var d := After(limits, es);
    assert Active(d.store, "s") == Some("r2") && "s" !in d.pending;
    DisconnectClearsIff(d, 0);
  }
}
