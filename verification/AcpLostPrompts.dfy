/** Prompts over whole runs: which can still be settled, when none is lost, and runs in which one is. */
module AcpLostPrompts {
  import opened Text
  import S = SessionStore
  import opened AcpBridge
  import opened AcpPrompts
  import opened AcpSettlement
  import opened AcpRuns

  // ----- what it means that a prompt can be settled

  // Some way to go on settles the prompt.
  ghost predicate SomeRunSettles(limits: S.Limits, es: seq<At>, run: S.RunId)
    requires S.ValidLimits(limits)
  {
    exists more :: Legal(limits, es + more) && run in After(limits, es + more).settled
  }

  // The event that settles it, if it is not settled.
  lemma SettlingEvent(a: Agent, limits: S.Limits, run: S.RunId) returns (e: Event)
    requires Inv(a) && run in a.home && CanSettle(a, run) && run !in a.settled
    ensures Enabled(a, e) && Recorded(a) && run in Step(a, limits, e, 0).settled
  {
    if run in a.sends {
      e := SendFailed(run);
    } else if run in a.finishing {
      e := ResumeFinish(run);
    } else if Captured(a.cancels, run) {
      var c :| c in a.cancels && c.captured == Some(run);
      var index :| 0 <= index < |a.cancels| && a.cancels[index] == c;
      e := ResumeCancel(index);
    } else {
      e := Disconnect;
      assert a.home[run] in a.order;
      RejectAllSettles(a.settled, a.order, a.pending);
    }
  }

  lemma CanBeSettled(limits: S.Limits, es: seq<At>, run: S.RunId)
    requires S.ValidLimits(limits) && Legal(limits, es)
    requires run in After(limits, es).home && CanSettle(After(limits, es), run)
    ensures SomeRunSettles(limits, es, run)
  {
    var a := After(limits, es);
    if run in a.settled {
      assert es + [] == es;
    } else {
      var e := SettlingEvent(a, limits, run);
      AfterOneMore(limits, es, e, 0);
    }
  }

  // A prompt that cannot be settled is not settled in any longer run.
  lemma {:induction false} StaysLost(limits: S.Limits, es: seq<At>, more: seq<At>, run: S.RunId)
    requires S.ValidLimits(limits) && Legal(limits, es) && Legal(limits, es + more)
    requires run in After(limits, es).home && !CanSettle(After(limits, es), run)
    ensures var a := After(limits, es + more); run in a.home && !CanSettle(a, run) && run !in a.settled
    decreases |more|
  {
    if more == [] {
      assert es + more == es;
    } else {
      var all, last := es + more, more[|more| - 1];
      assert all[..|all| - 1] == es + more[..|more| - 1] && all[|all| - 1] == last;
      StaysLost(limits, es, more[..|more| - 1], run);
      var before := After(limits, all[..|all| - 1]);
      StepSettles(before, limits, last.event, last.now, run);
      StepKeepsHome(before, limits, last.event, last.now);
    }
  }

  // A step starts no prompt but the one being prompted.
  ghost predicate HomeGrows(a: Agent, b: Agent) {
    && (forall run :: run in a.home ==> run in b.home)
    && (forall run :: run in b.home && run !in a.home ==> run in b.sends)
  }

  lemma StepKeepsHome(a: Agent, limits: S.Limits, e: Event, now: int)
    requires Inv(a) && Enabled(a, e)
    ensures Recorded(a) && HomeGrows(a, Step(a, limits, e, now))
  {
    match e {
      case Prompt(id, run, controller) => if id in a.store.sessions { StartPromptFrame(a, id, run, controller, now); }
      case ChatEvent(key, runId, state) => ChatFrame(a, key, runId, state, now);
      case BeginCancel(id) => CancelBegunFrame(a, id, now);
      case _ =>
    }
  }

  // So the notion is exact: a prompt can be settled if and only if some way to go on settles it.
  lemma CanSettleIff(limits: S.Limits, es: seq<At>, run: S.RunId)
    requires S.ValidLimits(limits) && Legal(limits, es) && run in After(limits, es).home
    ensures CanSettle(After(limits, es), run) <==> SomeRunSettles(limits, es, run)
  {
    if CanSettle(After(limits, es), run) {
      CanBeSettled(limits, es, run);
    } else if SomeRunSettles(limits, es, run) {
      var more :| Legal(limits, es + more) && run in After(limits, es + more).settled;
      StaysLost(limits, es, more, run);
    }
  }

  // ----- when no prompt is lost

  ghost predicate NoneLost(a: Agent) {
    forall run :: run in a.home ==> CanSettle(a, run)
  }

  ghost predicate Loses(a: Agent, e: Event)
    requires Enabled(a, e)
  {
    exists run :: run in a.home && LosesPrompt(a, e, run)
  }

  lemma StepLosesIff(a: Agent, limits: S.Limits, e: Event, now: int)
    requires Inv(a) && Enabled(a, e)
    ensures Recorded(a) && (NoneLost(Step(a, limits, e, now)) <==> NoneLost(a) && !Loses(a, e))
  {
    var b := Step(a, limits, e, now);
    StepKeepsHome(a, limits, e, now);
    forall run | run in a.home
      ensures CanSettle(b, run) <==> CanSettle(a, run) && !LosesPrompt(a, e, run)
    {
      StepSettles(a, limits, e, now, run);
    }
  }

  ghost predicate NeverLoses(limits: S.Limits, es: seq<At>)
    requires S.ValidLimits(limits) && Legal(limits, es)
    decreases |es|
  {
    es != [] ==>
      && NeverLoses(limits, es[..|es| - 1])
      && !Loses(After(limits, es[..|es| - 1]), es[|es| - 1].event)
  }

  // After a run every prompt ever started can still be settled exactly if none of its steps was one of the four.
  lemma {:induction false} NoPromptLostIff(limits: S.Limits, es: seq<At>)
    requires S.ValidLimits(limits) && Legal(limits, es)
    ensures NoneLost(After(limits, es)) <==> NeverLoses(limits, es)
    decreases |es|
  {
    if es != [] {
      var prefix, last := es[..|es| - 1], es[|es| - 1];
      NoPromptLostIff(limits, prefix);
      StepLosesIff(After(limits, prefix), limits, last.event, last.now);
    }
  }

  // In quiet runs no prompt is lost.
  lemma QuietRunsLoseNothing(limits: S.Limits, es: seq<At>)
    requires S.ValidLimits(limits) && Legal(limits, es) && AlwaysQuiet(limits, es)
    ensures NeverLoses(limits, es) && NoneLost(After(limits, es))
  {
    QuietRunsAreSafe(limits, es);
    var a := After(limits, es);
    forall run | run in a.home ensures CanSettle(a, run) { assert Covered(a, run); }
    NoPromptLostIff(limits, es);
  }

  // ----- runs that lose a prompt

  // How a second prompt on the session changes the state.
  ghost predicate Follows(a: Agent, b: Agent) {
    && b.pending.Keys == a.pending.Keys + {"s"} && "s" in b.pending && b.pending["s"].run == "r2"
    && b.home == a.home["r2" := "s"] && b.sends == a.sends["r2" := "s"]
    && b.cancels == a.cancels && b.finishing == a.finishing && b.settled == a.settled
  }

  lemma SecondFollows(a: Agent)
    requires "s" in a.store.sessions
    ensures Follows(a, StartPrompt(a, "s", "r2", 1, 0))
  {
    StartPromptFrame(a, "s", "r2", 1, 0);
  }

  lemma SecondPrompt(limits: S.Limits, es: seq<At>) returns (more: seq<At>)
    requires S.ValidLimits(limits) && Legal(limits, es)
    requires "s" in After(limits, es).store.sessions && "r2" !in After(limits, es).home
    ensures Legal(limits, more) && Follows(After(limits, es), After(limits, more))
  {
    var second := Prompt("s", "r2", 1);
    SecondFollows(After(limits, es));
    AfterOneMore(limits, es, second, 0);
    more := es + [At(second, 0)];
  }

  // The chat.send of a prompt that nothing holds in hand comes back without an error.
  lemma SendEnds(limits: S.Limits, es: seq<At>, run: S.RunId) returns (more: seq<At>)
    requires S.ValidLimits(limits) && Legal(limits, es)
    requires run in After(limits, es).home && run in After(limits, es).sends && !Covered(After(limits, es), run)
    ensures Legal(limits, more) && run in After(limits, more).home
    ensures !CanSettle(After(limits, more), run) && !SomeRunSettles(limits, more, run)
  {
    var a := After(limits, es);
    AfterOneMore(limits, es, SendDone(run), 0);
    StepSettles(a, limits, SendDone(run), 0, run);
    StepKeepsHome(a, limits, SendDone(run), 0);
    more := es + [At(SendDone(run), 0)];
    CanSettleIff(limits, more, run);
  }

  // Prompt, second prompt, and the first chat.send comes back: nothing ever settles the first prompt.
  lemma SecondPromptLosesFirst(limits: S.Limits) returns (es: seq<At>)
    requires S.ValidLimits(limits)
    ensures Legal(limits, es) && "r1" in After(limits, es).home && !SomeRunSettles(limits, es, "r1")
  {
    es := FirstPrompt(limits);
    es := SecondPrompt(limits, es);
    es := SendEnds(limits, es, "r1");
  }

  // After a prompt, a cancel and a second prompt the cancel holds the first prompt, and both are being sent.
  ghost predicate Between(a: Agent) {
    && a.pending.Keys == {"s"} && "s" in a.pending && a.pending["s"].run == "r2"
    && a.home == map["r1" := "s", "r2" := "s"] && a.sends == map["r1" := "s", "r2" := "s"]
    && a.cancels == [Cancel("s", Some("r1"))] && a.finishing == map[] && a.settled == map[]
  }

  lemma CancelBegunAtFirst(a: Agent)
    requires "s" in a.store.sessions && Active(a.store, "s") == Some("r1")
    requires a.pending.Keys == {"s"} && "s" in a.pending && a.pending["s"].run == "r1" && a.cancels == []
    ensures var b := CancelBegun(a, "s", 0);
            b == a.(store := b.store, cancels := [Cancel("s", Some("r1"))]) && "s" in b.store.sessions
  {
  }

  lemma CancelBetween(limits: S.Limits) returns (es: seq<At>)
    requires S.ValidLimits(limits)
    ensures Legal(limits, es) && Between(After(limits, es))
  {
    es := FirstPrompt(limits);
    CancelBegunAtFirst(After(limits, es));
    AfterOneMore(limits, es, BeginCancel("s"), 0);
    es := es + [At(BeginCancel("s"), 0)];
    es := SecondPrompt(limits, es);
  }

  lemma BetweenLosesSecond(a: Agent)
    requires Between(a) && Inv(a)
    ensures var b := SendRejected(a, "r1", 0); !Covered(b, "r2") && "r2" in b.sends && "r2" in b.home
    ensures var b := CancelResumed(a, 0); !Covered(b, "r2") && "r2" in b.sends && "r2" in b.home
  {
    assert a.cancels[..0] + a.cancels[1..] == [];
  }

  // Then the first chat.send fails, and the second comes back: nothing ever settles the second prompt.
  lemma LateFailureLosesSecond(limits: S.Limits) returns (es: seq<At>)
    requires S.ValidLimits(limits)
    ensures Legal(limits, es) && "r2" in After(limits, es).home && !SomeRunSettles(limits, es, "r2")
  {
    es := CancelBetween(limits);
    BetweenLosesSecond(After(limits, es));
    AfterOneMore(limits, es, SendFailed("r1"), 0);
    es := es + [At(SendFailed("r1"), 0)];
    es := SendEnds(limits, es, "r2");
  }

  // Or the cancel's abort request comes back, and then the second chat.send.
  lemma LateCancelLosesSecond(limits: S.Limits) returns (es: seq<At>)
    requires S.ValidLimits(limits)
    ensures Legal(limits, es) && "r2" in After(limits, es).home && !SomeRunSettles(limits, es, "r2")
  {
    es := CancelBetween(limits);
    BetweenLosesSecond(After(limits, es));
    AfterOneMore(limits, es, ResumeCancel(0), 0);
    es := es + [At(ResumeCancel(0), 0)];
    es := SendEnds(limits, es, "r2");
  }
}
