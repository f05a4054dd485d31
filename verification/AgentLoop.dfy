/** The run loop (agents/agent_loop.go RunStream) with the commands it consumes
    (agents/commands.go). Everything the outside decides in one iteration - polled input, provider
    answers, hook answers, the tool engine - is the `Turn` handed to the iteration. */
module AgentLoop {
  import opened Messages
  import opened Context
  import opened Slim
  import SlimImages
  import MergePairs
  import FailureLedger
  import opened ToolRound
  import CompactedContext
  import Compressor
  import InjectionTheorems
  import opened LoopLemmas
  import opened RunHistory

  class Run {
    const cfg: Config
    const ac: AgentContext
    const failures: FailureLedger.Ledger
    var toolRound: nat
    var forceCompact: bool
    var forceClear: bool
    var stopped: bool
    var failed: bool
    var overflowRetryUsed: bool
    var afterTools: bool
    var postToolNudgePending: bool
    var postToolNudgeUsed: bool
    var pendingTasksNudged: bool
    var todoGateUsed: bool
    var stopHookBlocks: nat
    ghost var events: seq<Event>
    ghost var trace: seq<FailureLedger.Round>
    ghost var requests: seq<Request>
    ghost var seen: set<string>
    ghost var inputBatches: nat
    ghost var laps: seq<Lap>

    constructor (cfg: Config, input: seq<Message>, slim: SlimState?)
      requires AllWellFormed(input) && WellPaired(input) && UniqueCalls(input)
      requires slim != null ==> slim.IsReset()
      ensures Valid() && BetweenTurns() && Slack() == 0 && events == [] && requests == [] && laps == [] &&
              inputBatches == 0
      ensures this.cfg == cfg && fresh(ac) && fresh(failures) && ac.slim == slim && ac.messages == input
      ensures seen == CallSet(input)
    {
      this.cfg := cfg;
      ac := new AgentContext(input, slim);
      failures := new FailureLedger.Ledger();
      toolRound, stopHookBlocks, inputBatches := 0, 0, 0;
      forceCompact, forceClear, stopped, failed, overflowRetryUsed := false, false, false, false, false;
      afterTools, postToolNudgePending, postToolNudgeUsed, pendingTasksNudged, todoGateUsed := false, false, false,
        false, false;
      events, requests, trace, laps, seen := [], [], [], [], CallSet(input);
      new;
      if slim != null { ResetIsOk(Settled(input), slim); }
      CallSetHas(input);
    }

    /** What every step keeps. */
    ghost predicate Valid()
      reads `events, `requests, `seen, `stopHookBlocks, `trace, `toolRound, ac, failures
    {
      Sound(ac.messages) && Ledgered(toolRound)
    }

    ghost predicate Sound(msgs: seq<Message>)
      reads `events, `requests, `seen, `stopHookBlocks
    {
      && AllWellFormed(msgs)
      && (Unbroken(events) ==> Paired(msgs, seen))
      && History(events, requests)
      && stopHookBlocks <= MAX_STOP_HOOK_BLOCKS
    }

    /** The ledger holds what the rounds run so far leave, and each of them respected the guard. */
    ghost predicate Ledgered(rounds: int)
      reads `events, `trace, failures
    {
      && failures.Valid() && |trace| == rounds
      && failures.entries == FailureLedger.EntriesAfter(trace) && FailureLedger.RespectsGuard(trace)
      && OnTrace(events, trace)
    }

    /** No command is waiting and the slim state is right about every message. */
    ghost predicate Ready()
      reads ac, ac.slim
    {
      NoCommands(ac.messages) && (ac.slim != null ==> SlimOk(ac.messages, ac.slim))
    }

    /** Between two iterations polled commands may wait behind everything the slim state knows.
        After /clear its indices are stale, but then the run is stopped. */
    ghost predicate BetweenTurns()
      reads `stopped, ac, ac.slim
    {
      !stopped ==> Tracked()
    }

    ghost predicate Tracked()
      reads ac, ac.slim
    {
      ac.slim != null ==> SlimOk(Settled(ac.messages), ac.slim)
    }

    lemma {:induction false} ReadyIsTracked()
      requires Ready()
      ensures Tracked()
    {
      SettledIsAll(ac.messages);
    }

    /** Everything a continuation has consumed. */
    ghost function Slack(): nat
      reads this
    {
      toolRound + inputBatches + One(postToolNudgeUsed) + One(pendingTasksNudged) + One(todoGateUsed) +
      stopHookBlocks + One(overflowRetryUsed) + One(stopped)
    }

    method InjectCommands(effect: Message -> Effect)
      modifies `forceCompact, `forceClear, ac
      ensures ac.messages == Consumed(old(ac.messages), effect)
      ensures forceCompact == (old(forceCompact) ||
                               (cfg.compact.Some? && Commanded(old(ac.messages), effect, Compacts)))
      ensures forceClear == (old(forceClear) || Commanded(old(ac.messages), effect, Clears))
    {
      hide Consumed, Commanded;
      var msgs := ac.messages;
      var kept: seq<Message> := [];
      NothingCommanded(effect);
      for i := 0 to |msgs|
        invariant ac.messages == old(ac.messages) == msgs
        invariant kept == Consumed(msgs[..i], effect)
        invariant forceCompact == (old(forceCompact) || (cfg.compact.Some? && Commanded(msgs[..i], effect, Compacts)))
        invariant forceClear == (old(forceClear) || Commanded(msgs[..i], effect, Clears))
      {
        var m := msgs[i];
        assert msgs[..i + 1] == msgs[..i] + [m];
        ConsumedNext(msgs[..i], m, effect);
        if !IsCommandMessage(m) {
          kept := kept + [m];
          continue;
        }
        match effect(m) {
          case Compacts =>
            if cfg.compact.Some? { forceCompact := true; }
          case Clears => forceClear := true;
          case Loads(skill) => kept := kept + [SkillMessage(skill)];
          case NoEffect =>
        }
      }
      assert msgs[..|msgs|] == msgs;
      ac.messages := kept;
    }

    /** Polled input enters the context, then the commands leave it. */
    method PollAndConsume(t: Turn)
      requires Valid() && BetweenTurns() && !stopped && ValidTurn(cfg, t)
      modifies `forceCompact, `forceClear, ac
      ensures Valid() && Ready()
      ensures ac.messages == Consumed(old(ac.messages) + t.polled, t.effect)
      ensures forceCompact == (old(forceCompact) ||
                               (cfg.compact.Some? && Commanded(old(ac.messages) + t.polled, t.effect, Compacts)))
      ensures forceClear == (old(forceClear) || Commanded(old(ac.messages) + t.polled, t.effect, Clears))
    {
      hide Paired, WellPaired, SlimOk, History, Unbroken, AllWellFormed, KeepsCalls;
      ghost var msgs := ac.messages;
      ghost var all := msgs + t.polled;
      InputsArePlain(t.polled);
      AppendPlain(msgs, t.polled);
      KeepsPaired(msgs, all, seen);
      ConsumedKeeps(all, t.effect);
      KeepsPaired(all, Consumed(all, t.effect), seen);
      if ac.slim != null {
        SettledGrows(msgs, t.polled, ac.slim);
        ConsumedKeepsSlim(all, t.effect, ac.slim);
      }
      if |t.polled| > 0 {
        ac.messages := ac.messages + t.polled;
      }
      assert ac.messages == all;
      InjectCommands(t.effect);
    }

    /** Top of an iteration: polled input, commands, /clear. */
    method Intake(t: Turn) returns (halt: bool)
      requires Valid() && BetweenTurns() && !stopped && ValidTurn(cfg, t)
      modifies `forceCompact, `forceClear, `stopped, ac
      ensures Valid()
      ensures halt == stopped == (old(forceClear) || Commanded(old(ac.messages) + t.polled, t.effect, Clears))
      ensures !halt ==> Ready() && ac.messages == Consumed(old(ac.messages) + t.polled, t.effect)
      ensures halt ==> ac.messages == Cleared(Consumed(old(ac.messages) + t.polled, t.effect))
      ensures forceCompact == (old(forceCompact) ||
                               (cfg.compact.Some? && Commanded(old(ac.messages) + t.polled, t.effect, Compacts)))
    {
      hide Paired, WellPaired, SlimOk, History, Unbroken, Commanded;
      PollAndConsume(t);
      halt := false;
      if forceClear {
        FirstKeeps(ac.messages);
        KeepsPaired(ac.messages, Cleared(ac.messages), seen);
        forceClear := false;
        if |ac.messages| > 0 && ac.messages[0].role == System {
          ac.messages := ac.messages[..1];
        } else {
          ac.messages := [];
        }
        stopped := true;
        halt := true;
      }
    }

    /** Stale results and images: only what tool results say changes. */
    method SlimTexts()
      requires Valid() && Ready() && ac.slim != null
      modifies ac, ac.slim
      ensures Valid() && Ready()
      ensures ac.messages == TextsSlimmed(old(ac.messages), old(ac.slim.roundStart), ac.slim.cfg)
    {
      hide Paired, WellPaired, History, Unbroken, OnTrace, SameShapes, AllWellFormed, ScansBack, NamesMessages,
           RoundsOk, SlimImages.Slimmed, Blanked;
      ghost var was := ac.messages;
      ApplyStale(ac);
      ghost var stale := ac.messages;
      assert stale == StaleBlanked(was, ac.slim.roundStart, ac.slim.cfg);
      SlimImages.ApplyImageSlim(ac);
      assert ac.messages == ImagesStripped(stale, ac.slim.roundStart, ac.slim.cfg);
      SameShapesCompose(was, stale, ac.messages);
      SlimmedKeeps(was, ac.messages);
      KeepsPaired(was, ac.messages, seen);
    }

    /** Redundant pairs leave the context; then every stored index is void. */
    method MergePass()
      requires Valid() && Ready() && ac.slim != null
      modifies ac, ac.slim
      ensures Valid() && Ready()
      ensures ac.messages == match MergePairs.Merged(old(ac.messages), cfg.mergeProtectRounds)
                             case None => old(ac.messages)
                             case Some(out) => out
    {
      hide Paired, WellPaired, History, Unbroken, SlimOk;
      ghost var was := ac.messages;
      MergeKeeps(was, cfg.mergeProtectRounds);
      var merged := MergePairs.MergeToolPairs(ac, cfg.mergeProtectRounds);
      if merged {
        KeepsPaired(was, ac.messages, seen);
        ac.slim.Reset();
        ResetIsOk(ac.messages, ac.slim);
      }
    }

    /** Stale results, images and redundant pairs. */
    method SlimPasses()
      requires Valid() && Ready()
      modifies ac, ac.slim
      ensures Valid() && Ready()
      ensures ac.messages == if ac.slim == null then old(ac.messages)
                             else Passed(old(ac.messages), old(ac.slim.roundStart), ac.slim.cfg, cfg.mergeProtectRounds)
    {
      hide Valid, Ready, TextsSlimmed;
      if ac.slim == null {
        return;
      }
      SlimTexts();
      if ac.slim.cfg.mergePairs {
        MergePass();
      }
    }

    method InjectContext(injects: seq<Text>) returns (messages: seq<Message>)
      ensures messages == Compressor.InjectedAll(ac.messages, injects)
    {
      messages := ac.messages;
      for i := 0 to |injects|
        invariant Compressor.InjectedAll(ac.messages, injects) == Compressor.InjectedAll(messages, injects[i..])
      {
        assert injects[i..][0] == injects[i] && injects[i..][1..] == injects[i + 1..];
        messages := Compressor.InjectPreCompactContext(messages, injects[i]);
      }
      assert injects[|injects|..] == [];
    }

    method Remind(m: Message)
      requires Valid() && Plain(m) && !IsCommandMessage(m)
      modifies ac
      ensures Valid() && ac.messages == old(ac.messages) + [m]
      ensures old(NoCommands(ac.messages)) ==> NoCommands(ac.messages)
    {
      hide Paired, WellPaired, History, Unbroken, SlimOk;
      AppendPlain(ac.messages, [m]);
      KeepsPaired(ac.messages, ac.messages + [m], seen);
      ac.messages := ac.messages + [m];
    }

    /** The compacted context replaces the old one; every stored index is void. */
    method Adopt(out: seq<Message>, c: Compaction)
      requires Sound(out) && NoCommands(out) && Ledgered(toolRound)
      modifies ac, ac.slim
      ensures Valid() && Ready()
      ensures ac.messages == out + Handoff(cfg, c)
    {
      hide Paired, WellPaired, History, Unbroken, SlimOk, AllWellFormed;
      ac.messages := out;
      Remind(if cfg.handoffAsUser then UserMessage(c.handoff) else SystemMessage(c.handoff));
      if c.todoReminder.Some? {
        Remind(SystemMessage(c.todoReminder.value));
      }
      if ac.slim != null {
        ac.slim.Reset();
        ResetIsOk(ac.messages, ac.slim);
      }
    }

    /** A compaction takes place; `c.summary` is the summarizer's answer. */
    ghost method NoteCompaction(c: Compaction)
      requires Valid() && NoCommands(ac.messages) && cfg.compact.Some? && c.summary.Some?
      requires Compressor.PartsOf(Compressor.InjectedAll(ac.messages, c.injects), cfg.compact.value).Some?
      modifies `events
      ensures var out := Compressor.Assembled(Compressor.PartsOf(Compressor.InjectedAll(ac.messages, c.injects),
                                                                 cfg.compact.value).value,
                                              c.summary.value);
              && events == old(events) + [Compacted(ac.messages, c.injects, cfg.compact.value, out + Handoff(cfg, c))]
              && Sound(out) && NoCommands(out) && Ledgered(toolRound)
    {
      hide Paired, AllWellFormed, Compressor.PartsOf, Compressor.Assembled, Compressor.InjectedAll,
           InjectionTheorems.Splits,
           History, Unbroken, WellPaired, OnTrace, Handoff;
      var compact := cfg.compact.value;
      var out := Compressor.Assembled(Compressor.PartsOf(Compressor.InjectedAll(ac.messages, c.injects), compact).value,
                                      c.summary.value);
      CompactionKeeps(ac.messages, c.injects, compact, c.summary.value, seen);
      HandoffIsSilent(cfg, c);
      SilentKeepsPairing(out, Handoff(cfg, c));
      var e := Compacted(ac.messages, c.injects, compact, out + Handoff(cfg, c));
      PairedIsWellPaired(ac.messages, seen);
      HistoryGrows(events, requests, e);
      OnTraceSkips(events, e, trace);
      events := events + [e];
    }

    method MaybeCompact(forced: bool, c: Compaction)
      requires Valid() && Ready()
      modifies ac, ac.slim, `events
      ensures Valid() && Ready()
      ensures events == old(events) + CompactionEvents(cfg, old(ac.messages), forced, c)
      ensures ac.messages == AfterCompaction(cfg, old(ac.messages), forced, c)
    {
      hide Sound, SlimOk, Ledgered, Compressor.PartsOf, Compressor.Assembled, Compressor.InjectedAll, Handoff;
      if cfg.compact.None? || (!forced && c.skip) {
        return;
      }
      var messages := InjectContext(c.injects);
      var out := CompactedContext.Compact(messages, cfg.compact.value, c.summary);
      if out.None? {
        return;
      }
      NoteCompaction(c);
      Adopt(out.value, c);
    }

    /** Attempts until one completes, at most MaxAttempts of them. */
    method StreamWithRetry(attempts: seq<Attempt>) returns (outcome: Option<Reply>, overflow: bool, ghost calls: nat)
      requires Valid() && |attempts| >= MaxAttempts(cfg)
      modifies `requests, `postToolNudgePending
      ensures Valid()
      ensures (outcome, overflow, calls) == Outcome(attempts, MaxAttempts(cfg), 0)
      ensures |requests| == |old(requests)| + calls && calls <= MaxAttempts(cfg)
      ensures postToolNudgePending == (old(postToolNudgePending) && calls == 0)
      ensures requests[..|old(requests)|] == old(requests)
      ensures forall k | |old(requests)| <= k < |requests| :: requests[k].at == |events| &&
                requests[k].messages == ac.messages + (if old(postToolNudgePending) && k == |old(requests)|
                                                       then [UserMessage(NUDGE)] else [])
      ensures calls > 0 ==> TriedAgain(attempts, calls - 1)
      ensures outcome.Some? ==> calls > 0 && attempts[calls - 1] == Completed(outcome.value)
      ensures forall k | 0 <= k < calls :: !attempts[k].Aborted?
      // Giving up before the last attempt allowed has one of three reasons.
      ensures outcome.None? && calls < MaxAttempts(cfg) ==>
                || attempts[calls].Aborted?
                || (calls > 0 && attempts[calls - 1].Failed? &&
                    (!attempts[calls - 1].retry || attempts[calls - 1].canceledWaiting))
      // A reply that only failures to try again after precede is delivered.
      ensures forall k | 0 <= k < MaxAttempts(cfg) && attempts[k].Completed? ::
                (forall j | 0 <= j < k :: attempts[j].Failed? && attempts[j].retry && !attempts[j].canceledWaiting) ==>
                outcome == Some(attempts[k].reply) && calls == k + 1
      ensures overflow <==> outcome.None? && calls > 0 && attempts[calls - 1].Failed? &&
                            attempts[calls - 1].overflow && (calls == MaxAttempts(cfg) || !attempts[calls - 1].retry)
    {
      OutcomeMeans(attempts, MaxAttempts(cfg));
      outcome, overflow, calls := Attempts(attempts);
    }

    /** The attempts themselves. */
    method Attempts(attempts: seq<Attempt>) returns (outcome: Option<Reply>, overflow: bool, ghost calls: nat)
      requires Valid() && |attempts| >= MaxAttempts(cfg)
      modifies `requests, `postToolNudgePending
      ensures Valid()
      ensures (outcome, overflow, calls) == Outcome(attempts, MaxAttempts(cfg), 0)
      ensures |requests| == |old(requests)| + calls && calls <= MaxAttempts(cfg)
      ensures postToolNudgePending == (old(postToolNudgePending) && calls == 0)
      ensures requests[..|old(requests)|] == old(requests)
      ensures forall k | |old(requests)| <= k < |requests| :: requests[k].at == |events| &&
                requests[k].messages == ac.messages + (if old(postToolNudgePending) && k == |old(requests)|
                                                       then [UserMessage(NUDGE)] else [])
    {
      hide Paired, WellPaired, AllWellFormed, History, Unbroken;
      calls := 0;
      var i := 0;
      while true
        invariant i == calls < MaxAttempts(cfg) && Valid()
        invariant var rest := Outcome(attempts, MaxAttempts(cfg), i);
                  Outcome(attempts, MaxAttempts(cfg), 0) == (rest.0, rest.1, rest.2 + calls)
        invariant |requests| == |old(requests)| + calls && requests[..|old(requests)|] == old(requests)
        invariant forall k | |old(requests)| <= k < |requests| :: requests[k].at == |events| &&
                    requests[k].messages == ac.messages + (if old(postToolNudgePending) && k == |old(requests)|
                                                           then [UserMessage(NUDGE)] else [])
        invariant postToolNudgePending == (old(postToolNudgePending) && calls == 0)
        decreases MaxAttempts(cfg) - i
      {
        if attempts[i].Aborted? {
          return None, false, calls;
        }
        Send();
        calls := calls + 1;
        match attempts[i] {
          case Completed(reply) =>
            return Some(reply), false, calls;
          case Failed(tooLong, retry, canceledWaiting) =>
            if i + 1 >= MaxAttempts(cfg) || !retry {
              return None, tooLong, calls;
            }
            if canceledWaiting {
              return None, false, calls;
            }
        }
        i := i + 1;
      }
    }

    /** One provider request: the context, and once the reminder to go on after tools. */
    method Send()
      requires Valid()
      modifies `requests, `postToolNudgePending
      ensures Valid() && !postToolNudgePending
      ensures requests == old(requests) +
                [Request(ac.messages + (if old(postToolNudgePending) then [UserMessage(NUDGE)] else []), |events|)]
    {
      hide AllWellFormed, History, Unbroken, WellPaired, OnTrace;
      ghost var extra := if postToolNudgePending then [UserMessage(NUDGE)] else [];
      AppendPlain(ac.messages, extra);
      KeepsPaired(ac.messages, ac.messages + extra, seen);
      HistorySends(events, requests, ac.messages + extra);
      requests := requests + [Request(ac.messages + extra, |events|)];
      postToolNudgePending := false;
    }

    method Append(more: seq<Message>)
      requires Valid() && Tracked() && forall m | m in more :: Plain(m)
      modifies ac
      ensures Valid() && Tracked() && ac.messages == old(ac.messages) + more
    {
      hide WellPaired, AllWellFormed, History, Unbroken, SlimOk, Paired;
      AppendPlain(ac.messages, more);
      KeepsPaired(ac.messages, ac.messages + more, seen);
      if ac.slim != null { SettledGrows(ac.messages, more, ac.slim); }
      ac.messages := ac.messages + more;
    }

    predicate NudgeDue(reply: Reply, pending: bool)
      reads `afterTools, `postToolNudgeUsed
    {
      Length(reply.content) == 0 && cfg.postToolNudge && afterTools && !pending && !postToolNudgeUsed
    }

    predicate TasksDue(t: Turn)
      reads `pendingTasksNudged
    {
      cfg.pendingTasksNudge && t.tasks.Some? && !pendingTasksNudged
    }

    predicate TodosDue(t: Turn)
      reads `todoGateUsed
    {
      !todoGateUsed && !t.aborted && t.todos.Some?
    }

    predicate HookDue(t: Turn)
      reads `stopHookBlocks
    {
      cfg.hasStopHook && !t.aborted && stopHookBlocks < MAX_STOP_HOOK_BLOCKS && t.hook.Some?
    }

    /** The reminder a stopping run gets. */
    function StopMessages(t: Turn): seq<Message>
      reads `pendingTasksNudged, `todoGateUsed, `stopHookBlocks
    {
      if TasksDue(t) then [TasksMessage(t.tasks.value)]
      else if TodosDue(t) then [TodoMessage(t.todos.value)]
      else if HookDue(t) then [HookMessage(t.hook.value)] else []
    }

    /** The reminders that keep a run going; at most one is given. */
    method StopReminder(t: Turn) returns (go: bool)
      requires Valid() && Tracked()
      modifies `pendingTasksNudged, `todoGateUsed, `stopHookBlocks, ac
      ensures Valid() && Tracked()
      ensures go <==> old(TasksDue(t)) || old(TodosDue(t)) || old(HookDue(t))
      ensures Slack() == old(Slack()) + One(go)
      ensures ac.messages == old(ac.messages) + old(StopMessages(t))
    {
      hide Paired, WellPaired, AllWellFormed, History, Unbroken, SlimOk;
      if TasksDue(t) {
        pendingTasksNudged := true;
        Append([TasksMessage(t.tasks.value)]);
        return true;
      }
      if TodosDue(t) {
        todoGateUsed := true;
        Append([TodoMessage(t.todos.value)]);
        return true;
      }
      if HookDue(t) {
        stopHookBlocks := stopHookBlocks + 1;
        Append([HookMessage(t.hook.value)]);
        return true;
      }
      return false;
    }

    /** The final text and what the user typed meanwhile. */
    method FinalText(t: Turn, reply: Reply) returns (go: bool)
      requires Valid() && Tracked() && ValidTurn(cfg, t)
      modifies `inputBatches, ac
      ensures Valid() && Tracked()
      ensures go <==> t.polledAtStop != []
      ensures inputBatches == old(inputBatches) + One(go)
      ensures ac.messages == old(ac.messages) + StopText(reply) + t.polledAtStop
    {
      hide Paired, WellPaired, AllWellFormed, History, Unbroken, SlimOk;
      ghost var msgs := ac.messages;
      if cfg.hasPoll {
        if Length(reply.content) != 0 {
          Append([AssistantMessage(reply.content, reply.reasoning, reply.signature, [])]);
        } else {
          assert msgs + StopText(reply) == msgs;
        }
        if |t.polledAtStop| > 0 {
          InputsArePlain(t.polledAtStop);
          Append(t.polledAtStop);
          inputBatches := inputBatches + 1;
          return true;
        }
      } else {
        assert msgs + StopText(reply) == msgs;
      }
      return false;
    }

    function StopText(reply: Reply): seq<Message> {
      if cfg.hasPoll && Length(reply.content) != 0
         then [AssistantMessage(reply.content, reply.reasoning, reply.signature, [])] else []
    }

    predicate Stays(t: Turn, reply: Reply, pending: bool)
      reads `afterTools, `postToolNudgeUsed, `pendingTasksNudged, `todoGateUsed, `stopHookBlocks
    {
      NudgeDue(reply, pending) || t.polledAtStop != [] || TasksDue(t) || TodosDue(t) || HookDue(t)
    }

    /** The context behind a reply without tool calls: its text when input may still come, that input, or
        else the reminder. */
    function StopContext(t: Turn, reply: Reply, pending: bool): seq<Message>
      reads `afterTools, `postToolNudgeUsed, `pendingTasksNudged, `todoGateUsed, `stopHookBlocks, ac
    {
      if NudgeDue(reply, pending) then ac.messages
      else ac.messages + StopText(reply) + t.polledAtStop + if t.polledAtStop != [] then [] else StopMessages(t)
    }

    /** The final text, what the user typed meanwhile, and the reminders, in this order. */
    method Stop(t: Turn, reply: Reply) returns (go: bool)
      requires Valid() && Tracked() && ValidTurn(cfg, t)
      modifies `afterTools, `postToolNudgePending, `postToolNudgeUsed, `pendingTasksNudged, `todoGateUsed,
               `stopHookBlocks, `failed, `inputBatches, ac
      ensures Valid() && Tracked()
      ensures Slack() == old(Slack()) + One(go)
      ensures go <==> old(Stays(t, reply, postToolNudgePending))
      ensures old(NudgeDue(reply, postToolNudgePending)) ==> postToolNudgePending
      ensures ac.messages == old(StopContext(t, reply, postToolNudgePending))
      ensures failed <==> old(failed) || (!go && reply.truncated && IsBlank(reply.content))
    {
      hide Valid, Sound, Tracked, ValidTurn, IsBlank;
      if NudgeDue(reply, postToolNudgePending) {
        postToolNudgePending, postToolNudgeUsed, afterTools := true, true, false;
        return true;
      }
      afterTools := false;
      go := FinalText(t, reply);
      if go {
        return;
      }
      go := StopReminder(t);
      if !go && reply.truncated && IsBlank(reply.content) {
        failed := true;
      }
    }

    /** A reply without tool calls: end the run, or find a reason to go on. */
    method StopPoint(t: Turn, reply: Reply) returns (go: bool)
      requires Valid() && Tracked() && ValidTurn(cfg, t)
      modifies `afterTools, `postToolNudgePending, `postToolNudgeUsed, `pendingTasksNudged, `todoGateUsed,
               `stopHookBlocks, `failed, `inputBatches, ac
      ensures Valid() && Tracked()
      // It goes on once for an empty answer behind tools, for input typed meanwhile, once for background
      // tasks, once for unfinished todos, and for a Stop hook up to eight times.
      ensures go <==>
                || (Length(reply.content) == 0 && cfg.postToolNudge && old(afterTools && !postToolNudgePending &&
                                                                           !postToolNudgeUsed))
                || t.polledAtStop != []
                || (cfg.pendingTasksNudge && t.tasks.Some? && !old(pendingTasksNudged))
                || (t.todos.Some? && !t.aborted && !old(todoGateUsed))
                || (cfg.hasStopHook && t.hook.Some? && !t.aborted && old(stopHookBlocks) < 8)
      ensures Slack() == old(Slack()) + One(go)
      ensures go <==> old(Stays(t, reply, postToolNudgePending))
      ensures old(NudgeDue(reply, postToolNudgePending)) ==> postToolNudgePending
      ensures ac.messages == old(StopContext(t, reply, postToolNudgePending))
      ensures failed <==> old(failed) || (!go && reply.truncated && IsBlank(reply.content))
    {
      hide Valid, Sound, Tracked, ValidTurn, IsBlank, Slack, StopContext;
      go := Stop(t, reply);
    }

    /** The reply and the results of its calls stand behind the context, up to what slimming says of results. */
    ghost predicate RoundWritten(was: seq<Message>, entries: map<FailureLedger.Key, FailureLedger.Failure>, round: nat,
                                 reply: Reply, now: seq<Message>)
    {
      ValidBatch(reply.batch) && |reply.views| == |ReplyMessage(reply).calls| &&
      var results := Returned(entries, round, reply.batch);
      results.Some? &&
      var written := RoundContext(was, ReplyMessage(reply), results.value, reply.views);
      SameShapes(written, now) && (ac.slim == null ==> now == written)
    }

    /** Runs the calls and writes the round back; `toolRound` is its number. */
    method RunRound(reply: Reply)
      requires Sound(ac.messages) && Ledgered(toolRound - 1) && Ready() && ValidReply(reply) && reply.batch.calls != []
      requires forall c | c in reply.batch.calls :: c.id !in seen
      modifies `events, `trace, `seen, ac, ac.slim, failures
      ensures Valid() && Ready()
      ensures seen == old(seen) + set c | c in reply.batch.calls :: c.id
      ensures trace == old(trace) + [RoundOf(old(trace), reply.batch)]
      ensures events == old(events) +
              [RoundRun(old(ac.messages), old(failures.entries), toolRound, reply.batch, ac.messages)]
      ensures var results := Returned(old(failures.entries), toolRound, reply.batch);
              && results.Some? && |reply.views| == |ReplyMessage(reply).calls|
              && SameShapes(RoundContext(old(ac.messages), ReplyMessage(reply), results.value, reply.views),
                            ac.messages)
              && (ac.slim == null ==>
                    ac.messages == RoundContext(old(ac.messages), ReplyMessage(reply), results.value, reply.views))
              && (ac.slim != null ==>
                    (ac.messages, ac.slim.log) ==
                    RoundEntered(old(ac.messages), ac.slim.cfg, old(ac.slim.log), ReplyMessage(reply), results.value,
                                 reply.views))
      ensures failures.entries == FailureLedger.AfterRound(old(failures.entries), reply.batch.calls,
                                                           Executed(old(failures.entries), toolRound, reply.batch),
                                                             toolRound)
    {
      hide Paired, WellPaired, History, Unbroken, SlimOk, OnTrace, SameShapes, RoundContext, Executed, Returned,
           FailureLedger.AfterRound, FailureLedger.EntriesAfter, FailureLedger.RespectsGuard, EveryCallAnswered;
      ghost var entries, msgs := failures.entries, ac.messages;
      SomethingReturned(entries, toolRound, reply.batch);
      var results := RunTools(failures, toolRound, reply.batch);
      AppendRound(ac, ReplyMessage(reply), results.value, reply.views);
      RoundKeeps(msgs, ReplyMessage(reply), results.value, reply.views, ac.messages, seen);
      NoteRound(entries, msgs, results.value, reply);
    }

    ghost method NoteRound(entries: map<FailureLedger.Key, FailureLedger.Failure>, msgs: seq<Message>,
                           results: seq<FailureLedger.ToolResult>, reply: Reply)
      requires Sound(msgs) && ValidReply(reply) && reply.batch.calls != [] && AllWellFormed(ac.messages)
      requires Returned(entries, toolRound, reply.batch) == Some(results)
      requires Paired(msgs, seen) && EveryCallAnswered(reply.batch.calls, results) ==>
                 Paired(ac.messages, seen + set c | c in reply.batch.calls :: c.id)
      requires WellPaired(msgs) ==> (WellPaired(ac.messages) <==> EveryCallAnswered(reply.batch.calls, results))
      requires failures.Valid() && |trace| == toolRound - 1 && FailureLedger.RespectsGuard(trace) &&
               OnTrace(events, trace)
      requires entries == FailureLedger.EntriesAfter(trace)
      requires failures.entries ==
               FailureLedger.AfterRound(entries, reply.batch.calls, Executed(entries, toolRound, reply.batch),
                                        toolRound)
      modifies `events, `trace, `seen
      ensures Valid() && seen == old(seen) + set c | c in reply.batch.calls :: c.id
      ensures trace == old(trace) + [RoundOf(old(trace), reply.batch)]
      ensures events == old(events) + [RoundRun(msgs, entries, toolRound, reply.batch, ac.messages)]
    {
      hide Paired, WellPaired, AllWellFormed, Returned, EveryCallAnswered, SomeFate, History, Unbroken, OnTrace,
           FailureLedger.AfterRound, FailureLedger.EntriesAfter, FailureLedger.RespectsGuard, Executed, RoundOf;
      AnsweredIffNotMixed(entries, toolRound, reply.batch);
      RoundRespectsGuard(trace, reply.batch);
      var e := RoundRun(msgs, entries, toolRound, reply.batch, ac.messages);
      PairedIsWellPaired(msgs, seen);
      HistoryGrows(events, requests, e);
      RoundOnTrace(events, trace, e);
      events := events + [e];
      trace := trace + [RoundOf(trace, reply.batch)];
      seen := seen + set c | c in reply.batch.calls :: c.id;
    }

    /** A reply with tool calls. */
    method ToolStep(reply: Reply) returns (go: bool)
      requires Valid() && Ready() && ValidReply(reply) && reply.batch.calls != []
      requires forall c | c in reply.batch.calls :: c.id !in seen
      modifies `toolRound, `afterTools, `events, `trace, `seen, ac, ac.slim, failures
      ensures Valid() && Ready() && toolRound == old(toolRound) + 1
      ensures seen <= old(seen) + set c | c in reply.batch.calls :: c.id
      ensures events == old(events) +
                if reply.toolError then []
                else [RoundRun(old(ac.messages), old(failures.entries), toolRound, reply.batch, ac.messages)]
      ensures go <==> !reply.toolError
      ensures !go ==> ac.messages == old(ac.messages)
      ensures go ==> RoundWritten(old(ac.messages), old(failures.entries), toolRound, reply, ac.messages)
    {
      hide Sound, Ready, OnTrace, SameShapes, RoundContext, RoundEntered, Returned, Executed, RoundOf,
           FailureLedger.AfterRound, FailureLedger.EntriesAfter, FailureLedger.RespectsGuard;
      toolRound := toolRound + 1;
      if reply.toolError {
        FailedRoundRespectsGuard(trace, reply.batch.calls);
        TraceGrows(events, trace, FailureLedger.Round(reply.batch.calls, []));
        trace := trace + [FailureLedger.Round(reply.batch.calls, [])];
        return false;
      }
      RunRound(reply);
      afterTools := true;
      return true;
    }

    /** The context behind intake and passes, whether it was cleared, and whether compaction is forced. */
    ghost function Polished(t: Turn): (seq<Message>, bool, bool)
      reads `forceClear, `forceCompact, ac, ac.slim
    {
      var all := ac.messages + t.polled;
      var consumed := Consumed(all, t.effect);
      var forced := forceCompact || (cfg.compact.Some? && Commanded(all, t.effect, Compacts));
      if forceClear || Commanded(all, t.effect, Clears) then (Cleared(consumed), true, forced)
      else if ac.slim == null then (consumed, false, forced)
      else (Passed(consumed, ac.slim.roundStart, ac.slim.cfg, cfg.mergeProtectRounds), false, forced)
    }

    /** The context an iteration comes to before its provider request, and whether it halts there. */
    ghost function Prepared(t: Turn): (seq<Message>, bool)
      reads `forceClear, `forceCompact, ac, ac.slim
    {
      var (msgs, cleared, forced) := Polished(t);
      if cleared then (msgs, true) else (AfterCompaction(cfg, msgs, forced, t.compaction), forced)
    }

    ghost function PreparedEvents(t: Turn): seq<Event>
      reads `forceClear, `forceCompact, ac, ac.slim
    {
      var (msgs, cleared, forced) := Polished(t);
      if cleared then [] else CompactionEvents(cfg, msgs, forced, t.compaction)
    }

    /** An iteration up to its provider request; `halt` after /clear and after a manual compaction. */
    method Prepare(t: Turn) returns (halt: bool)
      requires Valid() && BetweenTurns() && !stopped && ValidTurn(cfg, t)
      modifies `forceCompact, `forceClear, `stopped, `events, ac, ac.slim
      ensures Valid() && halt == stopped && (!halt ==> Ready())
      ensures (ac.messages, halt) == old(Prepared(t))
      ensures events == old(events) + old(PreparedEvents(t))
    {
      hide Valid, Sound, Ready, Tracked, ValidTurn, Consumed, Commanded, Passed, AfterCompaction, CompactionEvents,
           Cleared;
      halt := Intake(t);
      if halt {
        return;
      }
      SlimPasses();
      var forced := forceCompact;
      forceCompact := false;
      MaybeCompact(forced, t.compaction);
      if forced {
        stopped := true;
        halt := true;
      }
    }

    /** The provider call failed: one forced compaction if the context was too long. */
    method RetryAfterOverflow(t: Turn, overflow: bool) returns (go: bool)
      requires Valid() && Ready() && ValidTurn(cfg, t)
      modifies `overflowRetryUsed, `failed, `events, ac, ac.slim
      ensures Valid() && Ready()
      ensures Slack() >= old(Slack()) + One(go)
      ensures go <==> !old(overflowRetryUsed) && cfg.compact.Some? && overflow
      ensures events == old(events) + if go then CompactionEvents(cfg, old(ac.messages), true, t.overflowCompaction)
              else []
      ensures ac.messages == if go then AfterCompaction(cfg, old(ac.messages), true, t.overflowCompaction)
              else old(ac.messages)
      ensures failed <==> old(failed) || !go
    {
      hide Valid, Sound, Ready, ValidTurn, AfterCompaction, CompactionEvents;
      if !overflowRetryUsed && cfg.compact.Some? && overflow {
        overflowRetryUsed := true;
        MaybeCompact(true, t.overflowCompaction);
        return true;
      }
      failed := true;
      return false;
    }

    /** What happens behind the provider's answer to `msgs`; the context behind a round is left open. */
    ghost function AnswerEvents(t: Turn, msgs: seq<Message>, outcome: Option<Reply>, overflow: bool): seq<Event>
      reads `overflowRetryUsed, `toolRound, failures
    {
      if outcome.None? then
        if !overflowRetryUsed && cfg.compact.Some? && overflow
           then CompactionEvents(cfg, msgs, true, t.overflowCompaction) else []
      else
        var reply := outcome.value;
        if !reply.toolCallFinish || reply.batch.calls == [] || reply.toolError then []
        else [RoundRun(msgs, failures.entries, toolRound + 1, reply.batch, [])]
    }

    /** Whether an iteration goes on behind the provider's answer: to try again with a compacted context,
        to let the model read its tool results, or for a reason not to stop yet. */
    predicate Continues(t: Turn, outcome: Option<Reply>, overflow: bool, pending: bool)
      reads `overflowRetryUsed, `afterTools, `postToolNudgeUsed, `pendingTasksNudged, `todoGateUsed, `stopHookBlocks
    {
      match outcome
      case None => !overflowRetryUsed && cfg.compact.Some? && overflow
      case Some(reply) =>
        if reply.toolCallFinish && reply.batch.calls != [] then !reply.toolError
        else Stays(t, reply, pending)
    }

    /** The context it leaves; None for a tool round. */
    ghost function Concludes(t: Turn, outcome: Option<Reply>, overflow: bool, pending: bool): Option<seq<Message>>
      reads `overflowRetryUsed, `afterTools, `postToolNudgeUsed, `pendingTasksNudged, `todoGateUsed, `stopHookBlocks, ac
    {
      match outcome
      case None => Some(if Continues(t, outcome, overflow, pending)
                        then AfterCompaction(cfg, ac.messages, true, t.overflowCompaction) else ac.messages)
      case Some(reply) =>
        if reply.toolCallFinish && reply.batch.calls != [] then
          if reply.toolError then Some(ac.messages) else None
        else Some(StopContext(t, reply, pending))
    }

    /** What follows the provider's answer. */
    method Conclude(t: Turn, outcome: Option<Reply>, overflow: bool) returns (go: bool)
      requires Valid() && Ready() && ValidTurn(cfg, t) && !stopped
      requires outcome.Some? ==> ValidReply(outcome.value) && forall c | c in outcome.value.batch.calls :: c.id !in seen
      modifies this, ac, ac.slim, failures
      ensures Valid() && Tracked() && stopped == old(stopped) && requests == old(requests)
      ensures seen <= old(seen) + if outcome.Some? then set c | c in outcome.value.batch.calls :: c.id else {}
      ensures Slack() >= old(Slack()) + One(go)
      ensures Adds(old(events), events, old(AnswerEvents(t, ac.messages, outcome, overflow)))
      ensures laps == old(laps)
      ensures go <==> old(Continues(t, outcome, overflow, postToolNudgePending))
      ensures old(Concludes(t, outcome, overflow, postToolNudgePending)).Some? ==>
                ac.messages == old(Concludes(t, outcome, overflow, postToolNudgePending)).value
      ensures old(Concludes(t, outcome, overflow, postToolNudgePending)).None? ==>
                && outcome.Some?
                && RoundWritten(old(ac.messages), old(failures.entries), old(toolRound) + 1, outcome.value, ac.messages)
    {
      hide Valid, Sound, Ready, Tracked, NoCommands, CompactionEvents, AfterCompaction, ValidTurn, Handoff, Stays,
           StopContext, RoundWritten;
      if outcome.None? {
        go := RetryAfterOverflow(t, overflow);
        ReadyIsTracked();
        return;
      }
      var reply := outcome.value;
      if !reply.toolCallFinish || |reply.batch.calls| == 0 {
        ReadyIsTracked();
        go := StopPoint(t, reply);
        return;
      }
      go := ToolStep(reply);
      ReadyIsTracked();
    }

    ghost function AskEvents(t: Turn, msgs: seq<Message>): seq<Event>
      requires ValidTurn(cfg, t)
      reads `overflowRetryUsed, `toolRound, failures
    {
      var (outcome, overflow, _) := Outcome(t.attempts, MaxAttempts(cfg), 0);
      AnswerEvents(t, msgs, outcome, overflow)
    }

    /** Whether an iteration that asks the provider goes on. A reminder that was waiting went with the request. */
    ghost predicate AsksOn(t: Turn)
      requires ValidTurn(cfg, t)
      reads `overflowRetryUsed, `afterTools, `postToolNudgeUsed, `pendingTasksNudged, `todoGateUsed, `stopHookBlocks
    {
      var (outcome, overflow, _) := Outcome(t.attempts, MaxAttempts(cfg), 0);
      Continues(t, outcome, overflow, false)
    }

    /** The context it leaves in `now`, from the context it sends. */
    ghost predicate AskedInto(t: Turn, was: seq<Message>, now: seq<Message>)
      requires ValidTurn(cfg, t)
      reads `overflowRetryUsed, `toolRound, `afterTools, `postToolNudgeUsed, `pendingTasksNudged, `todoGateUsed,
            `stopHookBlocks, failures
    {
      var (outcome, overflow, _) := Outcome(t.attempts, MaxAttempts(cfg), 0);
      match outcome
      case None => now == if Continues(t, outcome, overflow, false)
                          then AfterCompaction(cfg, was, true, t.overflowCompaction) else was
      case Some(reply) =>
        if reply.toolCallFinish && reply.batch.calls != [] then
          if reply.toolError then now == was else RoundWritten(was, failures.entries, toolRound + 1, reply, now)
        else if NudgeDue(reply, false) then now == was
        else now == was + StopText(reply) + t.polledAtStop + if t.polledAtStop != [] then [] else StopMessages(t)
    }

    /** The provider is asked, and what follows its answer. */
    method AskAndConclude(t: Turn) returns (go: bool)
      requires Valid() && Ready() && ValidTurn(cfg, t) && !stopped && TurnIds(t) !! seen
      modifies this, ac, ac.slim, failures
      ensures Valid() && Tracked() && !stopped && seen <= old(seen) + TurnIds(t)
      ensures Slack() >= old(Slack()) + One(go)
      ensures old(requests) <= requests && |requests| <= |old(requests)| + MaxAttempts(cfg)
      ensures Adds(old(events), events, old(AskEvents(t, ac.messages)))
      ensures laps == old(laps) && (go <==> old(AsksOn(t)))
      ensures var now := ac.messages; old(AskedInto(t, ac.messages, now))
      ensures forall k | |old(requests)| <= k < |requests| ::
                && requests[k].at == |old(events)|
                && requests[k].messages == old(ac.messages) +
                     if old(postToolNudgePending) && k == |old(requests)| then [UserMessage(NUDGE)] else []
    {
      hide Valid, Sound, Ledgered, Ready, Tracked, Outcome, Adds, AnswerEvents, AfterCompaction, RoundWritten;
      var outcome, overflow, calls := StreamWithRetry(t.attempts);
      if outcome.Some? { AttemptReply(t, calls - 1); }
      go := Conclude(t, outcome, overflow);
    }

    /** Whether an iteration ends in a continue, and the context it leaves. */
    ghost predicate GoesOn(t: Turn)
      requires ValidTurn(cfg, t)
      reads this, ac, ac.slim, failures
    {
      !stopped && !t.stopRequested && (Prepared(t).1 || AsksOn(t))
    }

    ghost predicate LeadsTo(t: Turn, now: seq<Message>)
      requires ValidTurn(cfg, t)
      reads this, ac, ac.slim, failures
    {
      if stopped || t.stopRequested then now == ac.messages
      else if Prepared(t).1 then now == Prepared(t).0
      else AskedInto(t, Prepared(t).0, now)
    }

    /** What happens in an iteration, from the state before it. */
    ghost function TurnEvents(t: Turn): seq<Event>
      requires ValidTurn(cfg, t)
      reads this, ac, ac.slim, failures
    {
      if stopped || t.stopRequested then []
      else if Prepared(t).1 then PreparedEvents(t)
      else PreparedEvents(t) + AskEvents(t, Prepared(t).0)
    }

    /** The work of one iteration. */
    method Work(t: Turn) returns (go: bool)
      requires Valid() && BetweenTurns() && ValidTurn(cfg, t) && TurnIds(t) !! seen
      modifies this, ac, ac.slim, failures
      ensures Valid() && BetweenTurns() && seen <= old(seen) + TurnIds(t)
      ensures Slack() >= old(Slack()) + One(go)
      ensures old(requests) <= requests && |requests| <= |old(requests)| + MaxAttempts(cfg)
      ensures Adds(old(events), events, old(TurnEvents(t)))
      ensures (go <==> old(GoesOn(t))) && (var now := ac.messages; old(LeadsTo(t, now)))
      ensures laps == old(laps)
      ensures old(stopped) || t.stopRequested || old(Prepared(t)).1 ==> requests == old(requests)
      ensures forall k | |old(requests)| <= k < |requests| ::
                && requests[k].at == |old(events)| + |old(PreparedEvents(t))|
                && requests[k].messages == old(Prepared(t)).0 +
                     if old(postToolNudgePending) && k == |old(requests)| then [UserMessage(NUDGE)] else []
    {
      hide Valid, Sound, Ledgered, Ready, Tracked, Prepared, PreparedEvents, AskEvents, AsksOn, AskedInto;
      if stopped || t.stopRequested {
        return false;
      }
      var halt := Prepare(t);
      if halt {
        go := true;
      } else {
        go := AskAndConclude(t);
      }
    }

    /** One iteration of the loop; `go` is whether it ends in a continue. */
    method Iterate(t: Turn) returns (go: bool)
      requires Valid() && BetweenTurns() && ValidTurn(cfg, t) && TurnIds(t) !! seen
      modifies this, ac, ac.slim, failures
      ensures Valid() && BetweenTurns() && seen <= old(seen) + TurnIds(t)
      ensures Slack() >= old(Slack()) + One(go)
      ensures old(requests) <= requests && |requests| <= |old(requests)| + MaxAttempts(cfg)
      ensures Adds(old(events), events, old(TurnEvents(t)))
      ensures (go <==> old(GoesOn(t))) && (var now := ac.messages; old(LeadsTo(t, now)))
      ensures laps == old(laps) + [Lap(t, old(ac.messages), ac.messages, go)]
      ensures old(stopped) || t.stopRequested || old(Prepared(t)).1 ==> requests == old(requests)
      ensures forall k | |old(requests)| <= k < |requests| ::
                && requests[k].at == |old(events)| + |old(PreparedEvents(t))|
                && requests[k].messages == old(Prepared(t)).0 +
                     if old(postToolNudgePending) && k == |old(requests)| then [UserMessage(NUDGE)] else []
    {
      hide Valid, BetweenTurns, ValidTurn, Adds, TurnEvents, GoesOn, LeadsTo, Prepared, PreparedEvents, TurnIds;
      ghost var before := ac.messages;
      go := Work(t);
      laps := laps + [Lap(t, before, ac.messages, go)];
    }

    /** One turn of the run. */
    method Lead(turns: seq<Turn>, used: nat, ghost start: seq<Message>) returns (go: bool)
      requires Valid() && BetweenTurns() && used < |turns|
      requires ValidTurn(cfg, turns[used]) && FreshIds(turns[used..], seen)
      requires FromTurns(cfg, events, turns[..used])
      requires |laps| == used && LapsFollow(start, laps, turns, ac.messages) && (used > 0 ==> laps[used - 1].go)
      modifies this, ac, ac.slim, failures
      ensures Valid() && BetweenTurns() && FreshIds(turns[used + 1..], seen)
      ensures Slack() >= old(Slack()) + One(go) && |requests| <= |old(requests)| + MaxAttempts(cfg)
      ensures FromTurns(cfg, events, turns[..used + 1])
      ensures |laps| == used + 1 && LapsFollow(start, laps, turns, ac.messages) && laps[used].go == go
    {
      hide Valid, BetweenTurns, ValidTurn, Adds, FromTurn, FromTurns, TurnEvents, GoesOn, LeadsTo, Prepared,
           PreparedEvents, LapsFollow, Slack, TurnIds;
      var t := turns[used];
      assert turns[used..][0] == t && turns[used..][1..] == turns[used + 1..];
      ghost var before, was, context, done := seen, events, ac.messages, laps;
      ghost var happens := TurnEvents(t);
      TurnEventsFromTurn(t);
      go := Iterate(t);
      LapFollows(start, done, turns, context, ac.messages, go);
      MoreFromTurns(cfg, was, events, happens, turns[..used], t);
      assert turns[..used + 1] == turns[..used] + [t];
      FreshShrinks(turns[used + 1..], before + TurnIds(t), seen);
    }

    /** The loop of the run. */
    method Loop(turns: seq<Turn>) returns (used: nat)
      requires Valid() && BetweenTurns() && Slack() == 0 && requests == [] && events == [] && laps == []
      requires (forall t | t in turns :: ValidTurn(cfg, t)) && FreshIds(turns, seen)
      modifies this, ac, ac.slim, failures
      ensures Valid() && BetweenTurns()
      ensures used <= |turns| && used <= Slack() + 1 && (cfg.maxIterations > 0 ==> used <= cfg.maxIterations)
      ensures |requests| <= used * MaxAttempts(cfg)
      ensures FromTurns(cfg, events, turns[..used])
      ensures |laps| == used && LapsFollow(old(ac.messages), laps, turns, ac.messages)
      ensures used < |turns| && !(cfg.maxIterations > 0 && used == cfg.maxIterations) ==>
                used > 0 && !laps[used - 1].go
    {
      hide Valid, BetweenTurns, ValidTurn, FromTurn, LapsFollow, Slack;
      NoLaps(ac.messages, turns);
      used := 0;
      var go := true;
      while used < |turns| && go && (cfg.maxIterations <= 0 || used < cfg.maxIterations)
        invariant used <= |turns| && Valid() && BetweenTurns()
        invariant FreshIds(turns[used..], seen)
        invariant used <= Slack() + One(!go)
        invariant |requests| <= used * MaxAttempts(cfg)
        invariant FromTurns(cfg, events, turns[..used])
        invariant cfg.maxIterations > 0 ==> used <= cfg.maxIterations
        invariant |laps| == used && LapsFollow(old(ac.messages), laps, turns, ac.messages)
        invariant go <==> used == 0 || laps[used - 1].go
      {
        assert turns[used] in turns;
        go := Lead(turns, used, old(ac.messages));
        assert (used + 1) * MaxAttempts(cfg) == used * MaxAttempts(cfg) + MaxAttempts(cfg);
        used := used + 1;
      }
    }

    /** The whole run, over whatever the outside does in its first |turns| iterations. */
    method RunStream(turns: seq<Turn>) returns (used: nat)
      requires Valid() && BetweenTurns() && Slack() == 0 && requests == [] && events == [] && laps == []
      requires (forall t | t in turns :: ValidTurn(cfg, t)) && FreshIds(turns, seen)
      modifies this, ac, ac.slim, failures
      ensures Valid() && BetweenTurns()
      ensures used <= |turns| && used <= toolRound + inputBatches + 14
      ensures |requests| <= used * MaxAttempts(cfg)
      ensures PairedUntilBreak(requests, events) && LostAtFirstBreak(events)
      ensures FromTurns(cfg, events, turns[..used])
      ensures Unbroken(events) ==> forall q | q in requests :: WellPaired(q.messages)
      ensures (forall t | t in turns :: Quiet(cfg, t)) ==> Unbroken(events)
      ensures |trace| == toolRound && failures.entries == FailureLedger.EntriesAfter(trace) && OnTrace(events, trace)
      ensures FailureLedger.RespectsGuard(trace) && FailureLedger.NoBlockRepeats(trace)
      ensures cfg.maxIterations > 0 ==> used <= cfg.maxIterations
      // One iteration a turn, each from the context the last one left and as long as it asks for another.
      ensures |laps| == used && LapsFollow(old(ac.messages), laps, turns, ac.messages)
      ensures used < |turns| && !(cfg.maxIterations > 0 && used == cfg.maxIterations) ==>
                used > 0 && !laps[used - 1].go
    {
      hide AllWellFormed, Unbroken, SlimOk, WellPaired, OnTrace, FailureLedger.RespectsGuard,
           FailureLedger.NoBlockRepeats, FromTurn, PairedUntilBreak, LostAtFirstBreak, LapsFollow;
      used := Loop(turns);
      FailureLedger.GuardedRunsNeverRepeatBlocks(trace);
      QuietIsUnbroken(cfg, events, turns[..used]);
      AllPaired(events, requests);
    }

    lemma {:induction false} TurnEventsFromTurn(t: Turn)
      requires ValidTurn(cfg, t)
      ensures forall e | e in TurnEvents(t) :: FromTurn(cfg, e, t)
    {
      hide Polished, Outcome, Prepared, AfterCompaction, ValidReply, Inputs, Compressor.PartsOf, Compressor.InjectedAll;
      var (outcome, overflow, calls) := Outcome(t.attempts, MaxAttempts(cfg), 0);
      OutcomeIsAttempt(t.attempts, MaxAttempts(cfg), 0);
    }
  }
}
