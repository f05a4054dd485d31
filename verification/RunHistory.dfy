/** What the run loop is given and what happens in it: the configuration, the turns of the outside,
    the events that could break the pairing, and what a history of them says. */
module RunHistory {
  import opened Messages
  import opened Context
  import opened Slim
  import FailureLedger
  import opened ToolRound
  import Compressor
  import CompactedContext
  import InjectionTheorems
  import opened LoopLemmas

  const MAX_STOP_HOOK_BLOCKS := 8

  datatype Config = Config(maxIterations: int, maxRetries: int, mergeProtectRounds: int,
                           compact: Option<Compressor.CompactConfig>, handoffAsUser: bool,
                           postToolNudge: bool, pendingTasksNudge: bool, hasPoll: bool, hasStopHook: bool)

  /** What a compaction attempt meets: `skip` when it is not due or still backing off, the injected
      texts, the summarizer's answer, and the texts appended behind the result. */
  datatype Compaction = Compaction(skip: bool, injects: seq<Text>, summary: Option<Text>,
                                   handoff: Text, todoReminder: Option<Text>)

  /** A completed reply, with what the tool engine will make of its calls. */
  datatype Reply = Reply(content: Text, reasoning: Text, signature: Text, toolCallFinish: bool, truncated: bool,
                         batch: Batch, views: seq<Result>, toolError: bool)

  datatype Attempt = Completed(reply: Reply)
                   | Failed(overflow: bool, retry: bool, canceledWaiting: bool)
                   | Aborted

  datatype Turn = Turn(stopRequested: bool, polled: seq<Message>, effect: Message -> Effect, compaction: Compaction,
                       attempts: seq<Attempt>, overflowCompaction: Compaction,
                       polledAtStop: seq<Message>, aborted: bool, tasks: Option<Text>, todos: Option<Text>,
                       hook: Option<Text>)

  ghost predicate ValidReply(r: Reply) {
    && ValidBatch(r.batch) && DistinctCalls(r.batch.calls) && ViewsOf(r.batch.calls, r.views)
    && (forall v | v in r.views :: forall b | b in v.images :: b.kind == ImageBlock)
  }

  function MaxAttempts(cfg: Config): nat { if cfg.maxRetries <= 0 then 1 else cfg.maxRetries }

  ghost predicate ValidTurn(cfg: Config, t: Turn) {
    && Inputs(t.polled) && Inputs(t.polledAtStop)
    && (!cfg.hasPoll ==> t.polled == [] && t.polledAtStop == [])
    && |t.attempts| >= MaxAttempts(cfg)
    && forall a | a in t.attempts && a.Completed? :: ValidReply(a.reply)
  }

  /** The call ids the provider makes up in a turn. */
  ghost function TurnIds(t: Turn): set<string> {
    set a, c | a in t.attempts && a.Completed? && c in a.reply.batch.calls :: c.id
  }

  /** The provider never reuses a call id. */
  ghost predicate FreshIds(turns: seq<Turn>, seen: set<string>)
    decreases turns
  {
    turns == [] || (TurnIds(turns[0]) !! seen && FreshIds(turns[1..], seen + TurnIds(turns[0])))
  }

  /** The steps of a run that could break the pairing, each with the context before and behind it. */
  datatype Event = RoundRun(before: seq<Message>, entries: map<FailureLedger.Key, FailureLedger.Failure>, round: nat,
                            batch: Batch,
                            after: seq<Message>)
                 | Compacted(before: seq<Message>, injects: seq<Text>, compact: Compressor.CompactConfig,
                             after: seq<Message>)

  /** Those that do: the guard and the mode or hooks refuse calls of one batch, or compaction keeps a
      window that injected text has split from its assistant. */
  ghost predicate Breaks(e: Event) {
    match e
    case RoundRun(_, entries, round, batch, _) =>
      ValidBatch(batch) && SomeFate(entries, round, batch, Guarded) && SomeFate(entries, round, batch, Refused)
    case Compacted(before, injects, compact, _) => InjectionTheorems.Splits(before, injects, compact)
  }

  ghost predicate Unbroken(events: seq<Event>) {
    forall i | 0 <= i < |events| :: !Breaks(events[i])
  }

  /** Up to the first step that breaks it the pairing holds, and that step loses it. */
  ghost predicate LostAtFirstBreak(events: seq<Event>) {
    forall i | 0 <= i < |events| && Unbroken(events[..i]) ::
      WellPaired(events[i].before) && (WellPaired(events[i].after) <==> !Breaks(events[i]))
  }

  /** A provider request, and how many events there had been. */
  datatype Request = Request(messages: seq<Message>, at: nat)

  ghost predicate PairedUntilBreak(requests: seq<Request>, events: seq<Event>) {
    forall k | 0 <= k < |requests| ::
      requests[k].at <= |events| && (Unbroken(events[..requests[k].at]) ==> WellPaired(requests[k].messages))
  }

  /** An iteration, with the context before and behind it and whether it asks for another one. */
  datatype Lap = Lap(turn: Turn, before: seq<Message>, after: seq<Message>, go: bool)

  /** The context in front of the i-th lap. */
  function ContextAt(start: seq<Message>, laps: seq<Lap>, i: nat): seq<Message>
    requires i <= |laps|
  {
    if i == 0 then start else laps[i - 1].after
  }

  /** The laps are the first turns in order; each starts from the context the one before it left and, but
      for the last, asks for another one. */
  ghost predicate LapsFollow(start: seq<Message>, laps: seq<Lap>, turns: seq<Turn>, end: seq<Message>) {
    && |laps| <= |turns| && (forall i | 0 <= i < |laps| :: laps[i].turn == turns[i])
    && (forall i | 0 <= i < |laps| :: laps[i].before == ContextAt(start, laps, i))
    && (forall i | 0 <= i < |laps| - 1 :: laps[i].go)
    && end == ContextAt(start, laps, |laps|)
  }

  lemma {:induction false} NoLaps(start: seq<Message>, turns: seq<Turn>)
    ensures LapsFollow(start, [], turns, start)
  {
  }

  lemma {:induction false} LapFollows(start: seq<Message>, laps: seq<Lap>, turns: seq<Turn>, context: seq<Message>,
                                      after: seq<Message>, go: bool)
    requires LapsFollow(start, laps, turns, context) && |laps| < |turns|
    requires laps != [] ==> laps[|laps| - 1].go
    ensures LapsFollow(start, laps + [Lap(turns[|laps|], context, after, go)], turns, after)
  {
    hide ContextAt;
    var last := Lap(turns[|laps|], context, after, go);
    var now := laps + [last];
    assert forall i | 0 <= i < |laps| :: now[i] == laps[i];
    forall i | 0 <= i < |now| ensures now[i].before == ContextAt(start, now, i) {
      ContextKept(start, laps, last, i);
    }
    LastContext(start, laps, last);
  }

  lemma {:induction false} ContextKept(start: seq<Message>, laps: seq<Lap>, last: Lap, i: nat)
    requires i <= |laps|
    ensures ContextAt(start, laps + [last], i) == ContextAt(start, laps, i)
  {
  }

  lemma {:induction false} LastContext(start: seq<Message>, laps: seq<Lap>, last: Lap)
    ensures ContextAt(start, laps + [last], |laps| + 1) == last.after
  {
  }

  ghost predicate History(events: seq<Event>, requests: seq<Request>) {
    LostAtFirstBreak(events) && PairedUntilBreak(requests, events)
  }

  lemma {:induction false} HistoryGrows(events: seq<Event>, requests: seq<Request>, e: Event)
    requires History(events, requests)
    requires Unbroken(events) ==> WellPaired(e.before) && (WellPaired(e.after) <==> !Breaks(e))
    ensures History(events + [e], requests)
    ensures Unbroken(events + [e]) <==> Unbroken(events) && !Breaks(e)
  {
    hide Breaks, WellPaired;
    var now := events + [e];
    assert now[|events|] == e && forall i | 0 <= i < |events| :: now[i] == events[i];
    assert now[..|events|] == events;
    forall i | 0 <= i < |now| && Unbroken(now[..i])
      ensures WellPaired(now[i].before) && (WellPaired(now[i].after) <==> !Breaks(now[i]))
    {
      if i < |events| { assert now[..i] == events[..i]; }
    }
    forall k | 0 <= k < |requests| && Unbroken(now[..requests[k].at]) ensures WellPaired(requests[k].messages) {
      assert now[..requests[k].at] == events[..requests[k].at];
    }
  }

  lemma {:induction false} HistorySends(events: seq<Event>, requests: seq<Request>, msgs: seq<Message>)
    requires History(events, requests) && (Unbroken(events) ==> WellPaired(msgs))
    ensures History(events, requests + [Request(msgs, |events|)])
  {
    assert events[..|events|] == events;
  }

  /** The rounds among the events are those of the trace the failure ledger stands for. */
  ghost predicate OnTrace(events: seq<Event>, trace: seq<FailureLedger.Round>) {
    forall i | 0 <= i < |events| && events[i].RoundRun? ::
      var e := events[i];
      && 1 <= e.round <= |trace| && ValidBatch(e.batch)
      && e.entries == FailureLedger.EntriesAfter(trace[..e.round - 1])
      && trace[e.round - 1] == RoundOf(trace[..e.round - 1], e.batch)
  }

  lemma {:induction false} TraceGrows(events: seq<Event>, trace: seq<FailureLedger.Round>, r: FailureLedger.Round)
    requires OnTrace(events, trace)
    ensures OnTrace(events, trace + [r])
  {
    hide RoundOf;
    var now := trace + [r];
    forall i | 0 <= i < |events| && events[i].RoundRun?
      ensures var e := events[i];
              && 1 <= e.round <= |now| && ValidBatch(e.batch)
              && e.entries == FailureLedger.EntriesAfter(now[..e.round - 1])
              && now[e.round - 1] == RoundOf(now[..e.round - 1], e.batch)
    {
      var n := events[i].round - 1;
      assert now[..n] == trace[..n] && now[n] == trace[n];
    }
  }

  predicate Refuses(b: Batch) {
    exists g | g in b.gates :: g.DeniedByMode? || g.BlockedByHook?
  }

  /** A compaction that cannot split: no recent window, or no injected text. */
  predicate CannotSplit(cfg: Config, c: Compaction) {
    cfg.compact.Some? && cfg.compact.value.keepRecent > 0 ==> c.injects == []
  }

  /** Nothing in the turn can break the pairing. */
  ghost predicate Quiet(cfg: Config, t: Turn) {
    && CannotSplit(cfg, t.compaction) && CannotSplit(cfg, t.overflowCompaction)
    && forall a | a in t.attempts && a.Completed? :: !Refuses(a.reply.batch)
  }

  /** The event comes from what the outside decided in the turn. */
  ghost predicate FromTurn(cfg: Config, e: Event, t: Turn) {
    match e
    case RoundRun(_, _, _, batch, _) => exists a | a in t.attempts :: a.Completed? && a.reply.batch == batch
    case Compacted(_, injects, compact, _) =>
      cfg.compact == Some(compact) && (injects == t.compaction.injects || injects == t.overflowCompaction.injects)
  }

  ghost predicate FromTurns(cfg: Config, events: seq<Event>, turns: seq<Turn>) {
    forall i | 0 <= i < |events| :: FromOneOf(cfg, events[i], turns)
  }

  ghost predicate FromOneOf(cfg: Config, e: Event, turns: seq<Turn>) {
    exists t | t in turns :: FromTurn(cfg, e, t)
  }

  function Handoff(cfg: Config, c: Compaction): seq<Message> {
    [if cfg.handoffAsUser then UserMessage(c.handoff) else SystemMessage(c.handoff)] +
    if c.todoReminder.Some? then [SystemMessage(c.todoReminder.value)] else []
  }

  /** The context behind maybeCompact. */
  function AfterCompaction(cfg: Config, msgs: seq<Message>, forced: bool, c: Compaction): seq<Message> {
    if cfg.compact.None? || (c.skip && !forced) || c.summary.None? then msgs
    else match Compressor.PartsOf(Compressor.InjectedAll(msgs, c.injects), cfg.compact.value)
         case None => msgs
         case Some(parts) => Compressor.Assembled(parts, c.summary.value) + Handoff(cfg, c)
  }

  /** Whether a compaction takes place. */
  function CompactionEvents(cfg: Config, msgs: seq<Message>, forced: bool, c: Compaction): seq<Event> {
    if cfg.compact.None? || (c.skip && !forced) || c.summary.None? ||
       Compressor.PartsOf(Compressor.InjectedAll(msgs, c.injects), cfg.compact.value).None? then []
    else [Compacted(msgs, c.injects, cfg.compact.value, AfterCompaction(cfg, msgs, forced, c))]
  }

  /** A compaction takes place when it is configured and either forced or neither undue nor backing off,
      the summarizer answers, and there is something to compress. */
  ghost predicate CompactsNow(cfg: Config, msgs: seq<Message>, forced: bool, c: Compaction) {
    && cfg.compact.Some? && (forced || !c.skip) && c.summary.Some?
    && CompactedContext.Compressible(Compressor.InjectedAll(msgs, c.injects), cfg.compact.value)
  }

  /** Then the compacted context follows, the handoff and what is left to do; otherwise nothing changes. */
  lemma {:induction false} AfterCompactionMeans(cfg: Config, msgs: seq<Message>, forced: bool, c: Compaction)
    ensures !CompactsNow(cfg, msgs, forced, c) ==>
              AfterCompaction(cfg, msgs, forced, c) == msgs && CompactionEvents(cfg, msgs, forced, c) == []
    ensures CompactsNow(cfg, msgs, forced, c) ==>
              exists out ::
                && CompactedContext.IsCompacted(Compressor.InjectedAll(msgs, c.injects), cfg.compact.value,
                                                c.summary.value, out)
                && AfterCompaction(cfg, msgs, forced, c) == out +
                     [if cfg.handoffAsUser then UserMessage(c.handoff) else SystemMessage(c.handoff)] +
                     (if c.todoReminder.Some? then [SystemMessage(c.todoReminder.value)] else [])
                && CompactionEvents(cfg, msgs, forced, c) ==
                   [Compacted(msgs, c.injects, cfg.compact.value, AfterCompaction(cfg, msgs, forced, c))]
  {
    hide CompactedContext.Compressible, CompactedContext.IsCompacted, Compressor.PartsOf, Compressor.Assembled,
         Compressor.InjectedAll;
    if cfg.compact.Some? && c.summary.Some? {
      var all := Compressor.InjectedAll(msgs, c.injects);
      CompactedContext.CompressibleIff(all, cfg.compact.value);
      if Compressor.PartsOf(all, cfg.compact.value).Some? {
        var out := Compressor.Assembled(Compressor.PartsOf(all, cfg.compact.value).value, c.summary.value);
        CompactedContext.AssembledIsCompacted(all, cfg.compact.value, c.summary.value);
        assert out + Handoff(cfg, c) ==
               out + [if cfg.handoffAsUser then UserMessage(c.handoff) else SystemMessage(c.handoff)] +
               (if c.todoReminder.Some? then [SystemMessage(c.todoReminder.value)] else []);
      }
    }
  }

  /** What the attempts from i on come to: the reply, or whether the context was too long; and how
      many of them reach the provider. */
  function Outcome(attempts: seq<Attempt>, max: nat, i: nat): (Option<Reply>, bool, nat)
    requires max <= |attempts| && i < max
    decreases max - i
  {
    match attempts[i]
    case Aborted => (None, false, 0)
    case Completed(reply) => (Some(reply), false, 1)
    case Failed(tooLong, retry, canceledWaiting) =>
      if i + 1 == max || !retry then (None, tooLong, 1)
      else if canceledWaiting then (None, false, 1)
      else var rest := Outcome(attempts, max, i + 1); (rest.0, rest.1, rest.2 + 1)
  }

  /** The attempts before k are failures to try again after. */
  predicate TriedAgain(attempts: seq<Attempt>, k: nat)
    requires k <= |attempts|
  {
    forall j | 0 <= j < k :: attempts[j].Failed? && attempts[j].retry && !attempts[j].canceledWaiting
  }

  /** What the attempts come to, attempt by attempt: all but the last made are failures to try again
      after; a reply they precede is delivered; giving up before the last allowed has a reason; and the
      context was too long exactly if the last one made says so and no retry was due. */
  lemma {:induction false} OutcomeMeans(attempts: seq<Attempt>, max: nat)
    requires 0 < max <= |attempts|
    ensures var (outcome, overflow, calls) := Outcome(attempts, max, 0);
            && calls <= max && (calls > 0 ==> TriedAgain(attempts, calls - 1))
            && (outcome.Some? ==> calls > 0 && attempts[calls - 1] == Completed(outcome.value))
            && (forall k | 0 <= k < calls :: !attempts[k].Aborted?)
            && (outcome.None? && calls < max ==>
                  || attempts[calls].Aborted?
                  || (calls > 0 && attempts[calls - 1].Failed? &&
                      (!attempts[calls - 1].retry || attempts[calls - 1].canceledWaiting)))
            && (forall k | 0 <= k < max && attempts[k].Completed? && TriedAgain(attempts, k) ::
                  outcome == Some(attempts[k].reply) && calls == k + 1)
            && (overflow <==> outcome.None? && calls > 0 && attempts[calls - 1].Failed? &&
                              attempts[calls - 1].overflow && (calls == max || !attempts[calls - 1].retry))
  {
    OutcomeFrom(attempts, max, 0);
  }

  lemma {:induction false} OutcomeFrom(attempts: seq<Attempt>, max: nat, i: nat)
    requires max <= |attempts| && i < max && TriedAgain(attempts, i)
    ensures var (outcome, overflow, more) := Outcome(attempts, max, i);
            var calls := i + more;
            && calls <= max && (more > 0 ==> TriedAgain(attempts, calls - 1))
            && (outcome.Some? ==> more > 0 && attempts[calls - 1] == Completed(outcome.value))
            && (forall k | 0 <= k < calls :: !attempts[k].Aborted?)
            && (outcome.None? && calls < max ==>
                  || attempts[calls].Aborted?
                  || (calls > 0 && attempts[calls - 1].Failed? &&
                      (!attempts[calls - 1].retry || attempts[calls - 1].canceledWaiting)))
            && (forall k | i <= k < max && attempts[k].Completed? && TriedAgain(attempts, k) ::
                  outcome == Some(attempts[k].reply) && calls == k + 1)
            && (overflow <==> outcome.None? && calls > 0 && attempts[calls - 1].Failed? &&
                              attempts[calls - 1].overflow && (calls == max || !attempts[calls - 1].retry))
    decreases max - i
  {
    var a := attempts[i];
    if a.Failed? && i + 1 < max && a.retry && !a.canceledWaiting { OutcomeFrom(attempts, max, i + 1); }
  }

  function ReplyMessage(r: Reply): Message { AssistantMessage(r.content, r.reasoning, r.signature, r.batch.calls) }

  const NUDGE: Text := [Lit("Continue the task based on the tool results above.")]

  function TodoMessage(todos: Text): Message { SystemMessage([Lit("Unfinished todos:\n")] + todos) }
  function TasksMessage(tasks: Text): Message { SystemMessage([Lit("Background tasks still running:\n")] + tasks) }
  function HookMessage(reason: Text): Message {
    SystemMessage([Lit("A Stop hook asked this turn to keep going:\n")] + reason)
  }

  lemma {:induction false} OutcomeIsAttempt(attempts: seq<Attempt>, max: nat, i: nat)
    requires max <= |attempts| && i < max
    ensures var o := Outcome(attempts, max, i).0; o.Some? ==> Completed(o.value) in attempts
    decreases max - i
  {
    if attempts[i].Failed? && i + 1 < max { OutcomeIsAttempt(attempts, max, i + 1); }
  }

  /** A round whose outcome is left open. */
  ghost function Opened(e: Event): Event {
    match e
    case RoundRun(before, entries, round, batch, _) => RoundRun(before, entries, round, batch, [])
    case Compacted(_, _, _, _) => e
  }

  /** `now` is `was` and `more`, whatever context the rounds among `more` led to. */
  ghost predicate Adds(was: seq<Event>, now: seq<Event>, more: seq<Event>) {
    && |now| == |was| + |more| && now[..|was|] == was
    && forall i | |was| <= i < |now| :: now[i] == more[i - |was|] || Opened(now[i]) == more[i - |was|]
  }

  lemma {:induction false} MoreFromTurns(cfg: Config, was: seq<Event>, now: seq<Event>, more: seq<Event>,
                                         turns: seq<Turn>, t: Turn)
    requires FromTurns(cfg, was, turns) && Adds(was, now, more) && forall e | e in more :: FromTurn(cfg, e, t)
    ensures FromTurns(cfg, now, turns + [t])
  {
    hide FromTurn;
    forall i | 0 <= i < |now| ensures FromOneOf(cfg, now[i], turns + [t]) {
      if i < |was| {
        assert now[i] == was[i];
        var t' :| t' in turns && FromTurn(cfg, was[i], t');
        assert t' in turns + [t];
      } else {
        assert more[i - |was|] in more;
        if Opened(now[i]) == more[i - |was|] { OpenedFromTurn(cfg, now[i], t); }
        assert t in turns + [t] && FromTurn(cfg, now[i], t);
      }
    }
  }

  lemma {:induction false} OpenedFromTurn(cfg: Config, e: Event, t: Turn)
    requires FromTurn(cfg, Opened(e), t)
    ensures FromTurn(cfg, e, t)
  {
    match e {
      case RoundRun(_, _, _, batch, _) =>
        var a :| a in t.attempts && a.Completed? && a.reply.batch == Opened(e).batch;
        assert a.reply.batch == batch;
        assert FromTurn(cfg, e, t);
      case Compacted(_, _, _, _) =>
        assert Opened(e) == e;
    }
  }

  lemma {:induction false} QuietIsUnbroken(cfg: Config, events: seq<Event>, turns: seq<Turn>)
    requires FromTurns(cfg, events, turns)
    ensures (forall t | t in turns :: Quiet(cfg, t)) ==> Unbroken(events)
  {
    if forall t | t in turns :: Quiet(cfg, t) {
      forall i | 0 <= i < |events| ensures !Breaks(events[i]) {
        assert FromOneOf(cfg, events[i], turns);
        var t :| t in turns && FromTurn(cfg, events[i], t);
        assert Quiet(cfg, t);
        var e := events[i];
        if e.RoundRun? && ValidBatch(e.batch) && SomeFate(e.entries, e.round, e.batch, Refused) {
          RefusedRefuses(e.entries, e.round, e.batch);
        }
      }
    }
  }

  lemma {:induction false} AllPaired(events: seq<Event>, requests: seq<Request>)
    requires History(events, requests)
    ensures Unbroken(events) ==> forall q | q in requests :: WellPaired(q.messages)
  {
    if Unbroken(events) {
      forall q | q in requests ensures WellPaired(q.messages) {
        var k :| 0 <= k < |requests| && requests[k] == q;
        assert Unbroken(events[..q.at]);
      }
    }
  }

  lemma {:induction false} PairedIsWellPaired(msgs: seq<Message>, seen: set<string>)
    ensures Paired(msgs, seen) ==> WellPaired(msgs)
  {
  }

  lemma {:induction false} HandoffIsSilent(cfg: Config, c: Compaction)
    ensures Silent(Handoff(cfg, c))
  {
  }

  lemma {:induction false} OnTraceSkips(events: seq<Event>, e: Event, trace: seq<FailureLedger.Round>)
    requires OnTrace(events, trace) && e.Compacted?
    ensures OnTrace(events + [e], trace)
  {
    var now := events + [e];
    forall i | 0 <= i < |now| && now[i].RoundRun?
      ensures var x := now[i];
              && 1 <= x.round <= |trace| && ValidBatch(x.batch)
              && x.entries == FailureLedger.EntriesAfter(trace[..x.round - 1])
              && trace[x.round - 1] == RoundOf(trace[..x.round - 1], x.batch)
    {
      assert now[i] == events[i];
    }
  }

  lemma {:induction false} RoundOnTrace(events: seq<Event>, trace: seq<FailureLedger.Round>, e: Event)
    requires OnTrace(events, trace) && e.RoundRun? && e.round == |trace| + 1 && ValidBatch(e.batch)
    requires e.entries == FailureLedger.EntriesAfter(trace)
    ensures OnTrace(events + [e], trace + [RoundOf(trace, e.batch)])
  {
    hide RoundOf;
    var r := RoundOf(trace, e.batch);
    TraceGrows(events, trace, r);
    var now, grown := events + [e], trace + [r];
    assert grown[..|trace|] == trace && grown[|trace|] == r;
    forall i | 0 <= i < |now| && now[i].RoundRun?
      ensures var x := now[i];
              && 1 <= x.round <= |grown| && ValidBatch(x.batch)
              && x.entries == FailureLedger.EntriesAfter(grown[..x.round - 1])
              && grown[x.round - 1] == RoundOf(grown[..x.round - 1], x.batch)
    {
      if i < |events| { assert now[i] == events[i]; }
    }
  }

  lemma {:induction false} FreshShrinks(turns: seq<Turn>, more: set<string>, seen: set<string>)
    requires FreshIds(turns, more) && seen <= more
    ensures FreshIds(turns, seen)
    decreases turns
  {
    if turns != [] { FreshShrinks(turns[1..], more + TurnIds(turns[0]), seen + TurnIds(turns[0])); }
  }

  /** What the validity of a turn says about the reply that completed. */
  lemma {:induction false} AttemptReply(t: Turn, k: nat)
    requires k < |t.attempts| && t.attempts[k].Completed?
    ensures t.attempts[k] in t.attempts
    ensures (set c | c in t.attempts[k].reply.batch.calls :: c.id) <= TurnIds(t)
    ensures forall c | c in t.attempts[k].reply.batch.calls :: c.id in TurnIds(t)
  {
  }

  lemma {:induction false} RefusedRefuses(entries: map<FailureLedger.Key, FailureLedger.Failure>, round: nat, b: Batch)
    requires ValidBatch(b) && SomeFate(entries, round, b, Refused)
    ensures Refuses(b)
  {
    var i :| 0 <= i < |b.calls| && FateOf(entries, round, b.calls[i], b.gates[i]) == Refused;
    assert b.gates[i] in b.gates;
  }
}
