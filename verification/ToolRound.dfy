/** One tool round (agents/agent_loop.go runTools and the write-back in RunStream): which calls
    run, which are refused, and what enters the context. */
module ToolRound {
  import opened Messages
  import opened Context
  import opened Slim
  import opened FailureLedger

  /** What mode filter, hooks and tool registry say about a call. */
  datatype Gate = Unregistered | DeniedByMode | BlockedByHook(reason: Text) | Runs(parallel: bool)

  /** Guarded: the failure guard refuses it. Refused: mode or hook does. */
  datatype Fate = Guarded | Refused | InSequence | InParallel

  function FateOf(entries: map<FailureLedger.Key, Failure>, round: nat, c: Call, gate: Gate): Fate {
    if Blocks(entries, CallKey(c), round) then Guarded
    else match gate
         case Unregistered => InSequence
         case DeniedByMode => Refused
         case BlockedByHook(_) => Refused
         case Runs(parallel) => if parallel then InParallel else InSequence
  }

  function GuardResult(f: Failure, id: string): ToolResult {
    var next := if f.envelope.Some? && f.envelope.value.nextAction != "" then f.envelope.value.nextAction
      else "change the state before retrying";
    var fix := if f.envelope.Some? && f.envelope.value.recovery != "" then f.envelope.value.recovery
      else "this exact call failed in the previous tool round";
    ToolResult(id, true, [Lit("TOOL_ERROR\ncode: repeated_failed_call\nnext_action: " + next + "\ndetail: " + f.tool +
                              "\nfix: " + fix)],
               Some(Envelope("repeated_failed_call", false, next, fix)), None)
  }

  function RefusalResult(gate: Gate, id: string): ToolResult {
    var reason := match gate
      case BlockedByHook(r) => if r == [] then [Lit("blocked by PreToolUse hook")] else r
      case _ => [Lit("blocked: tool is not available in the current mode")];
    ToolResult(id, true, reason, None, None)
  }

  /** A batch as the loop sees it: the calls with their gates and, for those that run, the result
      the engine will return. */
  datatype Batch = Batch(calls: seq<Call>, gates: seq<Gate>, answers: seq<ToolResult>)

  ghost predicate ValidBatch(b: Batch) {
    && |b.gates| == |b.calls| && |b.answers| == |b.calls|
    && (forall i | 0 <= i < |b.calls| :: b.answers[i].id == b.calls[i].id)
  }

  /** The results of the calls of one fate, in call order. */
  function ResultsOf(entries: map<FailureLedger.Key, Failure>, round: nat, b: Batch, fate: Fate,
                     n: nat): (results: seq<ToolResult>)
    requires |b.gates| == |b.calls| && |b.answers| == |b.calls| && n <= |b.calls|
  {
    if n == 0 then []
    else
      var c, gate := b.calls[n - 1], b.gates[n - 1];
      ResultsOf(entries, round, b, fate, n - 1) +
      (if FateOf(entries, round, c, gate) != fate then []
       else if fate == Guarded then [GuardResult(entries[CallKey(c)], c.id)]
       else if fate == Refused then [RefusalResult(gate, c.id)]
       else [b.answers[n - 1]])
  }

  function Executed(entries: map<FailureLedger.Key, Failure>, round: nat, b: Batch): seq<ToolResult>
    requires |b.gates| == |b.calls| && |b.answers| == |b.calls|
  {
    ResultsOf(entries, round, b, InSequence, |b.calls|) + ResultsOf(entries, round, b, InParallel, |b.calls|)
  }

  /** What runTools returns. As soon as mode or hook refuse a call, their results replace those of
      the failure guard (agents/agent_loop.go:2510-2522). */
  function Returned(entries: map<FailureLedger.Key, Failure>, round: nat, b: Batch): Option<seq<ToolResult>>
    requires |b.gates| == |b.calls| && |b.answers| == |b.calls|
  {
    var guarded := ResultsOf(entries, round, b, Guarded, |b.calls|);
    var refused := ResultsOf(entries, round, b, Refused, |b.calls|);
    var blocked := if refused != [] then refused else guarded;
    var all := blocked + Executed(entries, round, b);
    if all == [] then None else Some(all)
  }

  /** Sorts the calls by fate. */
  method SortCalls(ledger: Ledger, round: nat, b: Batch)
    returns (guarded: seq<ToolResult>, refused: seq<ToolResult>, inSeq: seq<ToolResult>, inPar: seq<ToolResult>)
    requires ValidBatch(b)
    ensures guarded == ResultsOf(ledger.entries, round, b, Guarded, |b.calls|)
    ensures refused == ResultsOf(ledger.entries, round, b, Refused, |b.calls|)
    ensures inSeq == ResultsOf(ledger.entries, round, b, InSequence, |b.calls|)
    ensures inPar == ResultsOf(ledger.entries, round, b, InParallel, |b.calls|)
  {
    hide GuardResult, RefusalResult;
    guarded, refused, inSeq, inPar := [], [], [], [];
    for i := 0 to |b.calls|
      invariant guarded == ResultsOf(ledger.entries, round, b, Guarded, i)
      invariant refused == ResultsOf(ledger.entries, round, b, Refused, i)
      invariant inSeq == ResultsOf(ledger.entries, round, b, InSequence, i)
      invariant inPar == ResultsOf(ledger.entries, round, b, InParallel, i)
    {
      var c := b.calls[i];
      var prev := ledger.BlockedIn(CallKey(c), round);
      if prev.Some? {
        guarded := guarded + [GuardResult(prev.value, c.id)];
        continue;
      }
      match b.gates[i] {
        case Unregistered => inSeq := inSeq + [b.answers[i]];
        case DeniedByMode => refused := refused + [RefusalResult(b.gates[i], c.id)];
        case BlockedByHook(_) => refused := refused + [RefusalResult(b.gates[i], c.id)];
        case Runs(parallel) =>
          if parallel {
            inPar := inPar + [b.answers[i]];
          } else {
            inSeq := inSeq + [b.answers[i]];
          }
      }
    }
  }

  /** A round in which nothing ran leaves the ledger alone. */
  lemma {:induction false} NothingRan(entries: map<FailureLedger.Key, Failure>, calls: seq<Call>, round: nat)
    ensures AfterRound(entries, calls, [], round) == entries
    ensures RecordFailures(entries, calls, [], round) == entries
  {
    if calls != [] { NothingRan(entries, calls[..|calls| - 1], round); }
  }

  // ---- does every call get its result? -----------------------------------------------------

  ghost predicate DistinctCalls(calls: seq<Call>) {
    forall i, j | 0 <= i < j < |calls| :: calls[i].id != calls[j].id
  }

  predicate EveryCallAnswered(calls: seq<Call>, results: seq<ToolResult>) {
    forall c | c in calls :: ResultOf(results, c.id).Some?
  }

  ghost predicate SomeFate(entries: map<FailureLedger.Key, Failure>, round: nat, b: Batch, fate: Fate)
    requires ValidBatch(b)
  {
    exists i :: 0 <= i < |b.calls| && FateOf(entries, round, b.calls[i], b.gates[i]) == fate
  }

  predicate HasId(results: seq<ToolResult>, id: string) {
    exists r | r in results :: r.id == id
  }

  lemma {:induction false} ResultOfIff(results: seq<ToolResult>, id: string)
    ensures ResultOf(results, id).Some? <==> HasId(results, id)
  {
    if results != [] {
      var n := |results| - 1;
      ResultOfIff(results[..n], id);
      assert results == results[..n] + [results[n]];
    }
  }

  lemma {:induction false} ResultsOfIds(entries: map<FailureLedger.Key, Failure>, round: nat, b: Batch, fate: Fate,
                                        n: nat, id: string)
    requires ValidBatch(b) && n <= |b.calls|
    ensures HasId(ResultsOf(entries, round, b, fate, n), id) <==>
            exists i :: 0 <= i < n && b.calls[i].id == id && FateOf(entries, round, b.calls[i], b.gates[i]) == fate
  {
    if n > 0 {
      ResultsOfIds(entries, round, b, fate, n - 1, id);
      var before, now := ResultsOf(entries, round, b, fate, n - 1), ResultsOf(entries, round, b, fate, n);
      if FateOf(entries, round, b.calls[n - 1], b.gates[n - 1]) == fate {
        assert now == before + [now[|before|]] && now[|before|].id == b.calls[n - 1].id;
        assert forall r :: r in now <==> r in before || r == now[|before|];
      }
    }
  }

  lemma {:induction false} NonEmptyIffFate(entries: map<FailureLedger.Key, Failure>, round: nat, b: Batch, fate: Fate,
                                           n: nat)
    requires ValidBatch(b) && n <= |b.calls|
    ensures ResultsOf(entries, round, b, fate, n) != [] <==>
            exists i :: 0 <= i < n && FateOf(entries, round, b.calls[i], b.gates[i]) == fate
  {
    if n > 0 { NonEmptyIffFate(entries, round, b, fate, n - 1); }
  }

  lemma {:induction false} SomethingReturned(entries: map<FailureLedger.Key, Failure>, round: nat, b: Batch)
    requires ValidBatch(b) && b.calls != []
    ensures Returned(entries, round, b).Some?
  {
    hide FateOf, ResultsOf;
    var fate := FateOf(entries, round, b.calls[0], b.gates[0]);
    NonEmptyIffFate(entries, round, b, fate, |b.calls|);
  }

  /** Which calls have a result among those returned. */
  lemma {:induction false} AnsweredByFate(entries: map<FailureLedger.Key, Failure>, round: nat, b: Batch, i: nat)
    requires ValidBatch(b) && DistinctCalls(b.calls) && i < |b.calls|
    ensures var r := Returned(entries, round, b);
            var fate := FateOf(entries, round, b.calls[i], b.gates[i]);
            r.Some? && (ResultOf(r.value, b.calls[i].id).Some? <==>
                        fate != Guarded || ResultsOf(entries, round, b, Refused, |b.calls|) == [])
  {
    hide FateOf, ResultsOf, ResultOf;
    SomethingReturned(entries, round, b);
    var n, id := |b.calls|, b.calls[i].id;
    var all := Returned(entries, round, b).value;
    ResultOfIff(all, id);
    ResultsOfIds(entries, round, b, Guarded, n, id);
    ResultsOfIds(entries, round, b, Refused, n, id);
    ResultsOfIds(entries, round, b, InSequence, n, id);
    ResultsOfIds(entries, round, b, InParallel, n, id);
    var guarded, refused := ResultsOf(entries, round, b, Guarded, n), ResultsOf(entries, round, b, Refused, n);
    var inSeq, inPar := ResultsOf(entries, round, b, InSequence, n), ResultsOf(entries, round, b, InParallel, n);
    assert all == (if refused != [] then refused else guarded) + (inSeq + inPar);
    assert HasId(all, id) <==>
           (if refused != [] then HasId(refused, id) else HasId(guarded, id)) || HasId(inSeq, id) || HasId(inPar, id);
  }

  /** Every call of a batch gets its result if and only if the guard and the mode or hooks did not
      both refuse something in it. */
  lemma {:induction false} AnsweredIffNotMixed(entries: map<FailureLedger.Key, Failure>, round: nat, b: Batch)
    requires ValidBatch(b) && DistinctCalls(b.calls) && b.calls != []
    ensures var r := Returned(entries, round, b);
            r.Some? && (EveryCallAnswered(b.calls, r.value) <==>
                        !(SomeFate(entries, round, b, Guarded) && SomeFate(entries, round, b, Refused)))
  {
    hide FateOf, ResultsOf, ResultOf, Returned;
    SomethingReturned(entries, round, b);
    var results := Returned(entries, round, b).value;
    forall i | 0 <= i < |b.calls|
      ensures ResultOf(results, b.calls[i].id).Some? <==>
              FateOf(entries, round, b.calls[i], b.gates[i]) != Guarded ||
                ResultsOf(entries, round, b, Refused, |b.calls|) == []
    {
      AnsweredByFate(entries, round, b, i);
    }
    NonEmptyIffFate(entries, round, b, Refused, |b.calls|);
    if SomeFate(entries, round, b, Guarded) && SomeFate(entries, round, b, Refused) {
      var i :| 0 <= i < |b.calls| && FateOf(entries, round, b.calls[i], b.gates[i]) == Guarded;
      assert b.calls[i] in b.calls;
    }
  }

  // ---- what becomes of each call, by ledger and gate -------------------------------------------

  lemma {:induction false} ResultOfSplit(a: seq<ToolResult>, b: seq<ToolResult>, id: string)
    ensures ResultOf(a + b, id) == if ResultOf(b, id).Some? then ResultOf(b, id) else ResultOf(a, id)
    decreases |b|
  {
    if b == [] {
      assert a + b == a;
    } else {
      var n := |b| - 1;
      assert (a + b)[..|a + b| - 1] == a + b[..n];
      ResultOfSplit(a, b[..n], id);
    }
  }

  lemma {:induction false} ResultOfOne(r: ToolResult, id: string)
    ensures ResultOf([r], id) == if r.id == id then Some(r) else None
    ensures ResultOf([], id) == None
  {
    assert [r][..0] == [];
  }

  /** The result the call at i has among those of one fate. */
  ghost function FateResult(entries: map<FailureLedger.Key, Failure>, round: nat, b: Batch, fate: Fate,
                            i: nat): ToolResult
    requires ValidBatch(b) && i < |b.calls| && FateOf(entries, round, b.calls[i], b.gates[i]) == fate
  {
    match fate
    case Guarded => GuardResult(entries[CallKey(b.calls[i])], b.calls[i].id)
    case Refused => RefusalResult(b.gates[i], b.calls[i].id)
    case _ => b.answers[i]
  }

  lemma {:induction false} LastResultOf(entries: map<FailureLedger.Key, Failure>, round: nat, b: Batch, fate: Fate,
                                        n: nat)
    requires ValidBatch(b) && n < |b.calls|
    ensures ResultsOf(entries, round, b, fate, n + 1) == ResultsOf(entries, round, b, fate, n) +
              if FateOf(entries, round, b.calls[n], b.gates[n]) != fate then []
              else [FateResult(entries, round, b, fate, n)]
    ensures FateOf(entries, round, b.calls[n], b.gates[n]) == fate ==>
              FateResult(entries, round, b, fate, n).id == b.calls[n].id
  {
  }

  lemma {:induction false} ResultOfStep(entries: map<FailureLedger.Key, Failure>, round: nat, b: Batch, fate: Fate,
                                        n: nat, i: nat)
    requires ValidBatch(b) && DistinctCalls(b.calls) && n < |b.calls| && i < |b.calls|
    ensures ResultOf(ResultsOf(entries, round, b, fate, n + 1), b.calls[i].id) ==
            if i == n && FateOf(entries, round, b.calls[i], b.gates[i]) == fate
            then Some(FateResult(entries, round, b, fate, i))
            else ResultOf(ResultsOf(entries, round, b, fate, n), b.calls[i].id)
  {
    hide FateOf, ResultsOf, FateResult, ResultOf, DistinctCalls;
    LastResultOf(entries, round, b, fate, n);
    var before, id := ResultsOf(entries, round, b, fate, n), b.calls[i].id;
    if FateOf(entries, round, b.calls[n], b.gates[n]) == fate {
      var last := FateResult(entries, round, b, fate, n);
      ResultOfSplit(before, [last], id);
      ResultOfOne(last, id);
      if i != n { OtherCall(b, i, n); }
    } else {
      assert before + [] == before;
    }
  }

  lemma {:induction false} ResultOfFate(entries: map<FailureLedger.Key, Failure>, round: nat, b: Batch, fate: Fate,
                                        n: nat, i: nat)
    requires ValidBatch(b) && DistinctCalls(b.calls) && n <= |b.calls| && i < |b.calls|
    ensures ResultOf(ResultsOf(entries, round, b, fate, n), b.calls[i].id) ==
            if i >= n || FateOf(entries, round, b.calls[i], b.gates[i]) != fate then None
            else Some(FateResult(entries, round, b, fate, i))
  {
    hide FateOf, FateResult, DistinctCalls, ResultsOf, ResultOf, GuardResult, RefusalResult;
    if n == 0 {
      NoResults(entries, round, b, fate, b.calls[i].id);
    } else {
      ResultOfFate(entries, round, b, fate, n - 1, i);
      ResultOfStep(entries, round, b, fate, n - 1, i);
    }
  }

  lemma {:induction false} NoResults(entries: map<FailureLedger.Key, Failure>, round: nat, b: Batch, fate: Fate,
                                     id: string)
    requires ValidBatch(b)
    ensures ResultOf(ResultsOf(entries, round, b, fate, 0), id) == None
  {
  }

  lemma {:induction false} OtherCall(b: Batch, i: nat, j: nat)
    requires DistinctCalls(b.calls) && i < |b.calls| && j < |b.calls| && i != j
    ensures b.calls[i].id != b.calls[j].id
  {
  }

  /** The call failed in the last tool round, and no declaration says an unchanged retry is fine. */
  predicate Repeats(entries: map<FailureLedger.Key, Failure>, round: nat, c: Call) {
    var k := (c.name, c.args);
    k in entries && entries[k].round == round - 1 &&
    (entries[k].envelope.Some? ==> !entries[k].envelope.value.retryWithSameArguments)
  }

  /** Mode or a hook refuses a call of the batch that the guard lets through. */
  ghost predicate HasRefusal(entries: map<FailureLedger.Key, Failure>, round: nat, b: Batch)
    requires ValidBatch(b)
  {
    exists j | 0 <= j < |b.calls| :: !Repeats(entries, round, b.calls[j]) &&
                                     (b.gates[j].DeniedByMode? || b.gates[j].BlockedByHook?)
  }

  /** What the guard tells the model instead of running the call. */
  predicate IsGuardAnswer(r: ToolResult, f: Failure) {
    && r.isError && r.exec.None? && r.envelope.Some?
    && r.envelope.value.code == "repeated_failed_call" && !r.envelope.value.retryWithSameArguments
    && (f.envelope.Some? && f.envelope.value.nextAction != "" ==>
          r.envelope.value.nextAction == f.envelope.value.nextAction)
    && r.envelope.value.nextAction != "" && r.envelope.value.recovery != ""
  }

  lemma {:induction false} GuardAnswers(entries: map<FailureLedger.Key, Failure>, round: nat, c: Call, gate: Gate)
    ensures FateOf(entries, round, c, gate) == Guarded <==> Repeats(entries, round, c)
    ensures Repeats(entries, round, c) ==>
              IsGuardAnswer(GuardResult(entries[CallKey(c)], c.id), entries[CallKey(c)])
  {
  }

  lemma {:induction false} RefusalIff(entries: map<FailureLedger.Key, Failure>, round: nat, b: Batch)
    requires ValidBatch(b)
    ensures HasRefusal(entries, round, b) <==> ResultsOf(entries, round, b, Refused, |b.calls|) != []
  {
    hide ResultsOf;
    NonEmptyIffFate(entries, round, b, Refused, |b.calls|);
  }

  lemma {:induction false} FateDecides(entries: map<FailureLedger.Key, Failure>, round: nat, b: Batch, i: nat)
    requires ValidBatch(b) && DistinctCalls(b.calls) && i < |b.calls|
    ensures Returned(entries, round, b).Some?
    ensures var c, gate := b.calls[i], b.gates[i];
            var ran := ResultOf(Executed(entries, round, b), c.id);
            var returned := ResultOf(Returned(entries, round, b).value, c.id);
            match FateOf(entries, round, c, gate)
            case Guarded =>
              ran.None? && returned == if ResultsOf(entries, round, b, Refused, |b.calls|) != [] then None
                                       else Some(GuardResult(entries[CallKey(c)], c.id))
            case Refused => ran.None? && returned == Some(RefusalResult(gate, c.id))
            case _ => ran == returned == Some(b.answers[i])
  {
    hide FateOf, GuardResult, RefusalResult;
    var n, id := |b.calls|, b.calls[i].id;
    SomethingReturned(entries, round, b);
    ResultOfFate(entries, round, b, Guarded, n, i);
    ResultOfFate(entries, round, b, Refused, n, i);
    ResultOfFate(entries, round, b, InSequence, n, i);
    ResultOfFate(entries, round, b, InParallel, n, i);
    hide ResultsOf, ResultOf;
    var guarded, refused := ResultsOf(entries, round, b, Guarded, n), ResultsOf(entries, round, b, Refused, n);
    var inSeq, inPar := ResultsOf(entries, round, b, InSequence, n), ResultsOf(entries, round, b, InParallel, n);
    ResultOfSplit(inSeq, inPar, id);
    ResultOfSplit(if refused != [] then refused else guarded, inSeq + inPar, id);
  }

  /** What the ledger and the gate decide for the call at i, by the results of the calls that ran and
      those returned: a repeated failure is held back, a refused call comes back as an error and never
      runs, and any other call runs and returns what the engine answered. */
  ghost predicate Decided(entries: map<FailureLedger.Key, Failure>, round: nat, b: Batch, i: nat,
                          ran: seq<ToolResult>, returned: seq<ToolResult>)
    requires ValidBatch(b) && i < |b.calls|
  {
    var c := b.calls[i];
    var run, answer := ResultOf(ran, c.id), ResultOf(returned, c.id);
    if Repeats(entries, round, c) then
      && run.None? && (answer.None? <==> HasRefusal(entries, round, b))
      && (answer.Some? ==> IsGuardAnswer(answer.value, entries[(c.name, c.args)]))
    else
      match b.gates[i]
      case Unregistered => run == answer == Some(b.answers[i])
      case Runs(_) => run == answer == Some(b.answers[i])
      case DeniedByMode =>
        && run.None?
        && answer == Some(ToolResult(c.id, true, [Lit("blocked: tool is not available in the current mode")],
                                     None, None))
      case BlockedByHook(reason) =>
        && run.None?
        && answer == Some(ToolResult(c.id, true, if reason == [] then [Lit("blocked by PreToolUse hook")] else reason,
                                     None, None))
  }

  lemma {:induction false} GateDecides(entries: map<FailureLedger.Key, Failure>, round: nat, b: Batch, i: nat)
    requires ValidBatch(b) && DistinctCalls(b.calls) && i < |b.calls|
    ensures Returned(entries, round, b).Some?
    ensures Decided(entries, round, b, i, Executed(entries, round, b), Returned(entries, round, b).value)
  {
    hide Returned, Executed, ResultOf, GuardResult, HasRefusal, ResultsOf, IsGuardAnswer, DistinctCalls;
    FateDecides(entries, round, b, i);
    RefusalIff(entries, round, b);
    GuardAnswers(entries, round, b.calls[i], b.gates[i]);
  }

  lemma {:induction false} GatesDecide(entries: map<FailureLedger.Key, Failure>, round: nat, b: Batch)
    requires ValidBatch(b) && DistinctCalls(b.calls) && b.calls != []
    ensures Returned(entries, round, b).Some?
    ensures forall i | 0 <= i < |b.calls| ::
              Decided(entries, round, b, i, Executed(entries, round, b), Returned(entries, round, b).value)
  {
    hide Decided, Executed, Returned;
    GateDecides(entries, round, b, 0);
    forall i | 0 <= i < |b.calls|
      ensures Decided(entries, round, b, i, Executed(entries, round, b), Returned(entries, round, b).value)
    {
      GateDecides(entries, round, b, i);
    }
  }

  /** Results of one fate stand in the order of their calls. */
  lemma {:induction false} ResultsAscend(entries: map<FailureLedger.Key, Failure>, round: nat, b: Batch, fate: Fate,
                                         n: nat, p: nat, q: nat, i: nat, j: nat)
    requires ValidBatch(b) && DistinctCalls(b.calls) && n <= |b.calls| && i < |b.calls| && j < |b.calls|
    requires var rs := ResultsOf(entries, round, b, fate, n);
             p < q < |rs| && rs[p].id == b.calls[i].id && rs[q].id == b.calls[j].id
    ensures i < j && FateOf(entries, round, b.calls[j], b.gates[j]) == fate
  {
    hide FateOf;
    var before, now := ResultsOf(entries, round, b, fate, n - 1), ResultsOf(entries, round, b, fate, n);
    assert forall k | 0 <= k < |before| :: now[k] == before[k];
    if q < |before| {
      ResultsAscend(entries, round, b, fate, n - 1, p, q, i, j);
    } else {
      assert now[q].id == b.calls[n - 1].id;
      assert before[p] in before && HasId(before, b.calls[i].id);
      ResultsOfIds(entries, round, b, fate, n - 1, b.calls[i].id);
    }
  }

  lemma {:induction false} FateOfResult(entries: map<FailureLedger.Key, Failure>, round: nat, b: Batch, fate: Fate,
                                        p: nat, i: nat)
    requires ValidBatch(b) && DistinctCalls(b.calls) && i < |b.calls|
    requires var rs := ResultsOf(entries, round, b, fate, |b.calls|);
             p < |rs| && rs[p].id == b.calls[i].id
    ensures FateOf(entries, round, b.calls[i], b.gates[i]) == fate
  {
    hide FateOf, ResultsOf;
    var rs := ResultsOf(entries, round, b, fate, |b.calls|);
    assert rs[p] in rs && HasId(rs, b.calls[i].id);
    ResultsOfIds(entries, round, b, fate, |b.calls|, b.calls[i].id);
  }

  /** Calls that may run side by side run behind the others, and both kinds in the order of the calls. */
  lemma {:induction false} ExecutedInOrder(entries: map<FailureLedger.Key, Failure>, round: nat, b: Batch,
                                           p: nat, q: nat, i: nat, j: nat)
    requires ValidBatch(b) && DistinctCalls(b.calls) && i < |b.calls| && j < |b.calls|
    requires var ran := Executed(entries, round, b);
             p < q < |ran| && ran[p].id == b.calls[i].id && ran[q].id == b.calls[j].id
    ensures b.gates[i] == Runs(true) ==> b.gates[j] == Runs(true)
    ensures (b.gates[i] == Runs(true) <==> b.gates[j] == Runs(true)) ==> i < j
  {
    hide ResultsOf;
    var n := |b.calls|;
    var inSeq, inPar := ResultsOf(entries, round, b, InSequence, n), ResultsOf(entries, round, b, InParallel, n);
    if q < |inSeq| {
      FateOfResult(entries, round, b, InSequence, p, i);
      FateOfResult(entries, round, b, InSequence, q, j);
      ResultsAscend(entries, round, b, InSequence, n, p, q, i, j);
    } else if p < |inSeq| {
      FateOfResult(entries, round, b, InSequence, p, i);
      FateOfResult(entries, round, b, InParallel, q - |inSeq|, j);
    } else {
      FateOfResult(entries, round, b, InParallel, p - |inSeq|, i);
      FateOfResult(entries, round, b, InParallel, q - |inSeq|, j);
      ResultsAscend(entries, round, b, InParallel, n, p - |inSeq|, q - |inSeq|, i, j);
    }
  }

  method RunTools(ledger: Ledger, round: nat, b: Batch) returns (results: Option<seq<ToolResult>>)
    requires ledger.Valid() && ValidBatch(b)
    modifies ledger
    ensures ledger.Valid()
    ensures results == Returned(old(ledger.entries), round, b)
    ensures b.calls != [] && DistinctCalls(b.calls) ==> results.Some? && forall i | 0 <= i < |b.calls| ::
              Decided(old(ledger.entries), round, b, i, Executed(old(ledger.entries), round, b), results.value)
    ensures ledger.entries == AfterRound(old(ledger.entries), b.calls, Executed(old(ledger.entries), round, b), round)
  {
    hide Decided, DistinctCalls;
    if b.calls != [] && DistinctCalls(b.calls) { GatesDecide(ledger.entries, round, b); }
    var guarded, refused, inSeq, inPar := SortCalls(ledger, round, b);
    assert inSeq + inPar == Executed(ledger.entries, round, b);
    var blockedResults := guarded;
    NothingRan(ledger.entries, b.calls, round);
    if refused != [] {
      if |inSeq| + |inPar| == 0 {
        assert refused + (inSeq + inPar) == refused;
        return Some(refused);
      }
      blockedResults := refused;
    }
    if |inSeq| + |inPar| == 0 {
      assert blockedResults + (inSeq + inPar) == blockedResults;
      if blockedResults != [] {
        return Some(blockedResults);
      }
      return None;
    }
    ledger.RecordToolOutcomes(b.calls, inSeq + inPar, round);
    results := Some(inSeq + inPar);
    if blockedResults != [] {
      results := Some(blockedResults + results.value);
    } else {
      assert blockedResults + (inSeq + inPar) == inSeq + inPar;
    }
  }

  // ---- the rounds of a run -------------------------------------------------------------------

  /** A call the guard blocks has no result among those that ran. */
  lemma {:induction false} BlockedDoesNotRun(entries: map<FailureLedger.Key, Failure>, round: nat, b: Batch, i: nat)
    requires ValidBatch(b) && DistinctCalls(b.calls) && i < |b.calls| && Blocks(entries, CallKey(b.calls[i]), round)
    ensures ResultOf(Executed(entries, round, b), b.calls[i].id).None?
  {
    hide ResultOf, ResultsOf;
    var n, id := |b.calls|, b.calls[i].id;
    ResultOfIff(Executed(entries, round, b), id);
    ResultsOfIds(entries, round, b, InSequence, n, id);
    ResultsOfIds(entries, round, b, InParallel, n, id);
  }

  /** What a batch adds to the trace. */
  function RoundOf(trace: seq<Round>, b: Batch): Round
    requires |b.gates| == |b.calls| && |b.answers| == |b.calls|
  {
    Round(b.calls, Executed(EntriesAfter(trace), |trace| + 1, b))
  }

  /** So every round that is run respects the guard. */
  lemma {:induction false} RoundRespectsGuard(trace: seq<Round>, b: Batch)
    requires RespectsGuard(trace) && ValidBatch(b) && DistinctCalls(b.calls)
    ensures RespectsGuard(trace + [RoundOf(trace, b)])
    ensures EntriesAfter(trace + [RoundOf(trace, b)]) ==
            AfterRound(EntriesAfter(trace), b.calls, Executed(EntriesAfter(trace), |trace| + 1, b), |trace| + 1)
  {
    hide Executed, ResultOf, Blocks, AfterRound;
    var now := trace + [RoundOf(trace, b)];
    assert now[..|trace|] == trace;
    forall n, c | 0 <= n < |now| && c in now[n].calls && Blocks(EntriesAfter(now[..n]), CallKey(c), n + 1)
      ensures ResultOf(now[n].results, c.id).None?
    {
      assert n < |trace| ==> now[..n] == trace[..n] && now[n] == trace[n];
      if n == |trace| {
        var i :| 0 <= i < |b.calls| && b.calls[i] == c;
        BlockedDoesNotRun(EntriesAfter(trace), n + 1, b, i);
      }
    }
  }

  /** A round whose engine failed records nothing. */
  lemma {:induction false} FailedRoundRespectsGuard(trace: seq<Round>, calls: seq<Call>)
    requires RespectsGuard(trace)
    ensures RespectsGuard(trace + [Round(calls, [])]) && EntriesAfter(trace + [Round(calls, [])]) == EntriesAfter(trace)
  {
    hide Blocks;
    var now := trace + [Round(calls, [])];
    assert now[..|trace|] == trace;
    NothingRan(EntriesAfter(trace), calls, |now|);
    forall n, c | 0 <= n < |now| && c in now[n].calls && Blocks(EntriesAfter(now[..n]), CallKey(c), n + 1)
      ensures ResultOf(now[n].results, c.id).None?
    {
      assert n < |trace| ==> now[..n] == trace[..n] && now[n] == trace[n];
    }
  }

  // ---- writing the round back ------------------------------------------------------------------

  /** views[i] is the result of call i as it enters the context (spilled, parsed). */
  ghost predicate ViewsOf(calls: seq<Call>, views: seq<Result>) {
    |views| == |calls| && forall i | 0 <= i < |calls| :: views[i].call == calls[i]
  }

  /** The tool messages of the answered calls among the first n. */
  function Answers(calls: seq<Call>, results: seq<ToolResult>, views: seq<Result>, n: nat): seq<Message>
    requires |views| == |calls| && n <= |calls|
  {
    if n == 0 then []
    else Answers(calls, results, views, n - 1) +
         (if ResultOf(results, calls[n - 1].id).Some? then [ResultMessage(views[n - 1])] else [])
  }

  /** The context a round leads to, before earlier texts are slimmed. */
  function RoundContext(msgs: seq<Message>, reply: Message, results: seq<ToolResult>, views: seq<Result>): seq<Message>
    requires |views| == |reply.calls|
  {
    msgs + [reply] + Answers(reply.calls, results, views, |reply.calls|)
  }

  /** The context and the history of results once the first n calls were looked at: each answer slims
      what it makes redundant and then enters. */
  ghost function Entered(msgs: seq<Message>, cfg: SlimConfig, log: seq<Entry>, calls: seq<Call>,
                         results: seq<ToolResult>,
                         views: seq<Result>, n: nat): (seq<Message>, seq<Entry>)
    requires |views| == |calls| && n <= |calls|
  {
    if n == 0 then (msgs, log)
    else
      var (before, was) := Entered(msgs, cfg, log, calls, results, views, n - 1);
      var r := views[n - 1];
      if ResultOf(results, calls[n - 1].id).Some?
         then (SlimmedBy(before, cfg, was, r) + [ResultMessage(r)], was + [Entry(|before|, r)])
      else (before, was)
  }

  /** The context and the history behind the round. */
  ghost function RoundEntered(msgs: seq<Message>, cfg: SlimConfig, log: seq<Entry>, reply: Message,
                              results: seq<ToolResult>,
                              views: seq<Result>): (seq<Message>, seq<Entry>)
    requires |views| == |reply.calls|
  {
    Entered(msgs + [reply], cfg, log, reply.calls, results, views, |reply.calls|)
  }

  method AppendRound(ac: AgentContext, reply: Message, results: seq<ToolResult>, views: seq<Result>)
    requires ac.slim != null ==> SlimOk(ac.messages, ac.slim)
    requires ViewsOf(reply.calls, views)
    modifies ac, ac.slim
    ensures ac.slim != null ==>
              && SlimOk(ac.messages, ac.slim)
              && (ac.messages, ac.slim.log) ==
                 RoundEntered(old(ac.messages), ac.slim.cfg, old(ac.slim.log), reply, results, views)
    ensures ac.slim == null ==> ac.messages == RoundContext(old(ac.messages), reply, results, views)
    ensures SameShapes(RoundContext(old(ac.messages), reply, results, views), ac.messages)
  {
    hide SlimOk, ResultOf, SlimmedBy, ResultMessage, SameShapes;
    ghost var msgs := ac.messages;
    ghost var log := if ac.slim != null then ac.slim.log else [];
    if ac.slim != null { AppendKeepsSlim(ac.messages, [reply], ac.slim); }
    ac.messages := ac.messages + [reply];
    SameAsItself(msgs + [reply]);
    assert msgs + [reply] + [] == msgs + [reply];
    for i := 0 to |reply.calls|
      invariant ac.slim != null ==>
                  && SlimOk(ac.messages, ac.slim)
                  && (ac.messages, ac.slim.log) ==
                     Entered(msgs + [reply], ac.slim.cfg, log, reply.calls, results, views, i)
      invariant ac.slim == null ==> ac.messages == msgs + [reply] + Answers(reply.calls, results, views, i)
      invariant SameShapes(msgs + [reply] + Answers(reply.calls, results, views, i), ac.messages)
    {
      var c := reply.calls[i];
      ghost var before, expected := ac.messages, msgs + [reply] + Answers(reply.calls, results, views, i);
      if ResultOf(results, c.id).Some? {
        AppendResult(ac, views[i]);
        assert msgs + [reply] + Answers(reply.calls, results, views, i + 1) == expected + [ResultMessage(views[i])];
        if ac.slim == null {
          assert ac.messages[..|before|] == before;
          SameAsItself(before);
        }
        SameShapesSnoc(expected, before, ac.messages, ResultMessage(views[i]));
      } else {
        assert msgs + [reply] + Answers(reply.calls, results, views, i + 1) == expected;
      }
    }
  }

  lemma {:induction false} SameShapesSnoc(expected: seq<Message>, before: seq<Message>, now: seq<Message>, m: Message)
    requires SameShapes(expected, before) && |now| == |before| + 1 && now[|before|] == m
    requires SameShapes(before, now[..|before|])
    ensures SameShapes(expected + [m], now)
  {
    SameShapesCompose(expected, before, now[..|before|]);
    forall i | 0 <= i < |now|
      ensures OnlyTextChanged((expected + [m])[i], now[i])
    {
      if i < |before| { assert OnlyTextChanged(expected[i], now[..|before|][i]); }
    }
  }

  lemma {:induction false} AnswerShape(r: Result)
    ensures ResultMessage(r).role == Tool && ResultMessage(r).toolId == r.call.id
  {
  }

  /** Scanning the answers: everything so far answered, or stuck at the first call without one. */
  lemma {:induction false} AnswersResidue(calls: seq<Call>, results: seq<ToolResult>, views: seq<Result>, n: nat)
    requires ViewsOf(calls, views) && DistinctCalls(calls) && n <= |calls|
    ensures var r := Residue(Ids(calls), Answers(calls, results, views, n));
            if EveryCallAnswered(calls[..n], results) then r == Some(Ids(calls)[n..])
            else r.None? || exists p :: 0 <= p < n && r.value == Ids(calls)[p..]
  {
    hide ResultOf, Residue, ResultMessage;
    if n == 0 {
      assert Ids(calls)[0..] == Ids(calls);
      EmptyResidue(Ids(calls));
    } else {
      var c := calls[n - 1];
      AnswersResidue(calls, results, views, n - 1);
      assert calls[..n] == calls[..n - 1] + [c];
      assert forall x :: x in calls[..n] <==> x in calls[..n - 1] || x == c;
      var before := Residue(Ids(calls), Answers(calls, results, views, n - 1));
      if ResultOf(results, c.id).Some? {
        AnswerShape(views[n - 1]);
        ResidueSnoc(Ids(calls), Answers(calls, results, views, n - 1), ResultMessage(views[n - 1]));
        assert Ids(calls)[n - 1..][1..] == Ids(calls)[n..];
        if !EveryCallAnswered(calls[..n - 1], results) && before.Some? {
          var p :| 0 <= p < n - 1 && before.value == Ids(calls)[p..];
          assert before.value[0] == calls[p].id;
        }
      } else {
        assert c in calls[..n];
        assert Answers(calls, results, views, n) == Answers(calls, results, views, n - 1);
        if EveryCallAnswered(calls[..n - 1], results) {
          assert before.value == Ids(calls)[n - 1..];
        } else if before.Some? {
          var p :| 0 <= p < n - 1 && before.value == Ids(calls)[p..];
          assert 0 <= p < n;
        }
      }
    }
  }

  /** A round keeps the context paired exactly when every call got its result. */
  lemma {:induction false} RoundPairedIffAnswered(msgs: seq<Message>, reply: Message, results: seq<ToolResult>,
                                                  views: seq<Result>)
    requires WellPaired(msgs) && reply.role == Assistant && DistinctCalls(reply.calls) && ViewsOf(reply.calls, views)
    ensures WellPaired(RoundContext(msgs, reply, results, views)) <==> EveryCallAnswered(reply.calls, results)
  {
    var answers := Answers(reply.calls, results, views, |reply.calls|);
    ResidueSnoc([], msgs, reply);
    ResidueConcat([], msgs + [reply], answers);
    AnswersResidue(reply.calls, results, views, |reply.calls|);
    assert reply.calls[..|reply.calls|] == reply.calls;
    assert Residue([], msgs + [reply]) == Some(Ids(reply.calls));
    var r := Residue(Ids(reply.calls), answers);
    if !EveryCallAnswered(reply.calls, results) && r.Some? {
      var p :| 0 <= p < |reply.calls| && r.value == Ids(reply.calls)[p..];
      assert |r.value| > 0;
    }
  }

  lemma {:induction false} RoundKeepsUniqueCalls(msgs: seq<Message>, reply: Message, results: seq<ToolResult>,
                                                 views: seq<Result>)
    requires UniqueCalls(msgs) && reply.role == Assistant && DistinctCalls(reply.calls) && ViewsOf(reply.calls, views)
    requires forall c | c in reply.calls :: !HasCall(msgs, c.id)
    ensures UniqueCalls(RoundContext(msgs, reply, results, views))
    ensures forall id :: HasCall(RoundContext(msgs, reply, results, views), id) ==>
              HasCall(msgs, id) || exists c :: c in reply.calls && c.id == id
  {
    hide Answers, ResultOf;
    var out := RoundContext(msgs, reply, results, views);
    AnswersAreTools(reply.calls, results, views, |reply.calls|);
    RoundCallIds(msgs, reply, Answers(reply.calls, results, views, |reply.calls|));
    forall i, j, i', j' | 0 <= i < |out| && 0 <= j < |CallIds(out[i])| && 0 <= i' < |out| &&
      0 <= j' < |CallIds(out[i'])| &&
                          CallIds(out[i])[j] == CallIds(out[i'])[j']
      ensures i == i' && j == j'
    {
      FreshInRound(msgs, reply, i, j, i', j', out);
    }
    forall id | HasCall(out, id) ensures HasCall(msgs, id) || exists c :: c in reply.calls && c.id == id {
      var i :| 0 <= i < |out| && id in CallIds(out[i]);
      if i < |msgs| {
        assert id in CallIds(msgs[i]);
      } else {
        var j :| 0 <= j < |CallIds(out[i])| && CallIds(out[i])[j] == id;
        assert reply.calls[j] in reply.calls;
      }
    }
  }

  lemma {:induction false} RoundCallIds(msgs: seq<Message>, reply: Message, answers: seq<Message>)
    requires reply.role == Assistant && forall i | 0 <= i < |answers| :: answers[i].role == Tool
    ensures forall i | 0 <= i < |msgs + [reply] + answers| ::
              CallIds((msgs + [reply] + answers)[i]) ==
              if i < |msgs| then CallIds(msgs[i]) else if i == |msgs| then Ids(reply.calls) else []
  {
    forall i | 0 <= i < |msgs + [reply] + answers|
      ensures CallIds((msgs + [reply] + answers)[i]) ==
              if i < |msgs| then CallIds(msgs[i]) else if i == |msgs| then Ids(reply.calls) else []
    {
      if i > |msgs| { assert (msgs + [reply] + answers)[i] == answers[i - |msgs| - 1]; }
    }
  }

  lemma {:induction false} FreshInRound(msgs: seq<Message>, reply: Message, i: nat, j: nat, i': nat, j': nat,
                                        out: seq<Message>)
    requires UniqueCalls(msgs) && DistinctCalls(reply.calls) && |msgs| < |out|
    requires forall c | c in reply.calls :: !HasCall(msgs, c.id)
    requires forall k | 0 <= k < |out| ::
               CallIds(out[k]) == if k < |msgs| then CallIds(msgs[k]) else if k == |msgs| then Ids(reply.calls) else []
    requires i < |out| && j < |CallIds(out[i])| && i' < |out| && j' < |CallIds(out[i'])|
    requires CallIds(out[i])[j] == CallIds(out[i'])[j']
    ensures i == i' && j == j'
  {
    if i == |msgs| && i' < |msgs| {
      NewCallDiffers(msgs, reply, i', j', j);
    } else if i' == |msgs| && i < |msgs| {
      NewCallDiffers(msgs, reply, i, j, j');
    }
  }

  lemma {:induction false} NewCallDiffers(msgs: seq<Message>, reply: Message, i: nat, j: nat, k: nat)
    requires forall c | c in reply.calls :: !HasCall(msgs, c.id)
    requires i < |msgs| && j < |CallIds(msgs[i])| && k < |reply.calls|
    ensures CallIds(msgs[i])[j] != reply.calls[k].id
  {
    assert reply.calls[k] in reply.calls;
    assert CallIds(msgs[i])[j] in CallIds(msgs[i]);
  }

  lemma {:induction false} AnswersAreTools(calls: seq<Call>, results: seq<ToolResult>, views: seq<Result>, n: nat)
    requires |views| == |calls| && n <= |calls|
    ensures forall i | 0 <= i < |Answers(calls, results, views, n)| :: Answers(calls, results, views, n)[i].role == Tool
  {
    if n > 0 { AnswersAreTools(calls, results, views, n - 1); }
  }

  /** The input on which a result gets lost: a call fails, and the model repeats it next to a call
      the current mode refuses. */
  lemma {:induction false} MixedBatchLosesResult(name: string, args: string, other: string, otherArgs: string,
                                                 error: Text,
                                                 msgs: seq<Message>, reply: Message, views: seq<Result>)
    requires (other, otherArgs) != (name, args)
    requires WellPaired(msgs) && reply.role == Assistant && ViewsOf(reply.calls, views)
    requires reply.calls == [Call("c2", name, args), Call("c3", other, otherArgs)]
    ensures var failed := ToolResult("c1", true, error, None, None);
            var first := Batch([Call("c1", name, args)], [Runs(false)], [failed]);
            var trace := [RoundOf([], first)];
            var second := Batch(reply.calls, [Runs(false), DeniedByMode], [failed.(id := "c2"), failed.(id := "c3")]);
            var r := Returned(EntriesAfter(trace), 2, second);
            && ValidBatch(first) && ValidBatch(second) && DistinctCalls(second.calls)
            && r.Some? && ResultOf(r.value, "c2").None?
            && !WellPaired(RoundContext(msgs, reply, r.value, views))
  {
    var failed := ToolResult("c1", true, error, None, None);
    var first := Batch([Call("c1", name, args)], [Runs(false)], [failed]);
    var trace := [RoundOf([], first)];
    var second := Batch(reply.calls, [Runs(false), DeniedByMode], [failed.(id := "c2"), failed.(id := "c3")]);
    FirstFailure(name, args, error);
    var entries := EntriesAfter(trace);
    assert FateOf(entries, 2, second.calls[0], second.gates[0]) == Guarded;
    assert FateOf(entries, 2, second.calls[1], second.gates[1]) == Refused;
    AnsweredByFate(entries, 2, second, 0);
    NonEmptyIffFate(entries, 2, second, Refused, 2);
    assert second.calls[0] in reply.calls;
    RoundPairedIffAnswered(msgs, reply, Returned(entries, 2, second).value, views);
  }

  lemma {:induction false} FirstFailure(name: string, args: string, error: Text)
    ensures var failed := ToolResult("c1", true, error, None, None);
            var first := Batch([Call("c1", name, args)], [Runs(false)], [failed]);
            EntriesAfter([RoundOf([], first)]) == map[(name, args) := Failure(name, "", 1, None)]
  {
    var failed := ToolResult("c1", true, error, None, None);
    var c := Call("c1", name, args);
    var first := Batch([c], [Runs(false)], [failed]);
    var round := RoundOf([], first);
    assert [round][..0] == [] && [c][..0] == [];
    assert ResultsOf(map[], 1, first, InSequence, 0) == ResultsOf(map[], 1, first, InParallel, 0) == [];
    assert FateOf(map[], 1, c, Runs(false)) == InSequence;
    assert ResultsOf(map[], 1, first, InSequence, 1) == [failed];
    assert ResultsOf(map[], 1, first, InParallel, 1) == [];
    assert round.results == [failed];
    assert ResultOf([failed], "c1") == Some(failed);
    assert RecordFailures(map[], [], [failed], 1) == map[];
    assert EntriesAfter([]) == map[];
    assert !StateChanged([c], [failed]);
    assert RecordFailures(map[], [c], [failed], 1) == map[(name, args) := Failure(name, "", 1, None)];
  }
}
