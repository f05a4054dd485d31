/** The ledger of failing tool calls and the guard against repeating one unchanged
    (agents/fileledger.go:174-362). */
module FailureLedger {
  import opened Messages
  import opened Strings

  type Key = (string, string)

  datatype Envelope = Envelope(code: string, retryWithSameArguments: bool, nextAction: string, recovery: string)
  datatype Exec = Exec(canceled: bool, timedOut: bool, exitCode: int)
  datatype ToolResult = ToolResult(id: string, isError: bool, text: Text, envelope: Option<Envelope>,
                                   exec: Option<Exec>)
  datatype Failure = Failure(tool: string, code: string, round: nat, envelope: Option<Envelope>)

  predicate RetryUnchanged(f: Failure) {
    f.envelope.Some? && f.envelope.value.retryWithSameArguments
  }

  /** failureCode: the declared code first, then how the command ended. */
  function FailureCode(r: ToolResult): string {
    if r.envelope.Some? && r.envelope.value.code != "" then r.envelope.value.code
    else if r.exec.None? then ""
    else if r.exec.value.canceled then "canceled"
    else if r.exec.value.timedOut then "timeout"
    else if r.exec.value.exitCode < 0 then "exit -" + Decimal(-r.exec.value.exitCode)
    else if r.exec.value.exitCode > 0 then "exit " + Decimal(r.exec.value.exitCode)
    else ""
  }

  predicate IsStateChangeTool(name: string) {
    name == "write_file" || name == "edit_file" || "todo_" <= name
  }

  function CallKey(c: Call): Key { (c.name, c.args) }

  function Recorded(c: Call, r: ToolResult, round: nat): Failure {
    Failure(c.name, FailureCode(r), round, r.envelope)
  }

  function Without(order: seq<Key>, k: Key): (left: seq<Key>)
    ensures forall x | x in left :: x in order
  {
    if order == [] then []
    else if order[0] == k then order[1..]
    else [order[0]] + Without(order[1..], k)
  }

  ghost predicate Listing(order: seq<Key>, keys: set<Key>) {
    && (forall i, j | 0 <= i < j < |order| :: order[i] != order[j])
    && (forall k :: k in order <==> k in keys)
  }

  lemma {:induction false} WithoutLists(order: seq<Key>, keys: set<Key>, k: Key)
    requires Listing(order, keys)
    ensures Listing(Without(order, k), keys - {k})
  {
    if order != [] {
      if order[0] == k {
        assert order == [k] + order[1..];
      } else {
        assert order == [order[0]] + order[1..];
        assert order[0] !in order[1..];
        assert Listing(order[1..], keys - {order[0]});
        WithoutLists(order[1..], keys - {order[0]}, k);
      }
    }
  }

  lemma {:induction false} ListedOnly(order: seq<Key>, keys: set<Key>, k: Key)
    requires Listing(order, keys) && k !in keys
    ensures k !in order
  {
  }

  lemma {:induction false} ListingGrows(order: seq<Key>, keys: set<Key>, k: Key)
    requires Listing(order, keys) && k !in keys
    ensures Listing(order + [k], keys + {k})
  {
  }

  lemma {:induction false} WithoutAt(order: seq<Key>, i: nat)
    requires i < |order| && forall j | 0 <= j < i :: order[j] != order[i]
    ensures Without(order, order[i]) == order[..i] + order[i + 1..]
  {
    if i > 0 {
      WithoutAt(order[1..], i - 1);
      assert order[1..][..i - 1] == order[1..i] && order[1..][i..] == order[i + 1..];
    }
  }

  /** The result of the call in a batch: the last one with its id. */
  function ResultOf(results: seq<ToolResult>, id: string): Option<ToolResult> {
    if results == [] then None
    else if results[|results| - 1].id == id then Some(results[|results| - 1])
    else ResultOf(results[..|results| - 1], id)
  }

  predicate Failed(results: seq<ToolResult>, c: Call) {
    var r := ResultOf(results, c.id); r.Some? && r.value.isError
  }

  predicate Changed(results: seq<ToolResult>, c: Call) {
    var r := ResultOf(results, c.id); r.Some? && !r.value.isError && IsStateChangeTool(c.name)
  }

  /** The entries once the failures of a round are recorded. */
  function RecordFailures(entries: map<Key, Failure>, calls: seq<Call>, results: seq<ToolResult>, round: nat)
    : map<Key, Failure>
  {
    if calls == [] then entries
    else
      var before := RecordFailures(entries, calls[..|calls| - 1], results, round);
      var c := calls[|calls| - 1];
      if Failed(results, c) then before[CallKey(c) := Recorded(c, ResultOf(results, c.id).value, round)] else before
  }

  predicate StateChanged(calls: seq<Call>, results: seq<ToolResult>) {
    exists c | c in calls :: Changed(results, c)
  }

  function AfterRound(entries: map<Key, Failure>, calls: seq<Call>, results: seq<ToolResult>, round: nat)
    : map<Key, Failure>
  {
    if StateChanged(calls, results) then map[] else RecordFailures(entries, calls, results, round)
  }

  class Ledger {
    var entries: map<Key, Failure>
    var order: seq<Key>

    ghost predicate Valid()
      reads this
    {
      Listing(order, entries.Keys)
    }

    constructor ()
      ensures Valid() && entries == map[]
    {
      entries, order := map[], [];
    }

    method Record(k: Key, f: Failure)
      requires Valid()
      modifies this
      ensures Valid() && entries == old(entries)[k := f]
      ensures order == Without(old(order), k) + [k]
    {
      hide Without;
      WithoutLists(order, entries.Keys, k);
      ghost var was := order;
      if k in entries {
        for i := 0 to |order|
          invariant order == was && forall j | 0 <= j < i :: order[j] != k
        {
          if order[i] == k {
            WithoutAt(order, i);
            order := order[..i] + order[i + 1..];
            break;
          }
        }
      } else {
        ListedOnly(order, entries.Keys, k);
        AbsentUnchanged(order, k);
      }
      ListingGrows(order, entries.Keys - {k}, k);
      assert entries[k := f].Keys == entries.Keys - {k} + {k};
      entries := entries[k := f];
      order := order + [k];
    }

    method Clear()
      modifies this
      ensures Valid() && entries == map[]
    {
      entries, order := map[], [];
    }

    /** blockedIn: the call failed in the tool round right before this one, and an unchanged retry
        is not declared fine. */
    function BlockedIn(k: Key, round: nat): (f: Option<Failure>)
      reads this
    {
      if k !in entries || entries[k].round != round - 1 || RetryUnchanged(entries[k]) then None
      else Some(entries[k])
    }

    /** recordToolOutcomes: failures first, then one successful state change clears the ledger. */
    method RecordToolOutcomes(calls: seq<Call>, results: seq<ToolResult>, round: nat)
      requires Valid()
      modifies this
      ensures Valid() && entries == AfterRound(old(entries), calls, results, round)
    {
      var byId: map<string, ToolResult> := map[];
      for i := 0 to |results|
        invariant entries == old(entries) && Valid()
        invariant forall id {:trigger id in byId} :: ResultOf(results[..i], id) == if id in byId then Some(byId[id])
                  else None
      {
        assert results[..i + 1][..i] == results[..i];
        byId := byId[results[i].id := results[i]];
      }
      assert results[..|results|] == results;
      for i := 0 to |calls|
        invariant Valid() && entries == RecordFailures(old(entries), calls[..i], results, round)
      {
        assert calls[..i + 1][..i] == calls[..i];
        var c := calls[i];
        if c.id !in byId || !byId[c.id].isError {
          continue;
        }
        Record(CallKey(c), Recorded(c, byId[c.id], round));
      }
      assert calls[..|calls|] == calls;
      for i := 0 to |calls|
        invariant Valid() && entries == RecordFailures(old(entries), calls, results, round)
        invariant forall j | 0 <= j < i :: !Changed(results, calls[j])
      {
        var c := calls[i];
        if c.id in byId && !byId[c.id].isError && IsStateChangeTool(c.name) {
          assert Changed(results, c);
          Clear();
          return;
        }
      }
    }
  }

  lemma {:induction false} AbsentUnchanged(order: seq<Key>, k: Key)
    requires k !in order
    ensures Without(order, k) == order
  {
    if order != [] { AbsentUnchanged(order[1..], k); }
  }

  // ---- the trace the ledger stands for ----------------------------------------------------------

  /** What one tool round executed: its calls and the results of those that ran. Calls that a
      guard, the mode or a hook kept from running have no result here. */
  datatype Round = Round(calls: seq<Call>, results: seq<ToolResult>)

  /** The ledger after rounds 1..|trace|. */
  function EntriesAfter(trace: seq<Round>): map<Key, Failure> {
    if trace == [] then map[]
    else
      var n := |trace| - 1;
      AfterRound(EntriesAfter(trace[..n]), trace[n].calls, trace[n].results, n + 1)
  }

  predicate Blocks(entries: map<Key, Failure>, k: Key, round: nat) {
    k in entries && entries[k].round == round - 1 && !RetryUnchanged(entries[k])
  }

  /** i is the last call of the round that failed with this name and these arguments. */
  ghost predicate LastFailure(r: Round, k: Key, i: int) {
    && 0 <= i < |r.calls| && CallKey(r.calls[i]) == k && Failed(r.results, r.calls[i])
    && forall j | i < j < |r.calls| :: !(CallKey(r.calls[j]) == k && Failed(r.results, r.calls[j]))
  }

  ghost predicate BlockedByTrace(trace: seq<Round>, k: Key) {
    trace != [] &&
    var r := trace[|trace| - 1];
    && !StateChanged(r.calls, r.results)
    && exists i :: LastFailure(r, k, i) &&
                   !RetryUnchanged(Recorded(r.calls[i], ResultOf(r.results, r.calls[i].id).value, |trace|))
  }

  function LastFailureAt(calls: seq<Call>, results: seq<ToolResult>, k: Key): (i: Option<nat>)
    ensures i.Some? ==> i.value < |calls| && Failed(results, calls[i.value])
  {
    if calls == [] then None
    else
      var n := |calls| - 1;
      if CallKey(calls[n]) == k && Failed(results, calls[n]) then Some(n) else LastFailureAt(calls[..n], results, k)
  }

  lemma {:induction false} LastFailureFound(calls: seq<Call>, results: seq<ToolResult>, k: Key, i: int)
    ensures LastFailure(Round(calls, results), k, i) <==> LastFailureAt(calls, results, k) == Some(i)
  {
    if calls != [] {
      var n := |calls| - 1;
      if !(CallKey(calls[n]) == k && Failed(results, calls[n])) {
        LastFailureFound(calls[..n], results, k, i);
        if LastFailure(Round(calls, results), k, i) { assert calls[..n][i] == calls[i]; }
        if LastFailure(Round(calls[..n], results), k, i) {
          forall j | i < j < |calls| ensures !(CallKey(calls[j]) == k && Failed(results, calls[j])) {
            assert j < n ==> calls[..n][j] == calls[j];
          }
        }
      }
    }
  }

  /** Recording keeps, for each call, its last failure of the round. */
  lemma {:induction false} RecordedFailures(entries: map<Key, Failure>, calls: seq<Call>, results: seq<ToolResult>,
                                            round: nat, k: Key)
    ensures var now := RecordFailures(entries, calls, results, round);
            match LastFailureAt(calls, results, k)
            case Some(i) => k in now && now[k] == Recorded(calls[i], ResultOf(results, calls[i].id).value, round)
            case None => (k in now <==> k in entries) && (k in entries ==> now[k] == entries[k])
  {
    if calls != [] { RecordedFailures(entries, calls[..|calls| - 1], results, round, k); }
  }

  lemma {:induction false} RoundsInThePast(trace: seq<Round>, k: Key)
    requires k in EntriesAfter(trace)
    ensures EntriesAfter(trace)[k].round <= |trace|
  {
    if trace != [] {
      var n := |trace| - 1;
      RecordedFailures(EntriesAfter(trace[..n]), trace[n].calls, trace[n].results, n + 1, k);
      if k in EntriesAfter(trace[..n]) { RoundsInThePast(trace[..n], k); }
    }
  }

  /** The ledger blocks a call in the next round exactly when the last round ran it, its last run
      there failed without declaring a retry fine, and no write, edit or todo call succeeded. */
  lemma {:induction false} BlockedIffFailedLastRound(trace: seq<Round>, k: Key)
    ensures Blocks(EntriesAfter(trace), k, |trace| + 1) <==> BlockedByTrace(trace, k)
  {
    if trace != [] {
      var n := |trace| - 1;
      var r := trace[n];
      RecordedFailures(EntriesAfter(trace[..n]), r.calls, r.results, n + 1, k);
      assert Round(r.calls, r.results) == r;
      forall i ensures LastFailure(r, k, i) <==> LastFailureAt(r.calls, r.results, k) == Some(i) {
        LastFailureFound(r.calls, r.results, k, i);
      }
      if k in EntriesAfter(trace[..n]) { RoundsInThePast(trace[..n], k); }
      if LastFailureAt(r.calls, r.results, k).Some? {
        assert LastFailure(r, k, LastFailureAt(r.calls, r.results, k).value);
      }
    }
  }

  /** A round runs no call the ledger blocks. */
  ghost predicate RespectsGuard(trace: seq<Round>) {
    forall n, c | 0 <= n < |trace| && c in trace[n].calls && Blocks(EntriesAfter(trace[..n]), CallKey(c), n + 1) ::
      ResultOf(trace[n].results, c.id).None?
  }

  /** Result p is the answer to the id: the last one that carries it. */
  ghost predicate AnsweredBy(results: seq<ToolResult>, id: string, p: int) {
    0 <= p < |results| && results[p].id == id && forall q | p < q < |results| :: results[q].id != id
  }

  lemma {:induction false} AnswerIs(results: seq<ToolResult>, id: string)
    ensures forall p :: AnsweredBy(results, id, p) ==> ResultOf(results, id) == Some(results[p])
    ensures ResultOf(results, id).Some? ==>
              exists p :: AnsweredBy(results, id, p) && results[p] == ResultOf(results, id).value
  {
    if results != [] {
      var n := |results| - 1;
      AnswerIs(results[..n], id);
      forall p ensures AnsweredBy(results, id, p) ==> ResultOf(results, id) == Some(results[p]) {
        if p < n && AnsweredBy(results, id, p) { assert AnsweredBy(results[..n], id, p); }
      }
      if results[n].id == id {
        assert AnsweredBy(results, id, n);
      } else if ResultOf(results, id).Some? {
        var p :| AnsweredBy(results[..n], id, p) && results[..n][p] == ResultOf(results, id).value;
        assert AnsweredBy(results, id, p);
      }
    }
  }

  /** Call i of the round was answered with an error. */
  ghost predicate FailedAt(r: Round, i: int) {
    0 <= i < |r.calls| && exists p :: AnsweredBy(r.results, r.calls[i].id, p) && r.results[p].isError
  }

  /** A write, an edit or a todo call of the round was answered with success. */
  ghost predicate ChangedAt(r: Round, i: int) {
    && 0 <= i < |r.calls| && (exists p :: AnsweredBy(r.results, r.calls[i].id, p) && !r.results[p].isError)
    && (r.calls[i].name == "write_file" || r.calls[i].name == "edit_file" || "todo_" <= r.calls[i].name)
  }

  ghost predicate HeldBack(trace: seq<Round>, name: string, args: string) {
    trace != [] &&
    var r := trace[|trace| - 1];
    && (forall i :: !ChangedAt(r, i))
    && exists i ::
         && FailedAt(r, i) && r.calls[i].name == name && r.calls[i].args == args
         && (forall j | i < j < |r.calls| :: r.calls[j].name == name && r.calls[j].args == args ==> !FailedAt(r, j))
         && forall p | AnsweredBy(r.results, r.calls[i].id, p) && r.results[p].envelope.Some? ::
              !r.results[p].envelope.value.retryWithSameArguments
  }

  lemma {:induction false} FailedAtIff(r: Round, i: int)
    ensures FailedAt(r, i) <==> 0 <= i < |r.calls| && Failed(r.results, r.calls[i])
    ensures ChangedAt(r, i) <==> 0 <= i < |r.calls| && Changed(r.results, r.calls[i])
  {
    if 0 <= i < |r.calls| { AnswerIs(r.results, r.calls[i].id); }
  }

  /** The same by calls and results alone: the last failing answer of the last round to this call does not
      declare a retry fine, and no write, edit or todo call of that round was answered with success. */
  lemma {:induction false} BlockedIffHeldBack(trace: seq<Round>, name: string, args: string)
    ensures Blocks(EntriesAfter(trace), (name, args), |trace| + 1) <==> HeldBack(trace, name, args)
  {
    hide Blocks, EntriesAfter, Changed, Failed, ResultOf, ChangedAt, FailedAt;
    BlockedIffFailedLastRound(trace, (name, args));
    if trace != [] {
      var r := trace[|trace| - 1];
      forall i ensures FailedAt(r, i) <==> 0 <= i < |r.calls| && Failed(r.results, r.calls[i]) { FailedAtIff(r, i); }
      ChangedIff(r);
      forall i | 0 <= i < |r.calls| && Failed(r.results, r.calls[i])
        ensures ResultOf(r.results, r.calls[i].id).Some? && (
                !RetryUnchanged(Recorded(r.calls[i], ResultOf(r.results, r.calls[i].id).value, |trace|)) <==>
                forall p | AnsweredBy(r.results, r.calls[i].id, p) && r.results[p].envelope.Some? ::
                  !r.results[p].envelope.value.retryWithSameArguments)
      {
        RetryIff(r.results, r.calls[i], |trace|);
      }
    }
  }

  lemma {:induction false} ChangedIff(r: Round)
    ensures StateChanged(r.calls, r.results) <==> exists i :: ChangedAt(r, i)
  {
    forall i ensures ChangedAt(r, i) <==> 0 <= i < |r.calls| && Changed(r.results, r.calls[i]) { FailedAtIff(r, i); }
  }

  lemma {:induction false} RetryIff(results: seq<ToolResult>, c: Call, round: nat)
    requires Failed(results, c)
    ensures ResultOf(results, c.id).Some?
    ensures !RetryUnchanged(Recorded(c, ResultOf(results, c.id).value, round)) <==>
            forall p | AnsweredBy(results, c.id, p) && results[p].envelope.Some? ::
              !results[p].envelope.value.retryWithSameArguments
  {
    AnswerIs(results, c.id);
  }

  /** Hence no call is blocked in two consecutive rounds. */
  lemma {:induction false} NeverBlockedTwice(trace: seq<Round>, k: Key)
    requires RespectsGuard(trace) && trace != []
    requires Blocks(EntriesAfter(trace[..|trace| - 1]), k, |trace|)
    ensures !Blocks(EntriesAfter(trace), k, |trace| + 1)
  {
    BlockedIffFailedLastRound(trace, k);
    var n := |trace| - 1;
    forall i ensures !LastFailure(trace[n], k, i) {
      if 0 <= i < |trace[n].calls| && CallKey(trace[n].calls[i]) == k {
        assert trace[n].calls[i] in trace[n].calls;
      }
    }
  }

  lemma {:induction false} PrefixRespectsGuard(trace: seq<Round>, n: nat)
    requires RespectsGuard(trace) && n <= |trace|
    ensures RespectsGuard(trace[..n])
  {
    forall m, c | 0 <= m < n && c in trace[..n][m].calls && Blocks(EntriesAfter(trace[..n][..m]), CallKey(c), m + 1)
      ensures ResultOf(trace[..n][m].results, c.id).None?
    {
      assert trace[..n][..m] == trace[..m] && trace[..n][m] == trace[m];
    }
  }

  /** Round n of a run comes to a call with this name and these arguments and blocks it. */
  ghost predicate BlockedInRound(trace: seq<Round>, n: nat, k: Key)
    requires 1 <= n <= |trace| + 1
  {
    BlockedByTrace(trace[..n - 1], k)
  }

  ghost predicate NoBlockRepeats(trace: seq<Round>) {
    forall n, m, k | 1 <= n < m <= |trace| + 1 && BlockedInRound(trace, n, k) && BlockedInRound(trace, m, k) ::
      m > n + 1
  }

  lemma {:induction false} NotBlockedAgain(trace: seq<Round>, n: nat, k: Key)
    requires RespectsGuard(trace) && 1 <= n <= |trace| && BlockedInRound(trace, n, k)
    ensures !BlockedInRound(trace, n + 1, k)
  {
    PrefixRespectsGuard(trace, n);
    assert trace[..n][..n - 1] == trace[..n - 1];
    BlockedIffFailedLastRound(trace[..n - 1], k);
    BlockedIffFailedLastRound(trace[..n], k);
    NeverBlockedTwice(trace[..n], k);
  }

  /** So over a whole run no two consecutive rounds block the same call. */
  lemma {:induction false} GuardedRunsNeverRepeatBlocks(trace: seq<Round>)
    requires RespectsGuard(trace)
    ensures NoBlockRepeats(trace)
  {
    forall n, m, k | 1 <= n < m <= |trace| + 1 && BlockedInRound(trace, n, k) && BlockedInRound(trace, m, k)
      ensures m > n + 1
    {
      NotBlockedAgain(trace, n, k);
    }
  }
}
