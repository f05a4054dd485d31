/** Merging of redundant tool calls (agents/merge_pairs.go): whole call/result pairs are deleted
    from the context and the surviving "#N" references are renumbered. */
module MergePairs {
  import opened Messages
  import opened Context
  import Strings

  const DEFAULT_PROTECT_ROUNDS := 2

  datatype Pair = Pair(assistantIdx: nat, callIdx: nat, toolIdx: nat,
                       name: string, args: string, text: Text, image: bool)

  // ---- collecting the pairs ---------------------------------------------------------------

  type Site = (nat, nat)

  ghost predicate ValidSite(msgs: seq<Message>, id: string, site: Site) {
    site.0 < |msgs| && msgs[site.0].role == Assistant &&
    site.1 < |msgs[site.0].calls| && msgs[site.0].calls[site.1].id == id
  }

  ghost predicate ValidSites(msgs: seq<Message>, sites: map<string, Site>) {
    forall id | id in sites :: ValidSite(msgs, id, sites[id])
  }

  /** byID: the site of each call id, the last one winning. */
  function CallSites(msgs: seq<Message>): (sites: map<string, Site>)
    ensures ValidSites(msgs, sites)
    ensures forall i | 0 <= i < |msgs| && msgs[i].role == Assistant :: forall c | c in msgs[i].calls :: c.id in sites
  {
    if msgs == [] then map[]
    else
      var n := |msgs| - 1;
      var before := CallSites(msgs[..n]);
      if msgs[n].role != Assistant then before
      else
        AddSitesIds(before, n, msgs[n].calls);
        AddSites(before, n, msgs[n].calls)
  }

  function AddSites(before: map<string, Site>, i: nat, calls: seq<Call>): map<string, Site> {
    if calls == [] then before
    else
      var j := |calls| - 1;
      AddSites(before, i, calls[..j])[calls[j].id := (i, j)]
  }

  lemma {:induction false} AddSitesIds(before: map<string, Site>, i: nat, calls: seq<Call>)
    ensures forall id | id in AddSites(before, i, calls) ::
              (exists j :: 0 <= j < |calls| && calls[j].id == id && AddSites(before, i, calls)[id] == (i, j)) ||
              (id in before && AddSites(before, i, calls)[id] == before[id])
    ensures forall id | id in before :: id in AddSites(before, i, calls)
    ensures forall c | c in calls :: c.id in AddSites(before, i, calls)
  {
    if calls != [] {
      var n := |calls| - 1;
      AddSitesIds(before, i, calls[..n]);
      assert calls == calls[..n] + [calls[n]];
      forall id | id in AddSites(before, i, calls)
        ensures (exists j :: 0 <= j < |calls| && calls[j].id == id && AddSites(before, i, calls)[id] == (i, j)) ||
                (id in before && AddSites(before, i, calls)[id] == before[id])
      {
        if id == calls[n].id {
          assert AddSites(before, i, calls)[id] == (i, n);
        }
      }
    }
  }

  predicate HasImage(m: Message) {
    exists c | c in m.content :: c.kind == ImageBlock
  }

  function ResultText(m: Message): Text {
    if m.content != [] && m.content[0].kind != ImageBlock then m.content[0].text else []
  }

  function PairAt(msgs: seq<Message>, sites: map<string, Site>, i: nat): Pair
    requires i < |msgs| && ValidSites(msgs, sites) && msgs[i].toolId in sites
  {
    var (a, c) := sites[msgs[i].toolId];
    assert ValidSite(msgs, msgs[i].toolId, sites[msgs[i].toolId]);
    Pair(a, c, i, msgs[a].calls[c].name, msgs[a].calls[c].args, ResultText(msgs[i]), HasImage(msgs[i]))
  }

  /** The pairs whose result stands before position n. */
  function PairsUpTo(msgs: seq<Message>, sites: map<string, Site>, n: nat): (pairs: seq<Pair>)
    requires n <= |msgs| && ValidSites(msgs, sites)
    ensures forall p | p in pairs :: p.toolIdx < n && msgs[p.toolIdx].role == Tool &&
              msgs[p.toolIdx].toolId in sites && p == PairAt(msgs, sites, p.toolIdx)
    ensures forall i, j | 0 <= i < j < |pairs| :: pairs[i].toolIdx < pairs[j].toolIdx
  {
    if n == 0 then []
    else
      PairsUpTo(msgs, sites, n - 1) +
      (if msgs[n - 1].role == Tool && msgs[n - 1].toolId in sites then [PairAt(msgs, sites, n - 1)] else [])
  }

  function ToolPairs(msgs: seq<Message>): seq<Pair> {
    PairsUpTo(msgs, CallSites(msgs), |msgs|)
  }

  method IndexCalls(msgs: seq<Message>) returns (byId: map<string, Site>)
    ensures byId == CallSites(msgs)
  {
    byId := map[];
    for i := 0 to |msgs|
      invariant byId == CallSites(msgs[..i])
    {
      ghost var before := byId;
      assert msgs[..i + 1][..i] == msgs[..i];
      if msgs[i].role == Assistant {
        var calls := msgs[i].calls;
        for j := 0 to |calls|
          invariant byId == AddSites(before, i, calls[..j])
        {
          assert calls[..j + 1][..j] == calls[..j];
          byId := byId[calls[j].id := (i, j)];
        }
        assert calls[..|calls|] == calls;
      }
    }
    assert msgs[..|msgs|] == msgs;
  }

  method CollectToolPairs(msgs: seq<Message>) returns (pairs: seq<Pair>)
    ensures pairs == ToolPairs(msgs)
  {
    var byId := IndexCalls(msgs);
    pairs := [];
    for i := 0 to |msgs|
      invariant pairs == PairsUpTo(msgs, byId, i)
    {
      if msgs[i].role == Tool && msgs[i].toolId in byId {
        pairs := pairs + [PairAt(msgs, byId, i)];
      }
    }
  }

  // ---- grouping ---------------------------------------------------------------------------

  function KeyOf(p: Pair): Key { (p.name, p.args) }

  datatype Group = Group(keep: Pair, victims: seq<Pair>)
  datatype Grouping = Grouping(groups: seq<Group>, byKey: map<Key, nat>, pending: seq<Pair>)

  ghost predicate ValidGrouping(g: Grouping) {
    forall k | k in g.byKey :: g.byKey[k] < |g.groups|
  }

  /** The results of the last `rounds` pairs. */
  function ProtectedTools(pairs: seq<Pair>, rounds: nat): set<nat> {
    set k | 0 <= k < |pairs| && |pairs| - rounds <= k :: pairs[k].toolIdx
  }

  function AddVictim(g: Grouping, at: nat, keep: Pair, victim: Pair): (r: Grouping)
    requires ValidGrouping(g) && at < |g.groups|
    ensures ValidGrouping(r)
  {
    g.(groups := g.groups[at := Group(keep, g.groups[at].victims + [victim])])
  }

  function NewGroup(g: Grouping, p: Pair): (r: Grouping)
    requires ValidGrouping(g)
    ensures ValidGrouping(r)
  {
    g.(groups := g.groups + [Group(p, [])], byKey := g.byKey[KeyOf(p) := |g.groups|])
  }

  /** One pair of the grouping pass. A later read_file result with other text becomes both a
      victim and the new representative, as agents/merge_pairs.go:191-194 has it. */
  function GroupStep(g: Grouping, protected: set<nat>, p: Pair): (r: Grouping)
    requires ValidGrouping(g)
    ensures ValidGrouping(r)
  {
    if p.image || p.toolIdx in protected then g
    else if IsSlimPlaceholder(p.text) then g.(pending := g.pending + [p])
    else if KeyOf(p) !in g.byKey then NewGroup(g, p)
    else
      var at := g.byKey[KeyOf(p)];
      if p.text == g.groups[at].keep.text then AddVictim(g, at, g.groups[at].keep, p)
      else if p.name == "read_file" then AddVictim(g, at, p, p)
      else NewGroup(g, p)
  }

  function GroupPairs(pairs: seq<Pair>, protected: set<nat>): (r: Grouping)
    ensures ValidGrouping(r)
  {
    if pairs == [] then Grouping([], map[], [])
    else GroupStep(GroupPairs(pairs[..|pairs| - 1], protected), protected, pairs[|pairs| - 1])
  }

  /** Placeholders carry no information of their own: hang them on a group of the same call. */
  function AttachPending(g: Grouping, pending: seq<Pair>): (r: Grouping)
    requires ValidGrouping(g)
    ensures ValidGrouping(r) && r.byKey == g.byKey
  {
    if pending == [] then g
    else
      var p := pending[|pending| - 1];
      var before := AttachPending(g, pending[..|pending| - 1]);
      if KeyOf(p) in before.byKey then
        var at := before.byKey[KeyOf(p)];
        AddVictim(before, at, before.groups[at].keep, p)
      else before
  }

  // ---- what the grouping computes, without groups -------------------------------------------

  /** Pairs the merge may delete at all. */
  predicate Live(pairs: seq<Pair>, protected: set<nat>, k: int)
    requires 0 <= k < |pairs|
  {
    !pairs[k].image && pairs[k].toolIdx !in protected
  }

  /** Pairs that can stand for others: live and not already a placeholder. */
  predicate Real(pairs: seq<Pair>, protected: set<nat>, k: int)
    requires 0 <= k < |pairs|
  {
    Live(pairs, protected, k) && !IsSlimPlaceholder(pairs[k].text)
  }

  /** j is the last real pair before k that repeats k's call. */
  ghost predicate Previous(pairs: seq<Pair>, protected: set<nat>, j: int, k: int)
    requires k <= |pairs|
  {
    0 <= j < k && Real(pairs, protected, j)
  }

  ghost predicate PreviousSame(pairs: seq<Pair>, protected: set<nat>, key: Key, j: int, k: int)
    requires k <= |pairs|
  {
    && Previous(pairs, protected, j, k) && KeyOf(pairs[j]) == key
    && forall i | j < i < k :: !(Real(pairs, protected, i) && KeyOf(pairs[i]) == key)
  }

  ghost predicate HasReal(pairs: seq<Pair>, protected: set<nat>, key: Key, n: int)
    requires n <= |pairs|
  {
    exists j :: Previous(pairs, protected, j, n) && KeyOf(pairs[j]) == key
  }

  /** The reference definition of a pair the merge deletes: a placeholder of a call that some
      real pair repeats, or a real pair whose previous real repetition has the same text (for
      read_file: any text). */
  ghost predicate Redundant(pairs: seq<Pair>, protected: set<nat>, k: int)
    requires 0 <= k < |pairs|
  {
    Live(pairs, protected, k) &&
    if IsSlimPlaceholder(pairs[k].text) then HasReal(pairs, protected, KeyOf(pairs[k]), |pairs|)
    else exists j :: PreviousSame(pairs, protected, KeyOf(pairs[k]), j, k) &&
                     (pairs[k].name == "read_file" || pairs[j].text == pairs[k].text)
  }

  ghost predicate IsVictim(g: Grouping, p: Pair) {
    exists i :: 0 <= i < |g.groups| && p in g.groups[i].victims
  }

  ghost predicate RedundantReal(pairs: seq<Pair>, protected: set<nat>, k: int)
    requires 0 <= k < |pairs|
  {
    Redundant(pairs, protected, k) && !IsSlimPlaceholder(pairs[k].text)
  }

  lemma {:induction false} LastSameExists(pairs: seq<Pair>, protected: set<nat>, key: Key, n: nat) returns (j: int)
    requires n <= |pairs| && HasReal(pairs, protected, key, n)
    ensures PreviousSame(pairs, protected, key, j, n)
  {
    if Real(pairs, protected, n - 1) && KeyOf(pairs[n - 1]) == key {
      j := n - 1;
    } else {
      var i :| Previous(pairs, protected, i, n) && KeyOf(pairs[i]) == key;
      assert Previous(pairs, protected, i, n - 1);
      j := LastSameExists(pairs, protected, key, n - 1);
      assert Previous(pairs, protected, j, n);
    }
  }

  lemma {:induction false} LastSameUnique(pairs: seq<Pair>, protected: set<nat>, key: Key, n: nat, j: int, j': int)
    requires n <= |pairs|
    requires PreviousSame(pairs, protected, key, j, n) && PreviousSame(pairs, protected, key, j', n)
    ensures j == j'
  {
    assert Previous(pairs, protected, j, n) && Previous(pairs, protected, j', n);
  }

  /** What holds of the groups after the first n pairs. */
  ghost predicate GroupsKeys(pairs: seq<Pair>, protected: set<nat>, n: nat, g: Grouping)
    requires n <= |pairs|
  {
    forall key {:trigger key in g.byKey} :: key in g.byKey <==> HasReal(pairs, protected, key, n)
  }

  ghost predicate GroupKeeps(pairs: seq<Pair>, protected: set<nat>, n: nat, g: Grouping, key: Key)
    requires n <= |pairs| && ValidGrouping(g) && key in g.byKey
  {
    KeyOf(g.groups[g.byKey[key]].keep) == key &&
    exists j :: PreviousSame(pairs, protected, key, j, n) && pairs[j].text == g.groups[g.byKey[key]].keep.text
  }

  ghost predicate RedundantBefore(pairs: seq<Pair>, protected: set<nat>, n: nat, p: Pair)
    requires n <= |pairs|
  {
    exists k :: 0 <= k < n && pairs[k] == p && RedundantReal(pairs, protected, k)
  }

  ghost predicate WaitingBefore(pairs: seq<Pair>, protected: set<nat>, n: nat, p: Pair)
    requires n <= |pairs|
  {
    exists k :: 0 <= k < n && pairs[k] == p && Live(pairs, protected, k) && IsSlimPlaceholder(pairs[k].text)
  }

  ghost predicate GroupsInvariant(pairs: seq<Pair>, protected: set<nat>, n: nat, g: Grouping)
    requires n <= |pairs|
  {
    && ValidGrouping(g)
    && GroupsKeys(pairs, protected, n, g)
    && (forall key | key in g.byKey :: GroupKeeps(pairs, protected, n, g, key))
    && (forall p {:trigger IsVictim(g, p)} :: IsVictim(g, p) <==> RedundantBefore(pairs, protected, n, p))
    && (forall p {:trigger p in g.pending} :: p in g.pending <==> WaitingBefore(pairs, protected, n, p))
  }

  lemma {:induction false} VictimAdded(g: Grouping, at: nat, keep: Pair, victim: Pair, p: Pair)
    requires ValidGrouping(g) && at < |g.groups|
    ensures IsVictim(AddVictim(g, at, keep, victim), p) <==> IsVictim(g, p) || p == victim
  {
    var r := AddVictim(g, at, keep, victim);
    assert victim in r.groups[at].victims;
    if IsVictim(g, p) {
      var i :| 0 <= i < |g.groups| && p in g.groups[i].victims;
      assert p in r.groups[i].victims;
    }
    if IsVictim(r, p) {
      var i :| 0 <= i < |r.groups| && p in r.groups[i].victims;
      assert i != at ==> p in g.groups[i].victims;
      assert i == at ==> p == victim || p in g.groups[at].victims;
    }
  }

  lemma {:induction false} NoVictimAdded(g: Grouping, q: Pair, p: Pair)
    requires ValidGrouping(g)
    ensures IsVictim(NewGroup(g, q), p) <==> IsVictim(g, p)
  {
    var r := NewGroup(g, q);
    if IsVictim(g, p) {
      var i :| 0 <= i < |g.groups| && p in g.groups[i].victims;
      assert p in r.groups[i].victims;
    }
    if IsVictim(r, p) {
      var i :| 0 <= i < |r.groups| && p in r.groups[i].victims;
      assert p in g.groups[i].victims;
    }
  }

  /** Going from n to n + 1 pairs, said about the reference predicates alone. */
  lemma {:induction false} ReferenceStep(pairs: seq<Pair>, protected: set<nat>, n: nat, key: Key)
    requires n < |pairs|
    ensures HasReal(pairs, protected, key, n + 1) <==>
            HasReal(pairs, protected, key, n) || (Real(pairs, protected, n) && KeyOf(pairs[n]) == key)
    ensures Real(pairs, protected, n) && KeyOf(pairs[n]) == key ==> PreviousSame(pairs, protected, key, n, n + 1)
    ensures forall j ::
              PreviousSame(pairs, protected, key, j, n) && !(Real(pairs, protected, n) && KeyOf(pairs[n]) == key) ==>
              PreviousSame(pairs, protected, key, j, n + 1)
  {
    if HasReal(pairs, protected, key, n) {
      var j :| Previous(pairs, protected, j, n) && KeyOf(pairs[j]) == key;
      assert Previous(pairs, protected, j, n + 1);
    }
    if HasReal(pairs, protected, key, n + 1) {
      var j :| Previous(pairs, protected, j, n + 1) && KeyOf(pairs[j]) == key;
      assert j == n || Previous(pairs, protected, j, n);
    }
    if Real(pairs, protected, n) {
      assert Previous(pairs, protected, n, n + 1);
    }
  }

  lemma {:induction false} RedundantStep(pairs: seq<Pair>, protected: set<nat>, n: nat, p: Pair)
    requires n < |pairs|
    ensures RedundantBefore(pairs, protected, n + 1, p) <==>
            RedundantBefore(pairs, protected, n, p) || (p == pairs[n] && RedundantReal(pairs, protected, n))
    ensures WaitingBefore(pairs, protected, n + 1, p) <==>
            WaitingBefore(pairs, protected, n, p) ||
            (p == pairs[n] && Live(pairs, protected, n) && IsSlimPlaceholder(pairs[n].text))
  {
  }

  lemma {:induction false} KeysStep(pairs: seq<Pair>, protected: set<nat>, n: nat, g: Grouping)
    requires n < |pairs| && GroupsInvariant(pairs, protected, n, g)
    ensures var r := GroupStep(g, protected, pairs[n]);
            ValidGrouping(r) && GroupsKeys(pairs, protected, n + 1, r) &&
            forall key | key in r.byKey :: GroupKeeps(pairs, protected, n + 1, r, key)
  {
    var r := GroupStep(g, protected, pairs[n]);
    forall k ensures k in r.byKey <==> HasReal(pairs, protected, k, n + 1) {
      ReferenceStep(pairs, protected, n, k);
    }
    forall k | k in r.byKey ensures GroupKeeps(pairs, protected, n + 1, r, k) {
      ReferenceStep(pairs, protected, n, k);
      if k in g.byKey { assert GroupKeeps(pairs, protected, n, g, k); }
      GroupKeepsStep(pairs, protected, n, g, k);
    }
  }

  lemma {:induction false} VictimsStep(pairs: seq<Pair>, protected: set<nat>, n: nat, g: Grouping)
    requires n < |pairs| && GroupsInvariant(pairs, protected, n, g)
    ensures var r := GroupStep(g, protected, pairs[n]);
            && (forall q {:trigger IsVictim(r, q)} :: IsVictim(r, q) <==> RedundantBefore(pairs, protected, n + 1, q))
            && (forall q {:trigger q in r.pending} :: q in r.pending <==> WaitingBefore(pairs, protected, n + 1, q))
  {
    var p := pairs[n];
    var key := KeyOf(p);
    var r := GroupStep(g, protected, p);
    if Real(pairs, protected, n) && key in g.byKey {
      var at := g.byKey[key];
      assert GroupKeeps(pairs, protected, n, g, key);
      var j :| PreviousSame(pairs, protected, key, j, n) && pairs[j].text == g.groups[at].keep.text;
      RedundantIff(pairs, protected, n, j);
    } else if Real(pairs, protected, n) {
      NoPreviousNotRedundant(pairs, protected, n);
    }
    forall q ensures IsVictim(r, q) <==> RedundantBefore(pairs, protected, n + 1, q) {
      RedundantStep(pairs, protected, n, q);
      if Real(pairs, protected, n) {
        NoVictimAdded(g, p, q);
        if key in g.byKey {
          VictimAdded(g, g.byKey[key], g.groups[g.byKey[key]].keep, p, q);
          VictimAdded(g, g.byKey[key], p, p, q);
        }
      } else {
        assert r.groups == g.groups;
        assert IsVictim(r, q) <==> IsVictim(g, q);
      }
      assert IsVictim(g, q) <==> RedundantBefore(pairs, protected, n, q);
    }
    forall q ensures q in r.pending <==> WaitingBefore(pairs, protected, n + 1, q) {
      RedundantStep(pairs, protected, n, q);
    }
  }

  lemma {:induction false} GroupStepKeeps(pairs: seq<Pair>, protected: set<nat>, n: nat, g: Grouping)
    requires n < |pairs| && GroupsInvariant(pairs, protected, n, g)
    ensures GroupsInvariant(pairs, protected, n + 1, GroupStep(g, protected, pairs[n]))
  {
    KeysStep(pairs, protected, n, g);
    VictimsStep(pairs, protected, n, g);
    hide GroupStep, GroupKeeps, GroupsKeys;
  }

  /** With a previous repetition at j, being redundant is a question about its text. */
  lemma {:induction false} RedundantIff(pairs: seq<Pair>, protected: set<nat>, k: nat, j: int)
    requires k < |pairs| && Real(pairs, protected, k) && PreviousSame(pairs, protected, KeyOf(pairs[k]), j, k)
    ensures RedundantReal(pairs, protected, k) <==> (pairs[k].name == "read_file" || pairs[j].text == pairs[k].text)
  {
    forall j' | PreviousSame(pairs, protected, KeyOf(pairs[k]), j', k) ensures j' == j {
      LastSameUnique(pairs, protected, KeyOf(pairs[k]), k, j, j');
    }
  }

  lemma {:induction false} NoPreviousNotRedundant(pairs: seq<Pair>, protected: set<nat>, k: nat)
    requires k < |pairs| && Real(pairs, protected, k) && !HasReal(pairs, protected, KeyOf(pairs[k]), k)
    ensures !RedundantReal(pairs, protected, k)
  {
    forall j ensures !PreviousSame(pairs, protected, KeyOf(pairs[k]), j, k) {
      assert !(Previous(pairs, protected, j, k) && KeyOf(pairs[j]) == KeyOf(pairs[k]));
    }
  }

  lemma {:induction false} GroupKeepsStep(pairs: seq<Pair>, protected: set<nat>, n: nat, g: Grouping, k: Key)
    requires n < |pairs| && ValidGrouping(g)
    requires forall key | key in g.byKey :: GroupKeeps(pairs, protected, n, g, key)
    requires k in GroupStep(g, protected, pairs[n]).byKey
    ensures GroupKeeps(pairs, protected, n + 1, GroupStep(g, protected, pairs[n]), k)
  {
    var r := GroupStep(g, protected, pairs[n]);
    ReferenceStep(pairs, protected, n, k);
    if Real(pairs, protected, n) && KeyOf(pairs[n]) == k {
      assert PreviousSame(pairs, protected, k, n, n + 1);
      if k in g.byKey { assert GroupKeeps(pairs, protected, n, g, k); }
      assert pairs[n].text == r.groups[r.byKey[k]].keep.text;
    } else {
      assert k in g.byKey && GroupKeeps(pairs, protected, n, g, k);
      var j :| PreviousSame(pairs, protected, k, j, n) && pairs[j].text == g.groups[g.byKey[k]].keep.text;
      assert PreviousSame(pairs, protected, k, j, n + 1);
      if Real(pairs, protected, n) && KeyOf(pairs[n]) in g.byKey {
        assert GroupKeeps(pairs, protected, n, g, KeyOf(pairs[n]));
        assert g.byKey[k] != g.byKey[KeyOf(pairs[n])];
      }
      assert r.groups[r.byKey[k]].keep == g.groups[g.byKey[k]].keep;
    }
  }

  lemma {:induction false} GroupingHolds(pairs: seq<Pair>, protected: set<nat>, n: nat)
    requires n <= |pairs|
    ensures GroupsInvariant(pairs, protected, n, GroupPairs(pairs[..n], protected))
  {
    if n > 0 {
      GroupingHolds(pairs, protected, n - 1);
      assert pairs[..n][..n - 1] == pairs[..n - 1];
      GroupStepKeeps(pairs, protected, n - 1, GroupPairs(pairs[..n - 1], protected));
    }
  }

  lemma {:induction false} AttachedVictims(g: Grouping, pending: seq<Pair>, p: Pair)
    requires ValidGrouping(g)
    ensures IsVictim(AttachPending(g, pending), p) <==> IsVictim(g, p) || (p in pending && KeyOf(p) in g.byKey)
  {
    if pending != [] {
      var n := |pending| - 1;
      AttachedVictims(g, pending[..n], p);
      assert pending == pending[..n] + [pending[n]];
      var before := AttachPending(g, pending[..n]);
      if KeyOf(pending[n]) in before.byKey {
        var at := before.byKey[KeyOf(pending[n])];
        VictimAdded(before, at, before.groups[at].keep, pending[n], p);
      }
    }
  }

  function Groups(pairs: seq<Pair>, protected: set<nat>): (g: Grouping)
    ensures ValidGrouping(g)
  {
    var g := GroupPairs(pairs, protected);
    AttachPending(g, g.pending)
  }

  /** The grouping pass deletes exactly the redundant pairs. */
  lemma {:induction false} VictimsAreRedundant(pairs: seq<Pair>, protected: set<nat>, p: Pair)
    ensures IsVictim(Groups(pairs, protected), p) <==>
            exists k :: 0 <= k < |pairs| && pairs[k] == p && Redundant(pairs, protected, k)
  {
    var g := GroupPairs(pairs, protected);
    GroupingHolds(pairs, protected, |pairs|);
    assert pairs[..|pairs|] == pairs;
    AttachedVictims(g, g.pending, p);
    assert IsVictim(g, p) <==> RedundantBefore(pairs, protected, |pairs|, p);
    assert p in g.pending <==> WaitingBefore(pairs, protected, |pairs|, p);
    assert KeyOf(p) in g.byKey <==> HasReal(pairs, protected, KeyOf(p), |pairs|);
  }

  /** Every deleted pair leaves a surviving, non-placeholder pair of the same call. */
  lemma {:induction false} RedundantHasSurvivor(pairs: seq<Pair>, protected: set<nat>, k: nat) returns (h: nat)
    requires k < |pairs| && Redundant(pairs, protected, k)
    ensures h < |pairs| && Real(pairs, protected, h) && KeyOf(pairs[h]) == KeyOf(pairs[k])
    ensures !Redundant(pairs, protected, h)
  {
    var key := KeyOf(pairs[k]);
    if IsSlimPlaceholder(pairs[k].text) {
      var j :| Previous(pairs, protected, j, |pairs|) && KeyOf(pairs[j]) == key;
      h := FirstReal(pairs, protected, key, j);
    } else {
      var j :| PreviousSame(pairs, protected, key, j, k);
      h := FirstReal(pairs, protected, key, j);
    }
  }

  lemma {:induction false} FirstReal(pairs: seq<Pair>, protected: set<nat>, key: Key, j: nat) returns (h: nat)
    requires j < |pairs| && Real(pairs, protected, j) && KeyOf(pairs[j]) == key
    ensures h <= j && Real(pairs, protected, h) && KeyOf(pairs[h]) == key
    ensures !HasReal(pairs, protected, key, h) && !Redundant(pairs, protected, h)
    decreases j
  {
    if HasReal(pairs, protected, key, j) {
      var i :| Previous(pairs, protected, i, j) && KeyOf(pairs[i]) == key;
      h := FirstReal(pairs, protected, key, i);
    } else {
      h := j;
      NoPreviousNotRedundant(pairs, protected, j);
    }
  }

  /** Outside read_file nothing is lost: some earlier survivor has the very same text. */
  lemma {:induction false} SurvivorRepeatsText(pairs: seq<Pair>, protected: set<nat>, k: nat) returns (h: nat)
    requires k < |pairs| && RedundantReal(pairs, protected, k) && pairs[k].name != "read_file"
    ensures h < k && Real(pairs, protected, h) && KeyOf(pairs[h]) == KeyOf(pairs[k])
    ensures pairs[h].text == pairs[k].text && !Redundant(pairs, protected, h)
    decreases k
  {
    var j :| PreviousSame(pairs, protected, KeyOf(pairs[k]), j, k) && pairs[j].text == pairs[k].text;
    if Redundant(pairs, protected, j) {
      h := SurvivorRepeatsText(pairs, protected, j);
    } else {
      h := j;
    }
  }

  /** The comment of mergeToolPairs promises that of several read_file results of one call the
      newest is kept. As written, a real read result survives exactly when it is the oldest. */
  lemma {:induction false} ReadSurvivesIffOldest(pairs: seq<Pair>, protected: set<nat>, k: nat)
    requires k < |pairs| && Real(pairs, protected, k) && pairs[k].name == "read_file"
    ensures !Redundant(pairs, protected, k) <==> !HasReal(pairs, protected, KeyOf(pairs[k]), k)
  {
    if HasReal(pairs, protected, KeyOf(pairs[k]), k) {
      var j := LastSameExists(pairs, protected, KeyOf(pairs[k]), k);
      RedundantIff(pairs, protected, k, j);
    } else {
      NoPreviousNotRedundant(pairs, protected, k);
    }
  }

  // ---- the deletion plan ------------------------------------------------------------------

  /** Tool messages and calls (assistant index -> call indices) to delete, and for each
      representative how many results it absorbed. */
  datatype Plan = Plan(tools: set<nat>, calls: map<nat, set<nat>>, absorbed: map<nat, nat>)

  function AddToPlan(plan: Plan, v: Pair): Plan {
    var gone := if v.assistantIdx in plan.calls then plan.calls[v.assistantIdx] else {};
    plan.(tools := plan.tools + {v.toolIdx}, calls := plan.calls[v.assistantIdx := gone + {v.callIdx}])
  }

  function AddAllToPlan(plan: Plan, vs: seq<Pair>): Plan {
    if vs == [] then plan else AddToPlan(AddAllToPlan(plan, vs[..|vs| - 1]), vs[|vs| - 1])
  }

  function PlanStep(plan: Plan, protected: set<nat>, g: Group): Plan {
    if g.victims == [] || g.keep.toolIdx in protected then plan
    else
      var p := AddAllToPlan(plan, g.victims);
      var t := g.keep.toolIdx;
      p.(absorbed := p.absorbed[t := (if t in p.absorbed then p.absorbed[t] else 0) + |g.victims|])
  }

  function PlanGroups(groups: seq<Group>, protected: set<nat>): Plan {
    if groups == [] then Plan({}, map[], map[])
    else PlanStep(PlanGroups(groups[..|groups| - 1], protected), protected, groups[|groups| - 1])
  }

  ghost predicate Planned(plan: Plan, a: nat, c: nat) {
    a in plan.calls && c in plan.calls[a]
  }

  lemma {:induction false} PlannedAll(plan: Plan, vs: seq<Pair>)
    ensures forall t :: t in AddAllToPlan(plan, vs).tools <==> t in plan.tools || exists v :: v in vs && v.toolIdx == t
    ensures forall a, c :: Planned(AddAllToPlan(plan, vs), a, c) <==>
              Planned(plan, a, c) || exists v :: v in vs && v.assistantIdx == a && v.callIdx == c
  {
    if vs != [] {
      var n := |vs| - 1;
      PlannedAll(plan, vs[..n]);
      assert vs == vs[..n] + [vs[n]];
      var before := AddAllToPlan(plan, vs[..n]);
      forall a, c ensures Planned(AddToPlan(before, vs[n]), a, c) <==>
                          Planned(before, a, c) || (vs[n].assistantIdx == a && vs[n].callIdx == c) {
      }
      assert forall v :: v in vs <==> v in vs[..n] || v == vs[n];
    }
  }

  ghost predicate VictimOf(groups: seq<Group>, p: Pair) {
    exists i :: 0 <= i < |groups| && p in groups[i].victims
  }

  lemma {:induction false} PlannedGroups(groups: seq<Group>, protected: set<nat>)
    requires forall i | 0 <= i < |groups| :: groups[i].keep.toolIdx !in protected
    ensures forall t :: t in PlanGroups(groups, protected).tools <==> exists v :: VictimOf(groups, v) && v.toolIdx == t
    ensures forall a, c :: Planned(PlanGroups(groups, protected), a, c) <==>
              exists v :: VictimOf(groups, v) && v.assistantIdx == a && v.callIdx == c
  {
    if groups != [] {
      var n := |groups| - 1;
      PlannedGroups(groups[..n], protected);
      var before := PlanGroups(groups[..n], protected);
      PlannedAll(before, groups[n].victims);
      forall v ensures VictimOf(groups, v) <==> VictimOf(groups[..n], v) || v in groups[n].victims {
        if VictimOf(groups[..n], v) {
          var i :| 0 <= i < n && v in groups[..n][i].victims;
          assert v in groups[i].victims;
        }
        if VictimOf(groups, v) {
          var i :| 0 <= i < |groups| && v in groups[i].victims;
          assert i < n ==> v in groups[..n][i].victims;
        }
      }
      var after := PlanGroups(groups, protected);
      forall a, c ensures Planned(after, a, c) <==>
                          Planned(before, a, c) ||
                          exists v :: v in groups[n].victims && v.assistantIdx == a && v.callIdx == c
      {
        if groups[n].victims != [] {
          assert after.calls == AddAllToPlan(before, groups[n].victims).calls;
          assert Planned(after, a, c) <==> Planned(AddAllToPlan(before, groups[n].victims), a, c);
        } else {
          assert after == before;
        }
      }
    }
  }

  /** Representatives are unprotected pairs of the list. */
  ghost predicate KeepsUnprotected(g: Grouping, pairs: seq<Pair>, protected: set<nat>) {
    forall i | 0 <= i < |g.groups| :: g.groups[i].keep in pairs && g.groups[i].keep.toolIdx !in protected
  }

  lemma {:induction false} RepresentativesUnprotected(pairs: seq<Pair>, protected: set<nat>)
    ensures KeepsUnprotected(GroupPairs(pairs, protected), pairs, protected)
  {
    if pairs != [] {
      RepresentativesUnprotected(pairs[..|pairs| - 1], protected);
      assert pairs[|pairs| - 1] in pairs;
    }
  }

  lemma {:induction false} AttachKeepsRepresentatives(g: Grouping, pending: seq<Pair>, pairs: seq<Pair>,
                                                      protected: set<nat>)
    requires ValidGrouping(g) && KeepsUnprotected(g, pairs, protected)
    ensures KeepsUnprotected(AttachPending(g, pending), pairs, protected)
  {
    if pending != [] { AttachKeepsRepresentatives(g, pending[..|pending| - 1], pairs, protected); }
  }

  lemma {:induction false} PlanBookkeeping(groups: seq<Group>, protected: set<nat>)
    ensures forall a | a in PlanGroups(groups, protected).calls :: exists c ::
            Planned(PlanGroups(groups, protected), a, c)
    ensures forall t | t in PlanGroups(groups, protected).absorbed ::
              exists i :: 0 <= i < |groups| && groups[i].keep.toolIdx == t
  {
    if groups != [] {
      var n := |groups| - 1;
      PlanBookkeeping(groups[..n], protected);
      var before := PlanGroups(groups[..n], protected);
      var after := PlanGroups(groups, protected);
      CallsNonEmpty(before, groups[n].victims);
      forall a | a in after.calls ensures exists c :: Planned(after, a, c) {
        var mid := AddAllToPlan(before, groups[n].victims);
        if after != before {
          var c :| Planned(mid, a, c);
          assert Planned(after, a, c);
        }
      }
      forall t | t in after.absorbed ensures exists i :: 0 <= i < |groups| && groups[i].keep.toolIdx == t {
        AbsorbedUntouched(before, groups[n].victims);
        if t in before.absorbed {
          var i :| 0 <= i < n && groups[..n][i].keep.toolIdx == t;
          assert groups[i].keep.toolIdx == t;
        } else {
          assert groups[n].keep.toolIdx == t;
        }
      }
    }
  }

  lemma {:induction false} CallsNonEmpty(plan: Plan, vs: seq<Pair>)
    requires forall a | a in plan.calls :: exists c :: Planned(plan, a, c)
    ensures forall a | a in AddAllToPlan(plan, vs).calls :: exists c :: Planned(AddAllToPlan(plan, vs), a, c)
  {
    if vs != [] {
      var n := |vs| - 1;
      CallsNonEmpty(plan, vs[..n]);
      var before := AddAllToPlan(plan, vs[..n]);
      var after := AddAllToPlan(plan, vs);
      forall a | a in after.calls ensures exists c :: Planned(after, a, c) {
        if a == vs[n].assistantIdx {
          assert Planned(after, a, vs[n].callIdx);
        } else {
          var c :| Planned(before, a, c);
          assert Planned(after, a, c);
        }
      }
    }
  }

  lemma {:induction false} AbsorbedUntouched(plan: Plan, vs: seq<Pair>)
    ensures AddAllToPlan(plan, vs).absorbed == plan.absorbed
  {
    if vs != [] { AbsorbedUntouched(plan, vs[..|vs| - 1]); }
  }

  function MergePlan(msgs: seq<Message>, rounds: nat): Plan {
    var pairs := ToolPairs(msgs);
    var protected := ProtectedTools(pairs, rounds);
    PlanGroups(Groups(pairs, protected).groups, protected)
  }

  /** The pair whose result stands at t is redundant. */
  ghost predicate RedundantResult(msgs: seq<Message>, rounds: nat, t: nat) {
    var pairs := ToolPairs(msgs);
    exists k :: 0 <= k < |pairs| && pairs[k].toolIdx == t && Redundant(pairs, ProtectedTools(pairs, rounds), k)
  }

  ghost predicate RedundantCall(msgs: seq<Message>, rounds: nat, a: nat, c: nat) {
    var pairs := ToolPairs(msgs);
    exists k :: 0 <= k < |pairs| && pairs[k].assistantIdx == a && pairs[k].callIdx == c &&
                Redundant(pairs, ProtectedTools(pairs, rounds), k)
  }

  lemma {:induction false} PlanIsRedundant(msgs: seq<Message>, rounds: nat)
    ensures forall t :: t in MergePlan(msgs, rounds).tools <==> RedundantResult(msgs, rounds, t)
    ensures forall a, c :: Planned(MergePlan(msgs, rounds), a, c) <==> RedundantCall(msgs, rounds, a, c)
  {
    hide ToolPairs, ProtectedTools, Redundant;
    var pairs := ToolPairs(msgs);
    var protected := ProtectedTools(pairs, rounds);
    var g := GroupPairs(pairs, protected);
    RepresentativesUnprotected(pairs, protected);
    AttachKeepsRepresentatives(g, g.pending, pairs, protected);
    var final := Groups(pairs, protected);
    PlannedGroups(final.groups, protected);
    forall v ensures VictimOf(final.groups, v) <==>
                     exists k :: 0 <= k < |pairs| && pairs[k] == v && Redundant(pairs, protected, k)
    {
      VictimsAreRedundant(pairs, protected, v);
      assert VictimOf(final.groups, v) <==> IsVictim(final, v);
    }
    forall t ensures t in MergePlan(msgs, rounds).tools <==> RedundantResult(msgs, rounds, t) {
      if RedundantResult(msgs, rounds, t) {
        var k :| 0 <= k < |pairs| && pairs[k].toolIdx == t && Redundant(pairs, protected, k);
        assert VictimOf(final.groups, pairs[k]);
      }
    }
    forall a, c ensures Planned(MergePlan(msgs, rounds), a, c) <==> RedundantCall(msgs, rounds, a, c) {
      if RedundantCall(msgs, rounds, a, c) {
        var k :| 0 <= k < |pairs| && pairs[k].assistantIdx == a && pairs[k].callIdx == c &&
                 Redundant(pairs, protected, k);
        assert VictimOf(final.groups, pairs[k]);
      }
    }
  }

  // ---- rebuilding the context -----------------------------------------------------------------

  /** Something worth keeping besides calls. */
  predicate HasVisibleValue(m: Message) {
    !IsBlank(m.reasoning) || !IsBlank(m.signature) ||
    exists c | c in m.content :: c.kind != TextBlock || !IsBlank(c.text)
  }

  function CallsLeft(calls: seq<Call>, gone: set<nat>): (left: seq<Call>) {
    if calls == [] then []
    else
      var j := |calls| - 1;
      CallsLeft(calls[..j], gone) + (if j in gone then [] else [calls[j]])
  }

  function Edited(msgs: seq<Message>, plan: Plan, i: nat): Message
    requires i < |msgs|
  {
    if i in plan.calls then msgs[i].(calls := CallsLeft(msgs[i].calls, plan.calls[i])) else msgs[i]
  }

  predicate LeftEmpty(m: Message) {
    m.calls == [] && !HasVisibleValue(m)
  }

  function Deleted(msgs: seq<Message>, plan: Plan): set<nat> {
    plan.tools + set i | i in plan.calls && i < |msgs| && LeftEmpty(Edited(msgs, plan, i))
  }

  /** The kept positions below n, in order. */
  function Survivors(gone: set<nat>, n: nat): (s: seq<nat>)
    ensures |s| <= n && forall j | 0 <= j < |s| :: s[j] < n
  {
    if n == 0 then [] else Survivors(gone, n - 1) + (if n - 1 in gone then [] else [n - 1])
  }

  /** oldToNew */
  function NewIndex(gone: set<nat>, n: nat): map<nat, nat> {
    if n == 0 then map[]
    else if n - 1 in gone then NewIndex(gone, n - 1)
    else NewIndex(gone, n - 1)[n - 1 := |Survivors(gone, n - 1)|]
  }

  lemma {:induction false} SurvivorsOrdered(gone: set<nat>, n: nat)
    ensures forall j, k | 0 <= j < k < |Survivors(gone, n)| :: Survivors(gone, n)[j] < Survivors(gone, n)[k]
  {
    if n > 0 { SurvivorsOrdered(gone, n - 1); }
  }

  ghost predicate Inverse(kept: seq<nat>, index: map<nat, nat>) {
    && (forall i | i in index :: index[i] < |kept| && kept[index[i]] == i)
    && (forall j | 0 <= j < |kept| :: kept[j] in index && index[kept[j]] == j)
  }

  /** Renumbering is a bijection from the kept old positions onto the new ones. */
  lemma {:induction false} NewIndexIsRank(gone: set<nat>, n: nat)
    ensures forall i: nat :: i in NewIndex(gone, n) <==> i < n && i !in gone
    ensures Inverse(Survivors(gone, n), NewIndex(gone, n))
  {
    if n > 0 {
      NewIndexIsRank(gone, n - 1);
      var kept, index := Survivors(gone, n), NewIndex(gone, n);
      var kept', index' := Survivors(gone, n - 1), NewIndex(gone, n - 1);
      forall j | 0 <= j < |kept| ensures kept[j] in index && index[kept[j]] == j {
        if j < |kept'| { assert kept[j] == kept'[j]; }
      }
    }
  }

  function Renumber(t: Text, index: map<nat, nat>): (r: Text)
    ensures |r| == |t|
  {
    seq(|t|, k requires 0 <= k < |t| =>
      if t[k].Ref? && t[k].n in index then Ref(index[t[k].n]) else t[k])
  }

  function WithFirstText(m: Message, t: Text): Message
    requires m.content != []
  {
    m.(content := m.content[0 := m.content[0].(text := t)])
  }

  predicate IsPlaceholderResult(m: Message) {
    m.role == Tool && m.content != [] && IsSlimPlaceholder(m.content[0].text)
  }

  function Renumbered(m: Message, index: map<nat, nat>): Message {
    if IsPlaceholderResult(m) then WithFirstText(m, Renumber(m.content[0].text, index)) else m
  }

  /** The line a representative gets for the results it absorbed. */
  function MergeNote(n: nat): Text { [Lit("\n[slim: merged " + Strings.Decimal(n) + " repeated calls]")] }

  function Noted(m: Message, n: nat): Message {
    if m.role == Tool && m.content != [] then WithFirstText(m, m.content[0].text + MergeNote(n)) else m
  }

  function Final(msgs: seq<Message>, plan: Plan, index: map<nat, nat>, i: nat): Message
    requires i < |msgs|
  {
    var m := Renumbered(Edited(msgs, plan, i), index);
    if i in plan.absorbed then Noted(m, plan.absorbed[i]) else m
  }

  function Rebuilt(msgs: seq<Message>, plan: Plan): seq<Message> {
    var gone := Deleted(msgs, plan);
    var kept := Survivors(gone, |msgs|);
    var index := NewIndex(gone, |msgs|);
    seq(|kept|, j requires 0 <= j < |kept| => Final(msgs, plan, index, kept[j]))
  }

  function Rounds(protectRounds: int): nat {
    if protectRounds <= 0 then DEFAULT_PROTECT_ROUNDS else protectRounds
  }

  /** The merge as a function of the context: None when nothing is deleted. */
  function Merged(msgs: seq<Message>, protectRounds: int): Option<seq<Message>> {
    var plan := MergePlan(msgs, Rounds(protectRounds));
    if |ToolPairs(msgs)| < 2 || plan.tools == {} then None else Some(Rebuilt(msgs, plan))
  }

  // ---- the loops ------------------------------------------------------------------------------

  method GroupByCall(pairs: seq<Pair>, protected: set<nat>) returns (g: Grouping)
    ensures g == Groups(pairs, protected)
  {
    g := Grouping([], map[], []);
    for i := 0 to |pairs|
      invariant g == GroupPairs(pairs[..i], protected)
    {
      assert pairs[..i + 1][..i] == pairs[..i];
      var p := pairs[i];
      if p.image || p.toolIdx in protected {
        continue;
      }
      if IsSlimPlaceholder(p.text) {
        g := g.(pending := g.pending + [p]);
        continue;
      }
      if KeyOf(p) !in g.byKey {
        g := NewGroup(g, p);
        continue;
      }
      var at := g.byKey[KeyOf(p)];
      if p.text == g.groups[at].keep.text {
        g := AddVictim(g, at, g.groups[at].keep, p);
        continue;
      }
      if p.name == "read_file" {
        g := AddVictim(g, at, p, p);
        continue;
      }
      g := NewGroup(g, p);
    }
    assert pairs[..|pairs|] == pairs;
    var pending := g.pending;
    ghost var grouped := g;
    for i := 0 to |pending|
      invariant ValidGrouping(g) && g == AttachPending(grouped, pending[..i])
    {
      assert pending[..i + 1][..i] == pending[..i];
      var p := pending[i];
      if KeyOf(p) in g.byKey {
        var at := g.byKey[KeyOf(p)];
        g := AddVictim(g, at, g.groups[at].keep, p);
      }
    }
    assert pending[..|pending|] == pending;
  }

  method PlanDeletions(groups: seq<Group>, protected: set<nat>) returns (plan: Plan)
    ensures plan == PlanGroups(groups, protected)
  {
    plan := Plan({}, map[], map[]);
    for i := 0 to |groups|
      invariant plan == PlanGroups(groups[..i], protected)
    {
      assert groups[..i + 1][..i] == groups[..i];
      var g := groups[i];
      if g.victims == [] || g.keep.toolIdx in protected {
        continue;
      }
      ghost var before := plan;
      for j := 0 to |g.victims|
        invariant plan == AddAllToPlan(before, g.victims[..j])
      {
        assert g.victims[..j + 1][..j] == g.victims[..j];
        plan := AddToPlan(plan, g.victims[j]);
      }
      assert g.victims[..|g.victims|] == g.victims;
      var t := g.keep.toolIdx;
      plan := plan.(absorbed := plan.absorbed[t := (if t in plan.absorbed then plan.absorbed[t] else 0) + |g.victims|]);
    }
    assert groups[..|groups|] == groups;
  }

  method RemoveCalls(calls: seq<Call>, gone: set<nat>) returns (left: seq<Call>)
    ensures left == CallsLeft(calls, gone)
  {
    left := [];
    for j := 0 to |calls|
      invariant left == CallsLeft(calls[..j], gone)
    {
      assert calls[..j + 1][..j] == calls[..j];
      if j in gone {
        continue;
      }
      left := left + [calls[j]];
    }
    assert calls[..|calls|] == calls;
  }

  ghost predicate PlanFits(msgs: seq<Message>, plan: Plan) {
    && (forall t | t in plan.tools :: t < |msgs| && msgs[t].role == Tool)
    && (forall a | a in plan.calls :: a < |msgs| && msgs[a].role == Assistant)
    && (forall t | t in plan.absorbed :: t < |msgs| && msgs[t].role == Tool)
  }

  lemma {:induction false} PlanFitsContext(msgs: seq<Message>, rounds: nat)
    ensures PlanFits(msgs, MergePlan(msgs, rounds))
  {
    var plan := MergePlan(msgs, rounds);
    var pairs := ToolPairs(msgs);
    var protected := ProtectedTools(pairs, rounds);
    var sites := CallSites(msgs);
    var g := GroupPairs(pairs, protected);
    PlanIsRedundant(msgs, rounds);
    PlanBookkeeping(Groups(pairs, protected).groups, protected);
    RepresentativesUnprotected(pairs, protected);
    AttachKeepsRepresentatives(g, g.pending, pairs, protected);
    forall a | a in plan.calls ensures a < |msgs| && msgs[a].role == Assistant {
      var c :| Planned(plan, a, c);
      assert RedundantCall(msgs, rounds, a, c);
      var k :| 0 <= k < |pairs| && pairs[k].assistantIdx == a && pairs[k].callIdx == c &&
               Redundant(pairs, protected, k);
      assert pairs[k] in pairs && pairs[k] == PairAt(msgs, sites, pairs[k].toolIdx);
      assert ValidSite(msgs, msgs[pairs[k].toolIdx].toolId, sites[msgs[pairs[k].toolIdx].toolId]);
    }
    forall t | t in plan.tools ensures t < |msgs| && msgs[t].role == Tool {
      assert RedundantResult(msgs, rounds, t);
      var k :| 0 <= k < |pairs| && pairs[k].toolIdx == t && Redundant(pairs, protected, k);
      assert pairs[k] in pairs;
    }
  }

  /** mergeToolPairs: assistants whose last call goes and that show nothing go too; the rest of
      the context keeps its order. */
  method MergeToolPairs(ac: AgentContext, protectRounds: int) returns (merged: bool)
    requires forall i | 0 <= i < |ac.messages| :: ac.messages[i].role == Tool ==> ac.messages[i].content != []
    modifies ac
    ensures merged == Merged(old(ac.messages), protectRounds).Some?
    ensures ac.messages == if merged then Merged(old(ac.messages), protectRounds).value else old(ac.messages)
  {
    ghost var msgs := ac.messages;
    var pairs := CollectToolPairs(ac.messages);
    if |pairs| < 2 {
      return false;
    }
    var rounds := protectRounds;
    if rounds <= 0 {
      rounds := DEFAULT_PROTECT_ROUNDS;
    }
    var protected := ProtectedTools(pairs, rounds);
    var grouping := GroupByCall(pairs, protected);
    var plan := PlanDeletions(grouping.groups, protected);
    assert plan == MergePlan(msgs, Rounds(protectRounds));
    if plan.tools == {} {
      return false;
    }
    PlanFitsContext(msgs, rounds);
    Rebuild(ac, plan);
    return true;
  }

  method Rebuild(ac: AgentContext, plan: Plan)
    requires forall i | 0 <= i < |ac.messages| :: ac.messages[i].role == Tool ==> ac.messages[i].content != []
    requires PlanFits(ac.messages, plan)
    modifies ac
    ensures ac.messages == Rebuilt(old(ac.messages), plan)
  {
    ghost var msgs := ac.messages;
    var gone := RewriteAssistants(ac, plan);
    var kept, index := Compact(ac, gone);
    NewIndexIsRank(gone, |msgs|);
    forall j | 0 <= j < |kept| ensures ac.messages[j] == Edited(msgs, plan, kept[j]) {
      assert kept[j] in index;
    }
    RenumberPlaceholders(ac, msgs, plan, kept, index);
    NoteRepresentatives(ac, msgs, plan, kept, index);
    assert ac.messages == Rebuilt(msgs, plan);
  }

  /** Rewrites the references in the surviving placeholders. */
  method RenumberPlaceholders(ac: AgentContext, ghost msgs: seq<Message>, ghost plan: Plan, ghost kept: seq<nat>,
                              index: map<nat, nat>)
    requires forall i | 0 <= i < |msgs| :: msgs[i].role == Tool ==> msgs[i].content != []
    requires |ac.messages| == |kept| && forall j | 0 <= j < |kept| :: kept[j] < |msgs|
    requires forall j | 0 <= j < |kept| :: ac.messages[j] == Edited(msgs, plan, kept[j])
    modifies ac
    ensures |ac.messages| == |kept|
    ensures forall j | 0 <= j < |kept| :: ac.messages[j] == Renumbered(Edited(msgs, plan, kept[j]), index)
  {
    for i := 0 to |ac.messages|
      invariant |ac.messages| == |kept|
      invariant forall j | 0 <= j < i :: ac.messages[j] == Renumbered(Edited(msgs, plan, kept[j]), index)
      invariant forall j | i <= j < |kept| :: ac.messages[j] == Edited(msgs, plan, kept[j])
    {
      var m := ac.messages[i];
      assert m == Edited(msgs, plan, kept[i]);
      if m.role != Tool || !IsSlimPlaceholder(m.content[0].text) {
        continue;
      }
      ac.messages := ac.messages[i := WithFirstText(m, Renumber(m.content[0].text, index))];
    }
  }

  /** Takes the deleted calls out of their assistants, in place, and lists what is to go. */
  method RewriteAssistants(ac: AgentContext, plan: Plan) returns (gone: set<nat>)
    requires PlanFits(ac.messages, plan)
    modifies ac
    ensures gone == Deleted(old(ac.messages), plan)
    ensures |ac.messages| == |old(ac.messages)|
    ensures forall i | 0 <= i < |ac.messages| && i !in gone :: ac.messages[i] == Edited(old(ac.messages), plan, i)
  {
    ghost var msgs := ac.messages;
    gone := plan.tools;
    var todo := plan.calls.Keys;
    while todo != {}
      invariant todo <= plan.calls.Keys && |ac.messages| == |msgs|
      invariant gone == plan.tools + set a | a in plan.calls.Keys - todo && LeftEmpty(Edited(msgs, plan, a))
      invariant forall i | 0 <= i < |msgs| :: ac.messages[i] ==
                  if i in plan.calls && i !in todo && i !in gone then Edited(msgs, plan, i) else msgs[i]
    {
      var a :| a in todo;
      var left := RemoveCalls(ac.messages[a].calls, plan.calls[a]);
      var m := ac.messages[a].(calls := left);
      assert m == Edited(msgs, plan, a);
      if left == [] && !HasVisibleValue(m) {
        gone := gone + {a};
      } else {
        ac.messages := ac.messages[a := m];
      }
      todo := todo - {a};
    }
  }

  /** Drops the deleted positions. */
  method Compact(ac: AgentContext, gone: set<nat>) returns (ghost kept: seq<nat>, index: map<nat, nat>)
    modifies ac
    ensures kept == Survivors(gone, |old(ac.messages)|) && index == NewIndex(gone, |old(ac.messages)|)
    ensures |ac.messages| == |kept|
    ensures forall j | 0 <= j < |kept| :: ac.messages[j] == old(ac.messages)[kept[j]]
  {
    var out: seq<Message> := [];
    index := map[];
    kept := [];
    for i := 0 to |ac.messages|
      invariant ac.messages == old(ac.messages)
      invariant kept == Survivors(gone, i) && index == NewIndex(gone, i) && |out| == |kept|
      invariant forall j | 0 <= j < |kept| :: out[j] == ac.messages[kept[j]]
    {
      if i in gone {
        continue;
      }
      index := index[i := |out|];
      out := out + [ac.messages[i]];
      kept := kept + [i];
    }
    ac.messages := out;
  }

  /** Leaves a note on each representative that is still there. */
  method NoteRepresentatives(ac: AgentContext, ghost msgs: seq<Message>, plan: Plan, ghost kept: seq<nat>,
                             index: map<nat, nat>)
    requires kept == Survivors(Deleted(msgs, plan), |msgs|) && index == NewIndex(Deleted(msgs, plan), |msgs|)
    requires |ac.messages| == |kept|
    requires forall j | 0 <= j < |kept| :: ac.messages[j] == Renumbered(Edited(msgs, plan, kept[j]), index)
    modifies ac
    ensures |ac.messages| == |kept|
    ensures forall j | 0 <= j < |kept| :: ac.messages[j] == Final(msgs, plan, index, kept[j])
  {
    NewIndexIsRank(Deleted(msgs, plan), |msgs|);
    var todo := plan.absorbed.Keys;
    while todo != {}
      invariant todo <= plan.absorbed.Keys && |ac.messages| == |kept|
      invariant forall j | 0 <= j < |kept| :: ac.messages[j] ==
                  if kept[j] in todo then Renumbered(Edited(msgs, plan, kept[j]), index)
                  else Final(msgs, plan, index, kept[j])
    {
      var t :| t in todo;
      todo := todo - {t};
      if t in index {
        var m := ac.messages[index[t]];
        if m.role == Tool && m.content != [] {
          ac.messages := ac.messages[index[t] := WithFirstText(m, m.content[0].text + MergeNote(plan.absorbed[t]))];
        }
      }
    }
  }
}
