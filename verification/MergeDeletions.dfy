/** Which messages a merge of tool pairs deletes, said of the messages themselves
    (agents/merge_pairs.go). */
module MergeDeletions {
  import opened Messages
  import opened Context
  import opened MergePairs
  import opened MergeTheorems

  // ---- results and the calls they answer -------------------------------------------------------------

  ghost predicate CallAt(msgs: seq<Message>, id: string, a: int, c: int) {
    0 <= a < |msgs| && msgs[a].role == Assistant && 0 <= c < |msgs[a].calls| && msgs[a].calls[c].id == id
  }

  /** The last call with the id. */
  ghost predicate LastCall(msgs: seq<Message>, id: string, a: int, c: int) {
    CallAt(msgs, id, a, c) && forall a', c' | CallAt(msgs, id, a', c') :: a' < a || (a' == a && c' <= c)
  }

  /** A tool result whose call is in the context. */
  ghost predicate IsPaired(msgs: seq<Message>, t: int) {
    0 <= t < |msgs| && msgs[t].role == Tool && exists a, c :: CallAt(msgs, msgs[t].toolId, a, c)
  }

  /** Both answer calls of the same tool with the same arguments. */
  ghost predicate SameCall(msgs: seq<Message>, s: int, t: int)
    requires 0 <= s < |msgs| && 0 <= t < |msgs|
  {
    exists a, c, a', c' :: LastCall(msgs, msgs[s].toolId, a, c) && LastCall(msgs, msgs[t].toolId, a', c') &&
                           Alike(msgs, a, c, a', c')
  }

  predicate HasCallAt(msgs: seq<Message>, a: int, c: int) { 0 <= a < |msgs| && 0 <= c < |msgs[a].calls| }

  predicate Alike(msgs: seq<Message>, a: int, c: int, a': int, c': int) {
    && HasCallAt(msgs, a, c) && HasCallAt(msgs, a', c')
    && msgs[a].calls[c].name == msgs[a'].calls[c'].name && msgs[a].calls[c].args == msgs[a'].calls[c'].args
  }

  predicate IsReadCall(msgs: seq<Message>, a: int, c: int) {
    HasCallAt(msgs, a, c) && msgs[a].calls[c].name == "read_file"
  }

  ghost predicate AnswersRead(msgs: seq<Message>, t: int)
    requires 0 <= t < |msgs|
  {
    exists a, c :: LastCall(msgs, msgs[t].toolId, a, c) && IsReadCall(msgs, a, c)
  }

  /** The paired results behind t. */
  ghost function Later(msgs: seq<Message>, t: int): set<int> { set u | t < u < |msgs| && IsPaired(msgs, u) }

  /** A paired result without image that is not among the last `rounds` ones. */
  ghost predicate Mergeable(msgs: seq<Message>, rounds: nat, t: int) {
    && IsPaired(msgs, t) && |Later(msgs, t)| >= rounds
    && forall b | b in msgs[t].content :: b.kind != ImageBlock
  }

  predicate IsPlaceholder(m: Message) { m.content != [] && IsSlimPlaceholder(m.content[0].text) }

  /** It says something of its own. */
  ghost predicate Telling(msgs: seq<Message>, rounds: nat, t: int) {
    Mergeable(msgs, rounds, t) && !IsPlaceholder(msgs[t])
  }

  predicate SameWords(m: Message, n: Message) {
    (if m.content == [] then [] else m.content[0].text) == (if n.content == [] then [] else n.content[0].text)
  }

  /** s is the last telling result before t for the same call. */
  ghost predicate ToldBefore(msgs: seq<Message>, rounds: nat, s: int, t: int)
    requires 0 <= t < |msgs|
  {
    && 0 <= s < t && Telling(msgs, rounds, s) && SameCall(msgs, s, t)
    && forall u | s < u < t :: !(Telling(msgs, rounds, u) && SameCall(msgs, u, t))
  }

  /** A result the merge may do without: a placeholder of a call some other result still tells about, or
      one whose last telling repetition said the same - of a file read, anything. */
  ghost predicate Dispensable(msgs: seq<Message>, rounds: nat, t: int)
    requires 0 <= t < |msgs|
  {
    && Mergeable(msgs, rounds, t)
    && if IsPlaceholder(msgs[t]) then exists s | 0 <= s < |msgs| :: Telling(msgs, rounds, s) && SameCall(msgs, s, t)
       else exists s :: ToldBefore(msgs, rounds, s, t) && (AnswersRead(msgs, t) || SameWords(msgs[s], msgs[t]))
  }

  // ---- calls and pairs -------------------------------------------------------------------------------

  lemma {:induction false} AddedSites(before: map<string, Site>, i: nat, calls: seq<Call>, id: string)
    ensures var sites := AddSites(before, i, calls);
            if exists j | 0 <= j < |calls| :: calls[j].id == id then
              && id in sites && sites[id].0 == i && sites[id].1 < |calls| && calls[sites[id].1].id == id
              && forall j | sites[id].1 < j < |calls| :: calls[j].id != id
            else (id in sites <==> id in before) && (id in sites ==> sites[id] == before[id])
  {
    if calls != [] {
      var n := |calls| - 1;
      AddedSites(before, i, calls[..n], id);
    }
  }

  ghost predicate CallsId(m: Message, id: string) {
    m.role == Assistant && exists j | 0 <= j < |m.calls| :: m.calls[j].id == id
  }

  lemma {:induction false} SiteStep(msgs: seq<Message>, id: string)
    requires msgs != []
    ensures var n := |msgs| - 1;
            var before, sites := CallSites(msgs[..n]), CallSites(msgs);
            if CallsId(msgs[n], id) then
              && id in sites && sites[id].0 == n && CallAt(msgs, id, n, sites[id].1)
              && forall j | sites[id].1 < j < |msgs[n].calls| :: msgs[n].calls[j].id != id
            else (id in sites <==> id in before) && (id in sites ==> sites[id] == before[id])
  {
    var n := |msgs| - 1;
    AddedSites(CallSites(msgs[..n]), n, msgs[n].calls, id);
    hide AddSites, ValidSites;
  }

  lemma {:induction false} SitesAreLast(msgs: seq<Message>, id: string)
    ensures id in CallSites(msgs) <==> exists a, c :: CallAt(msgs, id, a, c)
    ensures id in CallSites(msgs) ==> LastCall(msgs, id, CallSites(msgs)[id].0, CallSites(msgs)[id].1)
  {
    hide CallSites, ValidSites;
    if msgs == [] {
      NoSites();
    } else {
      var n := |msgs| - 1;
      SitesAreLast(msgs[..n], id);
      SiteStep(msgs, id);
      forall a, c | a < n ensures CallAt(msgs[..n], id, a, c) == CallAt(msgs, id, a, c) {}
      forall c | CallAt(msgs, id, n, c) ensures CallsId(msgs[n], id) {}
      if id in CallSites(msgs) {
        var site := CallSites(msgs)[id];
        if !CallsId(msgs[n], id) { assert CallAt(msgs[..n], id, site.0, site.1); }
        assert CallAt(msgs, id, site.0, site.1);
      }
      if a, c :| CallAt(msgs, id, a, c) {
        assert a < n ==> CallAt(msgs[..n], id, a, c);
      }
    }
  }

  lemma {:induction false} NoSites()
    ensures CallSites([]) == map[]
  {
  }

  /** What the collected pairs say of the messages, word by word. */
  lemma {:induction false} PairMeans(msgs: seq<Message>, k: nat)
    requires k < |ToolPairs(msgs)|
    ensures var p := ToolPairs(msgs)[k];
            && IsPaired(msgs, p.toolIdx) && LastCall(msgs, msgs[p.toolIdx].toolId, p.assistantIdx, p.callIdx)
            && HasCallAt(msgs, p.assistantIdx, p.callIdx)
            && p.name == msgs[p.assistantIdx].calls[p.callIdx].name
            && p.args == msgs[p.assistantIdx].calls[p.callIdx].args
            && (p.image <==> exists b | b in msgs[p.toolIdx].content :: b.kind == ImageBlock)
            && (!p.image ==> p.text == if msgs[p.toolIdx].content == [] then [] else msgs[p.toolIdx].content[0].text)
  {
    hide LastCall;
    var p := ToolPairs(msgs)[k];
    assert p in ToolPairs(msgs);
    SitesAreLast(msgs, msgs[p.toolIdx].toolId);
    if msgs[p.toolIdx].content != [] { assert msgs[p.toolIdx].content[0] in msgs[p.toolIdx].content; }
  }

  lemma {:induction false} PairAtResult(msgs: seq<Message>, sites: map<string, Site>, n: nat, t: nat)
    returns (k: nat)
    requires t < n <= |msgs| && ValidSites(msgs, sites) && msgs[t].role == Tool && msgs[t].toolId in sites
    ensures k < |PairsUpTo(msgs, sites, n)| && PairsUpTo(msgs, sites, n)[k].toolIdx == t
  {
    hide PairAt;
    var before, now := PairsUpTo(msgs, sites, n - 1), PairsUpTo(msgs, sites, n);
    assert before <= now;
    if t == n - 1 {
      k := |before|;
      LastPairAt(msgs, sites, t);
    } else {
      k := PairAtResult(msgs, sites, n - 1, t);
    }
  }

  lemma {:induction false} LastPairAt(msgs: seq<Message>, sites: map<string, Site>, t: nat)
    requires t < |msgs| && ValidSites(msgs, sites) && msgs[t].role == Tool && msgs[t].toolId in sites
    ensures PairAt(msgs, sites, t).toolIdx == t
    ensures PairsUpTo(msgs, sites, t + 1) == PairsUpTo(msgs, sites, t) + [PairAt(msgs, sites, t)]
  {
  }

  /** Every paired result has its pair. */
  lemma {:induction false} ResultHasPair(msgs: seq<Message>, t: nat) returns (k: nat)
    requires IsPaired(msgs, t)
    ensures k < |ToolPairs(msgs)| && ToolPairs(msgs)[k].toolIdx == t
  {
    SitesAreLast(msgs, msgs[t].toolId);
    k := PairAtResult(msgs, CallSites(msgs), |msgs|, t);
  }

  lemma {:induction false} SizeOfOrdered(xs: seq<int>)
    requires forall i, j | 0 <= i < j < |xs| :: xs[i] < xs[j]
    ensures |set x | x in xs| == |xs|
  {
    if xs != [] {
      var n := |xs| - 1;
      SizeOfOrdered(xs[..n]);
      assert xs == xs[..n] + [xs[n]] && xs[n] !in xs[..n];
      assert (set x | x in xs) == (set x | x in xs[..n]) + {xs[n]};
    }
  }

  ghost function Places(pairs: seq<Pair>, k: nat): seq<int>
    requires k <= |pairs|
  {
    seq(|pairs| - k, i requires 0 <= i < |pairs| - k => pairs[k + i].toolIdx)
  }

  /** How many paired results stand behind that of a pair. */
  lemma {:induction false} LaterCount(msgs: seq<Message>, k: nat)
    requires k < |ToolPairs(msgs)|
    ensures |Later(msgs, ToolPairs(msgs)[k].toolIdx)| == |ToolPairs(msgs)| - 1 - k
  {
    hide ToolPairs, IsPaired;
    var pairs := ToolPairs(msgs);
    var places := Places(pairs, k + 1);
    PairsInOrder(msgs);
    SizeOfOrdered(places);
    forall u ensures u in Later(msgs, pairs[k].toolIdx) <==> u in places {
      if u in Later(msgs, pairs[k].toolIdx) {
        var h := ResultHasPair(msgs, u);
        assert h > k && places[h - k - 1] == u;
      }
      if u in places {
        var i :| 0 <= i < |places| && places[i] == u;
        PairMeans(msgs, k + 1 + i);
      }
    }
    assert Later(msgs, pairs[k].toolIdx) == set x | x in places;
  }

  lemma {:induction false} LiveIff(msgs: seq<Message>, rounds: nat, k: nat)
    requires k < |ToolPairs(msgs)|
    ensures var pairs, t := ToolPairs(msgs), ToolPairs(msgs)[k].toolIdx;
            && t < |msgs|
            && (Live(pairs, ProtectedTools(pairs, rounds), k) <==> Mergeable(msgs, rounds, t))
            && (Real(pairs, ProtectedTools(pairs, rounds), k) <==> Telling(msgs, rounds, t))
  {
    hide ToolPairs, ProtectedTools, IsPaired, LastCall, Later;
    PairMeans(msgs, k);
    LaterCount(msgs, k);
    ProtectedIff(msgs, rounds);
    PairsInOrder(msgs);
  }

  lemma {:induction false} LastCallIsOne(msgs: seq<Message>, id: string, a: int, c: int, a': int, c': int)
    requires LastCall(msgs, id, a, c) && LastCall(msgs, id, a', c')
    ensures a == a' && c == c'
  {
  }

  lemma {:induction false} KeyIff(msgs: seq<Message>, h: nat, k: nat)
    requires h < |ToolPairs(msgs)| && k < |ToolPairs(msgs)|
    ensures var pairs := ToolPairs(msgs);
            && pairs[h].toolIdx < |msgs| && pairs[k].toolIdx < |msgs|
            && (KeyOf(pairs[h]) == KeyOf(pairs[k]) <==> SameCall(msgs, pairs[h].toolIdx, pairs[k].toolIdx))
            && (pairs[k].name == "read_file" <==> AnswersRead(msgs, pairs[k].toolIdx))
  {
    hide ToolPairs, IsPaired, LastCall;
    PairMeans(msgs, h);
    PairMeans(msgs, k);
    PairsInOrder(msgs);
    var p, q := ToolPairs(msgs)[h], ToolPairs(msgs)[k];
    var x, y := msgs[p.toolIdx].toolId, msgs[q.toolIdx].toolId;
    if a, c, a', c' :| LastCall(msgs, x, a, c) && LastCall(msgs, y, a', c') && Alike(msgs, a, c, a', c') {
      LastCallIsOne(msgs, x, a, c, p.assistantIdx, p.callIdx);
      LastCallIsOne(msgs, y, a', c', q.assistantIdx, q.callIdx);
    }
    if a, c :| LastCall(msgs, y, a, c) && IsReadCall(msgs, a, c) {
      LastCallIsOne(msgs, y, a, c, q.assistantIdx, q.callIdx);
    }
  }

  // ---- redundant pairs and dispensable results -------------------------------------------------------

  lemma {:induction false} PreviousIff(msgs: seq<Message>, rounds: nat, h: nat, k: nat)
    requires h < |ToolPairs(msgs)| && k < |ToolPairs(msgs)|
    ensures var pairs := ToolPairs(msgs);
            var s, t := pairs[h].toolIdx, pairs[k].toolIdx;
            && s < |msgs| && t < |msgs| && (h < k <==> s < t)
            && (Real(pairs, ProtectedTools(pairs, rounds), h) && KeyOf(pairs[h]) == KeyOf(pairs[k]) <==>
                Telling(msgs, rounds, s) && SameCall(msgs, s, t))
  {
    hide ToolPairs, ProtectedTools, Real, Telling, SameCall;
    LiveIff(msgs, rounds, h);
    KeyIff(msgs, h, k);
    PairsInOrder(msgs);
  }

  /** The telling results for the call of the k-th pair and their pairs. */
  lemma {:induction false} TellingPair(msgs: seq<Message>, rounds: nat, k: nat, s: int) returns (h: nat)
    requires k < |ToolPairs(msgs)| && 0 <= s < |msgs| && ToolPairs(msgs)[k].toolIdx < |msgs|
    requires Telling(msgs, rounds, s) && SameCall(msgs, s, ToolPairs(msgs)[k].toolIdx)
    ensures h < |ToolPairs(msgs)| && ToolPairs(msgs)[h].toolIdx == s
    ensures Real(ToolPairs(msgs), ProtectedTools(ToolPairs(msgs), rounds), h)
    ensures KeyOf(ToolPairs(msgs)[h]) == KeyOf(ToolPairs(msgs)[k])
  {
    h := ResultHasPair(msgs, s);
    PreviousIff(msgs, rounds, h, k);
  }

  lemma {:induction false} HasRealIff(msgs: seq<Message>, rounds: nat, k: nat)
    requires k < |ToolPairs(msgs)|
    ensures var pairs, t := ToolPairs(msgs), ToolPairs(msgs)[k].toolIdx;
            t < |msgs| && (HasReal(pairs, ProtectedTools(pairs, rounds), KeyOf(pairs[k]), |pairs|) <==>
                           exists s | 0 <= s < |msgs| :: Telling(msgs, rounds, s) && SameCall(msgs, s, t))
  {
    hide ToolPairs, ProtectedTools, Real, Telling, SameCall;
    var pairs := ToolPairs(msgs);
    var protected, t := ProtectedTools(pairs, rounds), pairs[k].toolIdx;
    PairsInOrder(msgs);
    if j :| Previous(pairs, protected, j, |pairs|) && KeyOf(pairs[j]) == KeyOf(pairs[k]) {
      PreviousIff(msgs, rounds, j, k);
    }
    if s :| 0 <= s < |msgs| && Telling(msgs, rounds, s) && SameCall(msgs, s, t) {
      var h := TellingPair(msgs, rounds, k, s);
      assert Previous(pairs, protected, h, |pairs|);
    }
  }

  lemma {:induction false} ToldBeforeIff(msgs: seq<Message>, rounds: nat, h: nat, k: nat)
    requires h < |ToolPairs(msgs)| && k < |ToolPairs(msgs)|
    ensures var pairs := ToolPairs(msgs);
            && pairs[k].toolIdx < |msgs|
            && (PreviousSame(pairs, ProtectedTools(pairs, rounds), KeyOf(pairs[k]), h, k) <==>
                ToldBefore(msgs, rounds, pairs[h].toolIdx, pairs[k].toolIdx))
  {
    hide ToolPairs, ProtectedTools, Real, Telling, SameCall;
    var pairs := ToolPairs(msgs);
    var protected, s, t := ProtectedTools(pairs, rounds), pairs[h].toolIdx, pairs[k].toolIdx;
    PairsInOrder(msgs);
    PreviousIff(msgs, rounds, h, k);
    forall i | h < i < k && Real(pairs, protected, i) && KeyOf(pairs[i]) == KeyOf(pairs[k])
      ensures s < pairs[i].toolIdx < t && Telling(msgs, rounds, pairs[i].toolIdx) && SameCall(msgs, pairs[i].toolIdx, t)
    {
      PreviousIff(msgs, rounds, i, k);
    }
    forall u | s < u < t && Telling(msgs, rounds, u) && SameCall(msgs, u, t)
      ensures exists i | h < i < k :: Real(pairs, protected, i) && KeyOf(pairs[i]) == KeyOf(pairs[k])
    {
      var i := TellingPair(msgs, rounds, k, u);
      PreviousIff(msgs, rounds, i, k);
      PreviousIff(msgs, rounds, h, i);
    }
  }

  lemma {:induction false} WordsIff(msgs: seq<Message>, rounds: nat, h: nat, k: nat)
    requires h < |ToolPairs(msgs)| && k < |ToolPairs(msgs)|
    requires !ToolPairs(msgs)[h].image && !ToolPairs(msgs)[k].image
    ensures var p, q := ToolPairs(msgs)[h], ToolPairs(msgs)[k];
            && p.toolIdx < |msgs| && q.toolIdx < |msgs|
            && (p.text == q.text <==> SameWords(msgs[p.toolIdx], msgs[q.toolIdx]))
            && (IsSlimPlaceholder(q.text) <==> IsPlaceholder(msgs[q.toolIdx]))
  {
    hide ToolPairs, IsPaired, LastCall;
    PairMeans(msgs, h);
    PairMeans(msgs, k);
    PairsInOrder(msgs);
  }

  lemma {:induction false} TellsLess(msgs: seq<Message>, rounds: nat, k: nat)
    requires k < |ToolPairs(msgs)| && Live(ToolPairs(msgs), ProtectedTools(ToolPairs(msgs), rounds), k)
    ensures var pairs := ToolPairs(msgs);
            var protected, t := ProtectedTools(pairs, rounds), pairs[k].toolIdx;
            && t < |msgs|
            && ((exists j :: PreviousSame(pairs, protected, KeyOf(pairs[k]), j, k) &&
                             (pairs[k].name == "read_file" || pairs[j].text == pairs[k].text)) <==>
                (exists s :: ToldBefore(msgs, rounds, s, t) && (AnswersRead(msgs, t) || SameWords(msgs[s], msgs[t]))))
  {
    hide ToolPairs, ProtectedTools, Telling, SameCall, AnswersRead, SameWords;
    var pairs := ToolPairs(msgs);
    var protected, t := ProtectedTools(pairs, rounds), pairs[k].toolIdx;
    KeyIff(msgs, k, k);
    var key, read := KeyOf(pairs[k]), pairs[k].name == "read_file";
    if j :| PreviousSame(pairs, protected, key, j, k) && (read || pairs[j].text == pairs[k].text) {
      ToldBeforeIff(msgs, rounds, j, k);
      WordsIff(msgs, rounds, j, k);
    }
    if s :| ToldBefore(msgs, rounds, s, t) && (AnswersRead(msgs, t) || SameWords(msgs[s], msgs[t])) {
      var h := TellingPair(msgs, rounds, k, s);
      ToldBeforeIff(msgs, rounds, h, k);
      WordsIff(msgs, rounds, h, k);
    }
  }

  lemma {:induction false} RedundantIsDispensable(msgs: seq<Message>, rounds: nat, k: nat)
    requires k < |ToolPairs(msgs)|
    ensures var pairs := ToolPairs(msgs);
            && pairs[k].toolIdx < |msgs|
            && (Redundant(pairs, ProtectedTools(pairs, rounds), k) <==> Dispensable(msgs, rounds, pairs[k].toolIdx))
  {
    hide ToolPairs, ProtectedTools, Telling, SameCall, AnswersRead, SameWords, Mergeable, ToldBefore, HasReal,
         PreviousSame;
    LiveIff(msgs, rounds, k);
    if Mergeable(msgs, rounds, ToolPairs(msgs)[k].toolIdx) {
      WordsIff(msgs, rounds, k, k);
      HasRealIff(msgs, rounds, k);
      TellsLess(msgs, rounds, k);
    }
  }

  /** The merge deletes exactly the dispensable results. */
  lemma {:induction false} ResultGoesIff(msgs: seq<Message>, rounds: nat, t: nat)
    requires t < |msgs| && msgs[t].role == Tool
    ensures t in Deleted(msgs, MergePlan(msgs, rounds)) <==> Dispensable(msgs, rounds, t)
  {
    hide ToolPairs, ProtectedTools, MergePlan, Deleted, Mergeable;
    if IsPaired(msgs, t) {
      var k := ResultHasPair(msgs, t);
      ResultDeletedIff(msgs, rounds, k);
      RedundantIsDispensable(msgs, rounds, k);
    } else {
      if t in Deleted(msgs, MergePlan(msgs, rounds)) { DeletedIsPaired(msgs, rounds, t); }
      NotMergeable(msgs, rounds, t);
    }
  }

  lemma {:induction false} NotMergeable(msgs: seq<Message>, rounds: nat, t: nat)
    ensures !IsPaired(msgs, t) ==> !Mergeable(msgs, rounds, t)
  {
  }

  lemma {:induction false} DeletedIsPaired(msgs: seq<Message>, rounds: nat, t: nat)
    requires t < |msgs| && msgs[t].role == Tool && t in Deleted(msgs, MergePlan(msgs, rounds))
    ensures IsPaired(msgs, t)
  {
    hide ToolPairs, MergePlan, IsPaired;
    ToolIsPlanned(msgs, rounds, t);
    PlanIsRedundant(msgs, rounds);
    var k :| 0 <= k < |ToolPairs(msgs)| && ToolPairs(msgs)[k].toolIdx == t;
    PairMeans(msgs, k);
  }

  /** The context changes exactly when some result is dispensable. */
  lemma {:induction false} MergesIff(msgs: seq<Message>, protectRounds: int)
    ensures Merged(msgs, protectRounds).Some? <==>
            exists t | 0 <= t < |msgs| && msgs[t].role == Tool ::
              Dispensable(msgs, if protectRounds <= 0 then 2 else protectRounds, t)
  {
    hide ToolPairs, MergePlan, Dispensable, Deleted;
    var rounds: nat := if protectRounds <= 0 then 2 else protectRounds;
    assert Rounds(protectRounds) == rounds;
    PlanFitsContext(msgs, rounds);
    PlanIsRedundant(msgs, rounds);
    var plan := MergePlan(msgs, rounds);
    if t: nat :| t in plan.tools {
      TwoPairs(msgs, rounds, t);
      PlannedIsDeleted(msgs, plan, t);
      ResultGoesIff(msgs, rounds, t);
    }
    if t: nat :| t < |msgs| && msgs[t].role == Tool && Dispensable(msgs, rounds, t) {
      ResultGoesIff(msgs, rounds, t);
      ToolIsPlanned(msgs, rounds, t);
      TwoPairs(msgs, rounds, t);
    }
  }

  lemma {:induction false} PlannedIsDeleted(msgs: seq<Message>, plan: Plan, t: nat)
    requires t in plan.tools
    ensures t in Deleted(msgs, plan)
  {
  }

  lemma {:induction false} TwoPairs(msgs: seq<Message>, rounds: nat, t: nat)
    requires RedundantResult(msgs, rounds, t)
    ensures |ToolPairs(msgs)| >= 2 && t < |msgs| && msgs[t].role == Tool
  {
    hide ToolPairs, ProtectedTools;
    var pairs := ToolPairs(msgs);
    var k :| 0 <= k < |pairs| && pairs[k].toolIdx == t && Redundant(pairs, ProtectedTools(pairs, rounds), k);
    var h := RedundantHasSurvivor(pairs, ProtectedTools(pairs, rounds), k);
    PairsInOrder(msgs);
  }

  // ---- the assistants -----------------------------------------------------------------------------------

  /** Nothing to see besides calls. */
  predicate ShowsNothing(m: Message) {
    && (forall p | p in m.reasoning :: BlankPart(p)) && (forall p | p in m.signature :: BlankPart(p))
    && forall b | b in m.content :: b.kind == TextBlock && forall p | p in b.text :: BlankPart(p)
  }

  predicate BlankPart(p: Part) { p.Lit? && forall c | c in p.s :: IsSpace(c) }

  /** The result of the call is dispensable. */
  ghost predicate CallGoes(msgs: seq<Message>, rounds: nat, id: string) {
    exists t | 0 <= t < |msgs| && msgs[t].role == Tool :: msgs[t].toolId == id && Dispensable(msgs, rounds, t)
  }

  lemma {:induction false} NoCallsLeftIff(calls: seq<Call>, gone: set<nat>)
    ensures CallsLeft(calls, gone) == [] <==> forall j | 0 <= j < |calls| :: j in gone
  {
    if calls != [] { NoCallsLeftIff(calls[..|calls| - 1], gone); }
  }

  lemma {:induction false} BlankIff(t: Text)
    ensures IsBlank(t) <==> forall p | p in t :: BlankPart(p)
  {
  }

  lemma {:induction false} ShowsNothingIff(m: Message)
    ensures ShowsNothing(m) <==> !HasVisibleValue(m)
  {
    BlankIff(m.reasoning);
    BlankIff(m.signature);
    forall b | b in m.content ensures IsBlank(b.text) <==> forall p | p in b.text :: BlankPart(p) {
      BlankIff(b.text);
    }
    hide IsBlank, BlankPart;
  }

  lemma {:induction false} VictimIdsGo(msgs: seq<Message>, rounds: nat, id: string)
    ensures id in VictimIds(msgs, MergePlan(msgs, rounds)) <==> CallGoes(msgs, rounds, id)
  {
    hide MergePlan, Dispensable, Deleted;
    var plan := MergePlan(msgs, rounds);
    PlanFitsContext(msgs, rounds);
    if t :| t in plan.tools && t < |msgs| && msgs[t].toolId == id {
      PlannedIsDeleted(msgs, plan, t);
      ResultGoesIff(msgs, rounds, t);
    }
    if t: nat :| t < |msgs| && msgs[t].role == Tool && msgs[t].toolId == id && Dispensable(msgs, rounds, t) {
      ResultGoesIff(msgs, rounds, t);
      ToolIsPlanned(msgs, rounds, t);
    }
  }

  lemma {:induction false} EditedIsEmpty(msgs: seq<Message>, plan: Plan, i: nat)
    requires i < |msgs| && i in plan.calls
    ensures LeftEmpty(Edited(msgs, plan, i)) <==>
            (forall j | 0 <= j < |msgs[i].calls| :: Planned(plan, i, j)) && ShowsNothing(msgs[i])
  {
    hide HasVisibleValue, ShowsNothing, CallsLeft;
    NoCallsLeftIff(msgs[i].calls, plan.calls[i]);
    ShowsNothingIff(msgs[i]);
    SameValue(msgs[i], CallsLeft(msgs[i].calls, plan.calls[i]));
    assert forall j: nat | j < |msgs[i].calls| :: Planned(plan, i, j) <==> j in plan.calls[i];
  }

  lemma {:induction false} SameValue(m: Message, calls: seq<Call>)
    ensures HasVisibleValue(m.(calls := calls)) == HasVisibleValue(m)
  {
  }

  /** In a paired context an assistant goes exactly when it has calls, the results of all of them go,
      and it shows nothing else; other messages that are no results stay. */
  lemma {:induction false} AssistantGoesIff(msgs: seq<Message>, rounds: nat, i: nat)
    requires WellPaired(msgs) && UniqueCalls(msgs) && i < |msgs| && msgs[i].role != Tool
    ensures i in Deleted(msgs, MergePlan(msgs, rounds)) <==>
              && msgs[i].role == Assistant && msgs[i].calls != [] && ShowsNothing(msgs[i])
              && forall c | c in msgs[i].calls :: CallGoes(msgs, rounds, c.id)
  {
    hide MergePlan, CallGoes, ShowsNothing, WellPaired, VictimIds, LeftEmpty, ToolPairs;
    var plan := MergePlan(msgs, rounds);
    PlanFitsContext(msgs, rounds);
    PlanWorksById(msgs, rounds);
    SomePlanned(msgs, rounds, i);
    if msgs[i].role == Assistant {
      forall j | 0 <= j < |msgs[i].calls| ensures Planned(plan, i, j) <==> CallGoes(msgs, rounds, msgs[i].calls[j].id) {
        VictimIdsGo(msgs, rounds, msgs[i].calls[j].id);
        assert msgs[i].calls[j] in msgs[i].calls;
      }
      if msgs[i].calls != [] { assert Planned(plan, i, 0) ==> i in plan.calls; }
    }
    if i in plan.calls { EditedIsEmpty(msgs, plan, i); }
    assert i in Deleted(msgs, plan) <==> i in plan.calls && LeftEmpty(Edited(msgs, plan, i));
    if msgs[i].role == Assistant {
      assert (forall c | c in msgs[i].calls :: CallGoes(msgs, rounds, c.id)) <==>
             forall j | 0 <= j < |msgs[i].calls| :: Planned(plan, i, j);
    }
  }

  lemma {:induction false} SomePlanned(msgs: seq<Message>, rounds: nat, i: nat)
    ensures i in MergePlan(msgs, rounds).calls ==> i < |msgs| && msgs[i].calls != []
  {
    var pairs := ToolPairs(msgs);
    PlanBookkeeping(Groups(pairs, ProtectedTools(pairs, rounds)).groups, ProtectedTools(pairs, rounds));
    PlanIsRedundant(msgs, rounds);
    hide ToolPairs;
    if i in MergePlan(msgs, rounds).calls {
      var c :| Planned(MergePlan(msgs, rounds), i, c);
      var k :| 0 <= k < |pairs| && pairs[k].assistantIdx == i && pairs[k].callIdx == c;
      PairSite(msgs, k);
    }
  }
}
