/** What merging promises (the three invariants at the head of agents/merge_pairs.go). */
module MergeTheorems {
  import opened Messages
  import opened Context
  import opened MergePairs

  function Minus(ids: seq<string>, gone: set<string>): (left: seq<string>)
    ensures forall id | id in left :: id in ids && id !in gone
  {
    if ids == [] then [] else (if ids[0] in gone then [] else [ids[0]]) + Minus(ids[1..], gone)
  }

  lemma {:induction false} MinusConcat(a: seq<string>, b: seq<string>, gone: set<string>)
    ensures Minus(a + b, gone) == Minus(a, gone) + Minus(b, gone)
  {
    if a == [] {
      assert a + b == b;
    } else {
      assert (a + b)[1..] == a[1..] + b;
      MinusConcat(a[1..], b, gone);
    }
  }

  ghost predicate NoDuplicates(ids: seq<string>) {
    forall i, j | 0 <= i < j < |ids| :: ids[i] != ids[j]
  }

  lemma {:induction false} MinusNoDuplicates(ids: seq<string>, gone: set<string>)
    requires NoDuplicates(ids)
    ensures NoDuplicates(Minus(ids, gone))
  {
    if ids != [] {
      MinusNoDuplicates(ids[1..], gone);
      assert ids[0] !in ids[1..];
    }
  }

  /** Deleting the calls of an assistant by position is deleting them by id. */
  lemma {:induction false} CallsLeftIds(calls: seq<Call>, gone: set<nat>, ids: set<string>)
    requires forall j | 0 <= j < |calls| :: j in gone <==> calls[j].id in ids
    ensures Ids(CallsLeft(calls, gone)) == Minus(Ids(calls), ids)
  {
    hide Ids, Minus;
    if calls == [] {
      MinusSmall("", ids);
      assert Ids(calls) == [];
    } else {
      var n := |calls| - 1;
      CallsLeftIds(calls[..n], gone, ids);
      assert calls == calls[..n] + [calls[n]];
      IdsSnoc(calls[..n], calls[n]);
      IdsSnoc(CallsLeft(calls[..n], gone), calls[n]);
      MinusConcat(Ids(calls[..n]), [calls[n].id], ids);
      MinusSmall(calls[n].id, ids);
    }
  }

  lemma {:induction false} IdsSnoc(calls: seq<Call>, c: Call)
    ensures Ids(calls + [c]) == Ids(calls) + [c.id]
  {
  }

  lemma {:induction false} MinusSmall(id: string, ids: set<string>)
    ensures Minus([], ids) == [] && Minus([id], ids) == if id in ids then [] else [id]
  {
    assert Minus([], ids) == [];
  }

  function VictimIds(msgs: seq<Message>, plan: Plan): set<string> {
    set t | t in plan.tools && t < |msgs| :: msgs[t].toolId
  }

  /** The plan deletes a result exactly when it deletes the call, identified by id. */
  ghost predicate PlanById(msgs: seq<Message>, plan: Plan) {
    && PlanFits(msgs, plan)
    && (forall t | 0 <= t < |msgs| && msgs[t].role == Tool :: t in plan.tools <==>
        msgs[t].toolId in VictimIds(msgs, plan))
    && (forall a, c | 0 <= a < |msgs| && msgs[a].role == Assistant && 0 <= c < |msgs[a].calls| ::
          Planned(plan, a, c) <==> msgs[a].calls[c].id in VictimIds(msgs, plan))
  }

  /** Two results of one id cannot both be paired. */
  lemma {:induction false} OneResultPerCall(msgs: seq<Message>, t: nat, t': nat)
    requires WellPaired(msgs) && UniqueCalls(msgs)
    requires t < |msgs| && t' < |msgs| && msgs[t].role == Tool && msgs[t'].role == Tool
    requires msgs[t].toolId == msgs[t'].toolId
    ensures t == t'
  {
    WellPairedIsPositional(msgs);
    var i :| AnswersCallOf(msgs, i, t);
    var i' :| AnswersCallOf(msgs, i', t');
    assert AnsweredAt(msgs, i, t - i - 1) && AnsweredAt(msgs, i', t' - i' - 1);
  }

  lemma {:induction false} PlanWorksById(msgs: seq<Message>, rounds: nat)
    requires WellPaired(msgs) && UniqueCalls(msgs)
    ensures PlanById(msgs, MergePlan(msgs, rounds))
  {
    var plan := MergePlan(msgs, rounds);
    var pairs := ToolPairs(msgs);
    var sites := CallSites(msgs);
    var protected := ProtectedTools(pairs, rounds);
    PlanFitsContext(msgs, rounds);
    PlanIsRedundant(msgs, rounds);
    forall t | 0 <= t < |msgs| && msgs[t].role == Tool
      ensures t in plan.tools <==> msgs[t].toolId in VictimIds(msgs, plan)
    {
      if msgs[t].toolId in VictimIds(msgs, plan) {
        var t' :| t' in plan.tools && t' < |msgs| && msgs[t'].toolId == msgs[t].toolId;
        OneResultPerCall(msgs, t, t');
      }
    }
    forall a, c | 0 <= a < |msgs| && msgs[a].role == Assistant && 0 <= c < |msgs[a].calls|
      ensures Planned(plan, a, c) <==> msgs[a].calls[c].id in VictimIds(msgs, plan)
    {
      if Planned(plan, a, c) {
        assert RedundantCall(msgs, rounds, a, c);
        var k :| 0 <= k < |pairs| && pairs[k].assistantIdx == a && pairs[k].callIdx == c &&
                 Redundant(pairs, protected, k);
        PairSite(msgs, k);
        assert RedundantResult(msgs, rounds, pairs[k].toolIdx);
      }
      if msgs[a].calls[c].id in VictimIds(msgs, plan) {
        var t :| t in plan.tools && t < |msgs| && msgs[t].toolId == msgs[a].calls[c].id;
        assert RedundantResult(msgs, rounds, t);
        var k :| 0 <= k < |pairs| && pairs[k].toolIdx == t && Redundant(pairs, protected, k);
        PairSite(msgs, k);
        var a', c' := pairs[k].assistantIdx, pairs[k].callIdx;
        assert CallIds(msgs[a'])[c'] == CallIds(msgs[a])[c];
        assert RedundantCall(msgs, rounds, a, c);
      }
    }
  }

  /** A collected pair is a result together with the call of its id. */
  lemma {:induction false} PairSite(msgs: seq<Message>, k: nat)
    requires k < |ToolPairs(msgs)|
    ensures var p := ToolPairs(msgs)[k];
            && p.toolIdx < |msgs| && msgs[p.toolIdx].role == Tool
            && p.assistantIdx < |msgs| && msgs[p.assistantIdx].role == Assistant
            && p.callIdx < |msgs[p.assistantIdx].calls|
            && msgs[p.assistantIdx].calls[p.callIdx] == Call(msgs[p.toolIdx].toolId, p.name, p.args)
            && p.text == ResultText(msgs[p.toolIdx]) && p.image == HasImage(msgs[p.toolIdx])
  {
    var p := ToolPairs(msgs)[k];
    var sites := CallSites(msgs);
    assert p in ToolPairs(msgs) && p == PairAt(msgs, sites, p.toolIdx);
    assert ValidSite(msgs, msgs[p.toolIdx].toolId, sites[msgs[p.toolIdx].toolId]);
  }

  // ---- pairing survives -------------------------------------------------------------------

  function KeptUpTo(msgs: seq<Message>, plan: Plan, n: nat): seq<Message>
    requires n <= |msgs|
  {
    var kept := Survivors(Deleted(msgs, plan), n);
    seq(|kept|, j requires 0 <= j < |kept| => Edited(msgs, plan, kept[j]))
  }

  lemma {:induction false} EditedIds(msgs: seq<Message>, plan: Plan, i: nat)
    requires PlanById(msgs, plan) && i < |msgs|
    ensures CallIds(Edited(msgs, plan, i)) == Minus(CallIds(msgs[i]), VictimIds(msgs, plan))
  {
    var ids := VictimIds(msgs, plan);
    if msgs[i].role == Assistant {
      var gone := if i in plan.calls then plan.calls[i] else {};
      forall j | 0 <= j < |msgs[i].calls| ensures j in gone <==> msgs[i].calls[j].id in ids {
        assert Planned(plan, i, j) <==> j in gone;
      }
      CallsLeftIds(msgs[i].calls, gone, ids);
      if i !in plan.calls { NothingGone(msgs[i].calls); }
    }
  }

  lemma {:induction false} NothingGone(calls: seq<Call>)
    ensures CallsLeft(calls, {}) == calls
  {
    if calls != [] {
      NothingGone(calls[..|calls| - 1]);
      assert calls == calls[..|calls| - 1] + [calls[|calls| - 1]];
    }
  }

  /** A deleted message moves the scanner nowhere, once the deleted ids are left out. */
  lemma {:induction false} DeletedAdvance(msgs: seq<Message>, plan: Plan, i: nat, open: seq<string>)
    requires PlanById(msgs, plan) && i < |msgs| && Advance(open, msgs[i]).Some? && i in Deleted(msgs, plan)
    ensures Minus(Advance(open, msgs[i]).value, VictimIds(msgs, plan)) == Minus(open, VictimIds(msgs, plan))
  {
    if msgs[i].role == Tool {
      assert i !in plan.calls;
      assert msgs[i].toolId in VictimIds(msgs, plan);
    } else {
      assert i in plan.calls;
      EditedIds(msgs, plan, i);
    }
  }

  lemma {:induction false} KeptAdvance(msgs: seq<Message>, plan: Plan, i: nat, open: seq<string>)
    requires PlanById(msgs, plan) && i < |msgs| && Advance(open, msgs[i]).Some? && i !in Deleted(msgs, plan)
    ensures Advance(Minus(open, VictimIds(msgs, plan)), Edited(msgs, plan, i)) ==
            Some(Minus(Advance(open, msgs[i]).value, VictimIds(msgs, plan)))
  {
    EditedIds(msgs, plan, i);
    if msgs[i].role == Tool {
      assert i !in plan.tools;
      assert msgs[i].toolId !in VictimIds(msgs, plan);
    }
  }

  lemma {:induction false} KeptResidue(msgs: seq<Message>, plan: Plan, n: nat)
    requires PlanById(msgs, plan) && n <= |msgs| && Residue([], msgs[..n]).Some?
    ensures Residue([], KeptUpTo(msgs, plan, n)) == Some(Minus(Residue([], msgs[..n]).value, VictimIds(msgs, plan)))
  {
    hide Residue, Advance, VictimIds, PlanById, Edited, Deleted;
    if n == 0 {
      EmptyResidue([]);
    } else {
      var i := n - 1;
      assert msgs[..n] == msgs[..i] + [msgs[i]];
      ResidueSnoc([], msgs[..i], msgs[i]);
      KeptResidue(msgs, plan, i);
      var open := Residue([], msgs[..i]).value;
      if i in Deleted(msgs, plan) {
        assert KeptUpTo(msgs, plan, n) == KeptUpTo(msgs, plan, i);
        DeletedAdvance(msgs, plan, i, open);
      } else {
        assert KeptUpTo(msgs, plan, n) == KeptUpTo(msgs, plan, i) + [Edited(msgs, plan, i)];
        ResidueSnoc([], KeptUpTo(msgs, plan, i), Edited(msgs, plan, i));
        KeptAdvance(msgs, plan, i, open);
      }
    }
  }

  /** The final passes only touch texts. */
  lemma {:induction false} FinalShape(msgs: seq<Message>, plan: Plan, index: map<nat, nat>, i: nat)
    requires i < |msgs|
    ensures SameShape(Final(msgs, plan, index, i), Edited(msgs, plan, i))
  {
  }

  /** Invariant 1: merging keeps the pairing protocol. */
  lemma {:induction false} MergeKeepsPairing(msgs: seq<Message>, protectRounds: int)
    requires WellPaired(msgs) && UniqueCalls(msgs)
    ensures Merged(msgs, protectRounds).Some? ==> WellPaired(Merged(msgs, protectRounds).value)
  {
    var plan := MergePlan(msgs, Rounds(protectRounds));
    PlanWorksById(msgs, Rounds(protectRounds));
    assert msgs[..|msgs|] == msgs;
    KeptResidue(msgs, plan, |msgs|);
    var kept := Survivors(Deleted(msgs, plan), |msgs|);
    var index := NewIndex(Deleted(msgs, plan), |msgs|);
    forall j | 0 <= j < |kept| ensures SameShape(Rebuilt(msgs, plan)[j], KeptUpTo(msgs, plan, |msgs|)[j]) {
      FinalShape(msgs, plan, index, kept[j]);
    }
    SameShapeSameResidue([], Rebuilt(msgs, plan), KeptUpTo(msgs, plan, |msgs|));
  }

  /** ... and the ids stay unique, with no id the old context did not have. */
  lemma {:induction false} MergeKeepsUniqueCalls(msgs: seq<Message>, protectRounds: int)
    requires WellPaired(msgs) && UniqueCalls(msgs) && Merged(msgs, protectRounds).Some?
    ensures UniqueCalls(Merged(msgs, protectRounds).value)
    ensures forall id :: HasCall(Merged(msgs, protectRounds).value, id) ==> HasCall(msgs, id)
  {
    var plan := MergePlan(msgs, Rounds(protectRounds));
    PlanWorksById(msgs, Rounds(protectRounds));
    var out := Merged(msgs, protectRounds).value;
    var kept := Survivors(Deleted(msgs, plan), |msgs|);
    RebuiltLength(msgs, protectRounds);
    hide Merged, Rebuilt, Deleted, Survivors, MergePlan, VictimIds, CallIds, PlanById;
    forall i, j, i', j' | 0 <= i < |out| && 0 <= j < |CallIds(out[i])| && 0 <= i' < |out| &&
      0 <= j' < |CallIds(out[i'])| &&
                          CallIds(out[i])[j] == CallIds(out[i'])[j']
      ensures i == i' && j == j'
    {
      RebuiltIds(msgs, plan, i);
      RebuiltIds(msgs, plan, i');
      SameCallSameMessage(msgs, kept[i], kept[i'], CallIds(out[i])[j]);
      SurvivorsOrdered(Deleted(msgs, plan), |msgs|);
      assert i == i';
      MinusNoDuplicates(CallIds(msgs[kept[i]]), VictimIds(msgs, plan));
    }
    forall id | HasCall(out, id) ensures HasCall(msgs, id) {
      var i :| 0 <= i < |out| && id in CallIds(out[i]);
      RebuiltIds(msgs, plan, i);
      assert id in CallIds(msgs[kept[i]]);
    }
  }

  lemma {:induction false} RebuiltLength(msgs: seq<Message>, protectRounds: int)
    requires Merged(msgs, protectRounds).Some?
    ensures var plan := MergePlan(msgs, Rounds(protectRounds));
            var kept := Survivors(Deleted(msgs, plan), |msgs|);
            Merged(msgs, protectRounds).value == Rebuilt(msgs, plan) && |kept| == |Rebuilt(msgs, plan)| &&
            forall i | 0 <= i < |kept| :: kept[i] < |msgs|
  {
    SurvivorsOrdered(Deleted(msgs, MergePlan(msgs, Rounds(protectRounds))), |msgs|);
  }

  lemma {:induction false} RebuiltIds(msgs: seq<Message>, plan: Plan, i: nat)
    requires PlanById(msgs, plan) && i < |Rebuilt(msgs, plan)|
    ensures CallIds(Rebuilt(msgs, plan)[i]) ==
            Minus(CallIds(msgs[Survivors(Deleted(msgs, plan), |msgs|)[i]]), VictimIds(msgs, plan))
  {
    var k := Survivors(Deleted(msgs, plan), |msgs|)[i];
    FinalShape(msgs, plan, NewIndex(Deleted(msgs, plan), |msgs|), k);
    EditedIds(msgs, plan, k);
  }

  lemma {:induction false} SameCallSameMessage(msgs: seq<Message>, i: nat, i': nat, id: string)
    requires UniqueCalls(msgs) && i < |msgs| && i' < |msgs| && id in CallIds(msgs[i]) && id in CallIds(msgs[i'])
    ensures i == i' && NoDuplicates(CallIds(msgs[i]))
  {
    var p :| 0 <= p < |CallIds(msgs[i])| && CallIds(msgs[i])[p] == id;
    var p' :| 0 <= p' < |CallIds(msgs[i'])| && CallIds(msgs[i'])[p'] == id;
  }

  // ---- what is deleted, and what stands for it --------------------------------------------

  /** The result at t and its call are gone although t was deletable, and s still stands for it:
      a surviving, unprotected, image-free result of the same call that is no placeholder. */
  ghost predicate StandsFor(msgs: seq<Message>, rounds: nat, s: nat, t: nat) {
    var pairs := ToolPairs(msgs);
    var protected := ProtectedTools(pairs, rounds);
    exists h, k ::
      && 0 <= h < |pairs| && 0 <= k < |pairs| && pairs[h].toolIdx == s && pairs[k].toolIdx == t
      && KeyOf(pairs[h]) == KeyOf(pairs[k]) && Live(pairs, protected, k) && Real(pairs, protected, h)
  }

  /** Invariant 3: only redundant results go, and every one leaves a full result of its call. */
  lemma {:induction false} DeletedResultHasStandIn(msgs: seq<Message>, rounds: nat, t: nat) returns (s: nat)
    requires t < |msgs| && msgs[t].role == Tool && t in Deleted(msgs, MergePlan(msgs, rounds))
    ensures s < |msgs| && s !in Deleted(msgs, MergePlan(msgs, rounds)) && StandsFor(msgs, rounds, s, t)
  {
    hide MergePlan;
    var plan := MergePlan(msgs, rounds);
    var pairs := ToolPairs(msgs);
    var protected := ProtectedTools(pairs, rounds);
    PlanFitsContext(msgs, rounds);
    PlanIsRedundant(msgs, rounds);
    assert t !in plan.calls;
    assert RedundantResult(msgs, rounds, t);
    var k :| 0 <= k < |pairs| && pairs[k].toolIdx == t && Redundant(pairs, protected, k);
    var h := RedundantHasSurvivor(pairs, protected, k);
    s := pairs[h].toolIdx;
    PairSite(msgs, h);
    forall h' | 0 <= h' < |pairs| && pairs[h'].toolIdx == s ensures !Redundant(pairs, protected, h') {
      assert h' == h;
    }
    assert !RedundantResult(msgs, rounds, s);
    assert s !in plan.calls;
    assert StandsFor(msgs, rounds, s, t);
  }

  /** Nothing else is deleted but assistants that lost their last call and show nothing. */
  lemma {:induction false} DeletedOthersAreEmptyAssistants(msgs: seq<Message>, rounds: nat, i: nat)
    requires i < |msgs| && msgs[i].role != Tool && i in Deleted(msgs, MergePlan(msgs, rounds))
    ensures msgs[i].role == Assistant && !HasVisibleValue(msgs[i])
    ensures forall c | 0 <= c < |msgs[i].calls| :: Planned(MergePlan(msgs, rounds), i, c)
    ensures exists c :: Planned(MergePlan(msgs, rounds), i, c)
  {
    var plan := MergePlan(msgs, rounds);
    PlanFitsContext(msgs, rounds);
    var pairs := ToolPairs(msgs);
    PlanBookkeeping(Groups(pairs, ProtectedTools(pairs, rounds)).groups, ProtectedTools(pairs, rounds));
    AllCallsGone(msgs[i].calls, plan.calls[i]);
  }

  lemma {:induction false} AllCallsGone(calls: seq<Call>, gone: set<nat>)
    requires CallsLeft(calls, gone) == []
    ensures forall c | 0 <= c < |calls| :: c in gone
  {
    if calls != [] { AllCallsGone(calls[..|calls| - 1], gone); }
  }

  /** A survivor keeps everything but deleted calls, renumbered references and a merge note. */
  ghost predicate SameLogicalMessage(now: Message, was: Message) {
    && now.role == was.role && now.toolId == was.toolId
    && now.reasoning == was.reasoning && now.signature == was.signature
    && (forall c | c in now.calls :: c in was.calls)
    && |now.content| == |was.content|
    && (was.role != Tool ==> now.content == was.content)
    && (was.content != [] ==> now.content[1..] == was.content[1..] && now.content[0].kind == was.content[0].kind)
    && (was.content != [] ==> SameText(was.content[0].text, now.content[0].text, IsPlaceholderResult(was)))
  }

  /** The text stays, up to the numbers of a placeholder's references; only a merge note may follow. */
  ghost predicate SameText(was: Text, now: Text, placeholder: bool) {
    && |was| <= |now|
    && (if placeholder then SameUpToReferences(was, now[..|was|]) else was == now[..|was|])
    && (now[|was|..] == [] || exists n: nat :: now[|was|..] == MergeNote(n))
  }

  ghost predicate SameUpToReferences(a: Text, b: Text) {
    |a| == |b| && forall k | 0 <= k < |a| :: a[k] == b[k] || (a[k].Ref? && b[k].Ref?)
  }

  /** The merged context is an order-preserving subsequence of the old one. */
  lemma {:induction false} MergedIsSubsequence(msgs: seq<Message>, protectRounds: int)
    requires Merged(msgs, protectRounds).Some?
    ensures var out := Merged(msgs, protectRounds).value;
            var gone := Deleted(msgs, MergePlan(msgs, Rounds(protectRounds)));
            var kept := Survivors(gone, |msgs|);
            && |out| == |kept|
            && (forall j, k | 0 <= j < k < |kept| :: kept[j] < kept[k] < |msgs|)
            && (forall i | 0 <= i < |msgs| :: i in kept <==> i !in gone)
            && (forall j | 0 <= j < |out| :: SameLogicalMessage(out[j], msgs[kept[j]]))
  {
    hide MergePlan, SameLogicalMessage, Final, Deleted, ToolPairs, Survivors, NewIndex;
    var plan := MergePlan(msgs, Rounds(protectRounds));
    var gone := Deleted(msgs, plan);
    var kept := Survivors(gone, |msgs|);
    var out := Merged(msgs, protectRounds).value;
    SurvivorsOrdered(gone, |msgs|);
    NewIndexIsRank(gone, |msgs|);
    forall i | 0 <= i < |msgs| ensures i in kept <==> i !in gone {
      if i !in gone { assert i in NewIndex(gone, |msgs|); }
      if i in kept { assert i in NewIndex(gone, |msgs|); }
    }
    forall j | 0 <= j < |out| ensures SameLogicalMessage(out[j], msgs[kept[j]]) {
      SurvivorIsSame(msgs, plan, NewIndex(gone, |msgs|), kept[j]);
    }
  }

  lemma {:induction false} SurvivorIsSame(msgs: seq<Message>, plan: Plan, index: map<nat, nat>, i: nat)
    requires i < |msgs|
    ensures SameLogicalMessage(Final(msgs, plan, index, i), msgs[i])
  {
    if i in plan.calls { CallsLeftSubset(msgs[i].calls, plan.calls[i]); }
    var edited := Edited(msgs, plan, i);
    var m := Renumbered(edited, index);
    assert m.content != [] ==> m.content[1..] == msgs[i].content[1..];
    var final := Final(msgs, plan, index, i);
    assert final.content != [] ==> final.content[1..] == m.content[1..];
    if msgs[i].content != [] {
      var t := m.content[0].text;
      assert t + [] == t;
      assert SameText(msgs[i].content[0].text, t, IsPlaceholderResult(msgs[i]));
      if final != m { assert final.content[0].text == t + MergeNote(plan.absorbed[i]); }
    }
  }

  lemma {:induction false} CallsLeftSubset(calls: seq<Call>, gone: set<nat>)
    ensures forall c | c in CallsLeft(calls, gone) :: c in calls
  {
    if calls != [] { CallsLeftSubset(calls[..|calls| - 1], gone); }
  }

  /** Invariant 2: the k-th piece of a surviving placeholder, when it is a reference "#n", names
      the same logical message afterwards if and only if that message survived. */
  lemma {:induction false} ReferencesFollowTheirTarget(msgs: seq<Message>, protectRounds: int, j: nat, k: nat)
    requires Merged(msgs, protectRounds).Some? && j < |Merged(msgs, protectRounds).value|
    requires var i := Survivors(Deleted(msgs, MergePlan(msgs, Rounds(protectRounds))), |msgs|)[j];
             IsPlaceholderResult(msgs[i]) && k < |msgs[i].content[0].text| && msgs[i].content[0].text[k].Ref?
    ensures var gone := Deleted(msgs, MergePlan(msgs, Rounds(protectRounds)));
            var kept := Survivors(gone, |msgs|);
            var n := msgs[kept[j]].content[0].text[k].n;
            var text := Merged(msgs, protectRounds).value[j].content[0].text;
            && k < |text| && text[k].Ref?
            && (n < |msgs| ==> (n !in gone <==> text[k].n < |kept| && kept[text[k].n] == n))
            && (n >= |msgs| || n in gone ==> text[k].n == n)
  {
    hide MergePlan;
    var plan := MergePlan(msgs, Rounds(protectRounds));
    var gone := Deleted(msgs, plan);
    var kept := Survivors(gone, |msgs|);
    var index := NewIndex(gone, |msgs|);
    NewIndexIsRank(gone, |msgs|);
    PlanFitsContext(msgs, Rounds(protectRounds));
    var m := msgs[kept[j]];
    var text := Renumber(m.content[0].text, index);
    var n := m.content[0].text[k].n;
    assert Renumbered(Edited(msgs, plan, kept[j]), index).content[0].text == text;
    assert Merged(msgs, protectRounds).value[j].content[0].text[k] == text[k];
    if n < |msgs| && n in gone && n < |kept| {
      assert kept[n] in index;
    }
  }

  // ---- which read of a file survives ---------------------------------------------------------

  /** A read_file result of its own, as far as its pair goes. */
  predicate PlainRead(p: Pair) {
    p.name == "read_file" && !p.image && !IsSlimPlaceholder(p.text)
  }

  /** The head comment says the newest of several reads of one file range is kept. In a context a
      read result survives if and only if it is among the protected newest pairs or the oldest. */
  lemma {:induction false} ReadKeptIff(msgs: seq<Message>, rounds: nat, k: nat)
    requires k < |ToolPairs(msgs)| && PlainRead(ToolPairs(msgs)[k])
    ensures var pairs := ToolPairs(msgs);
            pairs[k].toolIdx !in Deleted(msgs, MergePlan(msgs, rounds)) <==>
            k >= |pairs| - rounds || forall i | 0 <= i < k ::
              !(PlainRead(pairs[i]) && KeyOf(pairs[i]) == KeyOf(pairs[k]))
  {
    hide ToolPairs, MergePlan;
    var pairs := ToolPairs(msgs);
    var protected := ProtectedTools(pairs, rounds);
    ResultDeletedIff(msgs, rounds, k);
    ProtectedIff(msgs, rounds);
    if k < |pairs| - rounds {
      ReadSurvivesIffOldest(pairs, protected, k);
      forall i | 0 <= i < k && KeyOf(pairs[i]) == KeyOf(pairs[k])
        ensures PlainRead(pairs[i]) <==> Previous(pairs, protected, i, k)
      {
      }
    }
  }

  lemma {:induction false} ProtectedIff(msgs: seq<Message>, rounds: nat)
    ensures var pairs := ToolPairs(msgs);
            forall k | 0 <= k < |pairs| :: pairs[k].toolIdx in ProtectedTools(pairs, rounds) <==> k >= |pairs| - rounds
  {
    hide ToolPairs;
    var pairs := ToolPairs(msgs);
    PairsInOrder(msgs);
    forall k | 0 <= k < |pairs| ensures pairs[k].toolIdx in ProtectedTools(pairs, rounds) <==> k >= |pairs| - rounds {
      if pairs[k].toolIdx in ProtectedTools(pairs, rounds) {
        var h :| 0 <= h < |pairs| && |pairs| - rounds <= h && pairs[h].toolIdx == pairs[k].toolIdx;
        assert h == k;
      }
    }
  }

  lemma {:induction false} PairsInOrder(msgs: seq<Message>)
    ensures forall i, j | 0 <= i < j < |ToolPairs(msgs)| :: ToolPairs(msgs)[i].toolIdx < ToolPairs(msgs)[j].toolIdx
    ensures forall k | 0 <= k < |ToolPairs(msgs)| ::
            ToolPairs(msgs)[k].toolIdx < |msgs| && msgs[ToolPairs(msgs)[k].toolIdx].role == Tool
  {
    forall k | 0 <= k < |ToolPairs(msgs)|
      ensures ToolPairs(msgs)[k].toolIdx < |msgs| && msgs[ToolPairs(msgs)[k].toolIdx].role == Tool
    {
      assert ToolPairs(msgs)[k] in ToolPairs(msgs);
    }
  }

  lemma {:induction false} ResultDeletedIff(msgs: seq<Message>, rounds: nat, k: nat)
    requires k < |ToolPairs(msgs)|
    ensures var pairs := ToolPairs(msgs);
            pairs[k].toolIdx in Deleted(msgs, MergePlan(msgs, rounds)) <==>
              Redundant(pairs, ProtectedTools(pairs, rounds), k)
  {
    hide ToolPairs, MergePlan, Redundant;
    var pairs := ToolPairs(msgs);
    PairsInOrder(msgs);
    PlanIsRedundant(msgs, rounds);
    PlanFitsContext(msgs, rounds);
    if RedundantResult(msgs, rounds, pairs[k].toolIdx) {
      var h :| 0 <= h < |pairs| && pairs[h].toolIdx == pairs[k].toolIdx &&
        Redundant(pairs, ProtectedTools(pairs, rounds), h);
      assert h == k;
    }
  }

  /** One tool round with a single call. */
  function SingleRound(c: Call, t: Text): (round: seq<Message>)
    ensures |round| == 2
  {
    [AssistantMessage([], [], [], [c]), ToolMessage(c.id, t)]
  }

  /** No message is a result for the id. */
  ghost predicate FreeOf(msgs: seq<Message>, id: string) {
    forall i | 0 <= i < |msgs| :: msgs[i].toolId != id
  }

  lemma {:induction false} RoundIsFree(msgs: seq<Message>, c: Call, t: Text, id: string)
    requires FreeOf(msgs, id) && id != c.id && id != ""
    ensures FreeOf(msgs + SingleRound(c, t), id)
  {
  }

  lemma {:induction false} RoundAddsSite(msgs: seq<Message>, c: Call, t: Text)
    ensures CallSites(msgs + SingleRound(c, t)) == CallSites(msgs)[c.id := (|msgs|, 0)]
  {
    var a, r := AssistantMessage([], [], [], [c]), ToolMessage(c.id, t);
    var all := msgs + SingleRound(c, t);
    assert all[..|msgs| + 1] == msgs + [a] && (msgs + [a])[..|msgs|] == msgs && [c][..0] == [];
    assert all[|msgs| + 1] == r && r.role == Tool;
    assert CallSites(all) == CallSites(msgs + [a]);
    assert AddSites(CallSites(msgs), |msgs|, [c]) == AddSites(CallSites(msgs), |msgs|, [])[c.id := (|msgs|, 0)];
  }

  /** It adds one pair to the context, if its call id is new. */
  lemma {:induction false} RoundAddsPair(msgs: seq<Message>, c: Call, t: Text)
    requires FreeOf(msgs, c.id)
    ensures ToolPairs(msgs + SingleRound(c, t)) ==
            ToolPairs(msgs) + [Pair(|msgs|, 0, |msgs| + 1, c.name, c.args, t, false)]
  {
    hide CallSites;
    var all, n := msgs + SingleRound(c, t), |msgs|;
    RoundAddsSite(msgs, c, t);
    SamePairs(msgs, all, c.id, n);
    assert all[n].role == Assistant && all[n].calls == [c];
    assert all[n + 1] == ToolMessage(c.id, t);
    assert PairsUpTo(all, CallSites(all), n + 1) == PairsUpTo(all, CallSites(all), n);
    assert PairAt(all, CallSites(all), n + 1) == Pair(n, 0, n + 1, c.name, c.args, t, false);
  }

  lemma {:induction false} SamePairs(msgs: seq<Message>, all: seq<Message>, id: string, n: nat)
    requires n <= |msgs| <= |all| && all[..|msgs|] == msgs && forall i | 0 <= i < |msgs| :: msgs[i].toolId != id
    requires id in CallSites(all) && CallSites(all) == CallSites(msgs)[id := CallSites(all)[id]]
    ensures PairsUpTo(all, CallSites(all), n) == PairsUpTo(msgs, CallSites(msgs), n)
  {
    if n > 0 {
      SamePairs(msgs, all, id, n - 1);
      var m := msgs[n - 1];
      assert all[n - 1] == m;
      if m.role == Tool && m.toolId in CallSites(msgs) {
        assert ValidSite(msgs, m.toolId, CallSites(msgs)[m.toolId]);
        assert all[CallSites(msgs)[m.toolId].0] == msgs[CallSites(msgs)[m.toolId].0];
      }
    }
  }

  lemma {:induction false} RoundsArePaired(msgs: seq<Message>, c: Call, t: Text)
    requires WellPaired(msgs)
    ensures WellPaired(msgs + SingleRound(c, t))
  {
    var a, r := AssistantMessage([], [], [], [c]), ToolMessage(c.id, t);
    assert Ids(a.calls) == [c.id] && [c.id][1..] == [];
    ResidueSnoc([], msgs, a);
    ResidueSnoc([], msgs + [a], r);
    assert msgs + SingleRound(c, t) == msgs + [a] + [r];
  }

  lemma {:induction false} FourRounds(c1: Call, c2: Call, c3: Call, c4: Call, t1: Text, t2: Text, t: Text)
    requires c2.id != c1.id && c3.id != c1.id && c3.id != c2.id && c4.id != c1.id && c4.id != c2.id && c4.id != c3.id
    requires c2.id != "" && c3.id != "" && c4.id != ""
    ensures ToolPairs(SingleRound(c1, t1) + SingleRound(c2, t2) + SingleRound(c3, t) + SingleRound(c4, t)) ==
            [Pair(0, 0, 1, c1.name, c1.args, t1, false), Pair(2, 0, 3, c2.name, c2.args, t2, false),
             Pair(4, 0, 5, c3.name, c3.args, t, false), Pair(6, 0, 7, c4.name, c4.args, t, false)]
    ensures WellPaired(SingleRound(c1, t1) + SingleRound(c2, t2) + SingleRound(c3, t) + SingleRound(c4, t))
  {
    hide ToolPairs, SingleRound, FreeOf;
    var r1, r2, r3 := SingleRound(c1, t1), SingleRound(c2, t2), SingleRound(c3, t);
    NoPairs();
    assert [] + r1 == r1;
    assert FreeOf([], c1.id) && FreeOf([], c2.id) && FreeOf([], c3.id) && FreeOf([], c4.id) by { NothingIsFree(); }
    RoundAddsPair([], c1, t1);
    RoundIsFree([], c1, t1, c2.id);
    RoundAddsPair(r1, c2, t2);
    RoundIsFree([], c1, t1, c3.id);
    RoundIsFree(r1, c2, t2, c3.id);
    RoundAddsPair(r1 + r2, c3, t);
    RoundIsFree([], c1, t1, c4.id);
    RoundIsFree(r1, c2, t2, c4.id);
    RoundIsFree(r1 + r2, c3, t, c4.id);
    RoundAddsPair(r1 + r2 + r3, c4, t);
    RoundsArePaired([], c1, t1);
    RoundsArePaired(r1, c2, t2);
    RoundsArePaired(r1 + r2, c3, t);
    RoundsArePaired(r1 + r2 + r3, c4, t);
  }

  lemma {:induction false} NothingIsFree()
    ensures forall id :: FreeOf([], id)
  {
  }

  lemma {:induction false} NoPairs()
    ensures ToolPairs([]) == []
  {
  }

  /** Two reads of a file with different content, and two more calls: the merge deletes the new
      content and keeps the old one. */
  lemma {:induction false} NewestReadIsDropped(args: string, stale: Text, current: Text, other: Text)
    requires !IsSlimPlaceholder(stale) && !IsSlimPlaceholder(current)
    ensures var msgs := SingleRound(Call("c1", "read_file", args), stale) +
            SingleRound(Call("c2", "read_file", args), current) +
                        SingleRound(Call("c3", "bash", "ls"), other) + SingleRound(Call("c4", "bash", "pwd"), other);
            var out := Merged(msgs, 0);
            && WellPaired(msgs) && out.Some? && (forall m | m in out.value :: m.toolId != "c2")
            && exists m | m in out.value :: m.toolId == "c1" && m.content != [] && stale <= m.content[0].text
  {
    hide Merged, MergePlan, Deleted, Survivors, IsSlimPlaceholder, ToolPairs;
    var c1, c2 := Call("c1", "read_file", args), Call("c2", "read_file", args);
    var c3, c4 := Call("c3", "bash", "ls"), Call("c4", "bash", "pwd");
    var msgs := SingleRound(c1, stale) + SingleRound(c2, current) + SingleRound(c3, other) + SingleRound(c4, other);
    FourRounds(c1, c2, c3, c4, stale, current, other);
    ReadKeptIff(msgs, 2, 0);
    ReadKeptIff(msgs, 2, 1);
    assert PlainRead(ToolPairs(msgs)[0]) && KeyOf(ToolPairs(msgs)[0]) == KeyOf(ToolPairs(msgs)[1]);
    OnlyFirstRead(msgs, stale);
  }

  lemma {:induction false} OnlyFirstRead(msgs: seq<Message>, stale: Text)
    requires |ToolPairs(msgs)| >= 2 && |msgs| > 3 && !IsSlimPlaceholder(stale) && msgs[1] == ToolMessage("c1", stale)
    requires forall i | 0 <= i < |msgs| :: msgs[i].toolId == "c2" ==> i == 3
    requires 1 !in Deleted(msgs, MergePlan(msgs, 2)) && 3 in Deleted(msgs, MergePlan(msgs, 2)) && msgs[3].role == Tool
    ensures var out := Merged(msgs, 0);
            && out.Some? && (forall m | m in out.value :: m.toolId != "c2")
            && exists m | m in out.value :: m.toolId == "c1" && m.content != [] && stale <= m.content[0].text
  {
    hide ToolPairs, MergePlan, Deleted, Survivors;
    ToolIsPlanned(msgs, 2, 3);
    assert Rounds(0) == 2;
    assert Merged(msgs, 0).Some?;
    MergedIsSubsequence(msgs, 0);
    var out := Merged(msgs, 0).value;
    var kept := Survivors(Deleted(msgs, MergePlan(msgs, 2)), |msgs|);
    forall m | m in out ensures m.toolId != "c2" {
      var j :| 0 <= j < |out| && out[j] == m;
      assert SameLogicalMessage(out[j], msgs[kept[j]]) && kept[j] in kept;
    }
    var j :| 0 <= j < |kept| && kept[j] == 1;
    assert SameLogicalMessage(out[j], msgs[1]) && out[j] in out;
  }

  lemma {:induction false} ToolIsPlanned(msgs: seq<Message>, rounds: nat, t: nat)
    requires t < |msgs| && msgs[t].role == Tool && t in Deleted(msgs, MergePlan(msgs, rounds))
    ensures t in MergePlan(msgs, rounds).tools
  {
    hide MergePlan;
    PlanFitsContext(msgs, rounds);
  }

  // ---- the self-check -----------------------------------------------------------------------

  ghost predicate Called(msgs: seq<Message>, id: string) {
    exists i, j :: 0 <= i < |msgs| && 0 <= j < |msgs[i].calls| && msgs[i].calls[j].id == id
  }

  ghost predicate Answered(msgs: seq<Message>, id: string) {
    exists i :: 0 <= i < |msgs| && msgs[i].role == Tool && msgs[i].toolId == id
  }

  /** assertNoOrphanToolMsgs: None when no result lacks its call and no call lacks a result. */
  method AssertNoOrphanToolMsgs(msgs: seq<Message>) returns (violation: Option<string>)
    ensures violation.None? <==>
            (forall id :: Answered(msgs, id) ==> Called(msgs, id)) &&
              (forall id :: Called(msgs, id) ==> Answered(msgs, id))
    ensures violation.Some? ==> Called(msgs, violation.value) != Answered(msgs, violation.value)
  {
    var called: set<string> := {};
    for i := 0 to |msgs|
      invariant forall id :: id in called <==>
                  exists i', j :: 0 <= i' < i && 0 <= j < |msgs[i'].calls| && msgs[i'].calls[j].id == id
    {
      ghost var before := called;
      for j := 0 to |msgs[i].calls|
        invariant forall id :: id in called <==> id in before || exists j' :: 0 <= j' < j && msgs[i].calls[j'].id == id
      {
        called := called + {msgs[i].calls[j].id};
      }
    }
    assert forall id :: id in called <==> Called(msgs, id);
    var answered: set<string> := {};
    for i := 0 to |msgs|
      invariant answered <= called
      invariant forall id :: id in answered <==>
                exists i' :: 0 <= i' < i && msgs[i'].role == Tool && msgs[i'].toolId == id
    {
      if msgs[i].role != Tool {
        continue;
      }
      if msgs[i].toolId !in called {
        assert Answered(msgs, msgs[i].toolId);
        return Some(msgs[i].toolId);
      }
      answered := answered + {msgs[i].toolId};
    }
    assert forall id :: id in answered <==> Answered(msgs, id);
    if called - answered != {} {
      var id :| id in called - answered;
      return Some(id);
    }
    assert forall id :: id in called ==> id in answered by {
      forall id | id in called ensures id in answered {
        assert id !in called - answered;
      }
    }
    return None;
  }

  /** The pairing protocol is stronger than the self-check: a paired context always passes. */
  lemma {:induction false} WellPairedPassesSelfCheck(msgs: seq<Message>, id: string)
    requires WellPaired(msgs) && AllWellFormed(msgs)
    ensures Called(msgs, id) <==> Answered(msgs, id)
  {
    hide WellPaired, Ids;
    WellPairedIsPositional(msgs);
    if Called(msgs, id) {
      var i, j :| 0 <= i < |msgs| && 0 <= j < |msgs[i].calls| && msgs[i].calls[j].id == id;
      assert WellFormed(msgs[i]) && CallIds(msgs[i])[j] == id;
      assert AnsweredAt(msgs, i, j);
    }
    if Answered(msgs, id) {
      var k :| 0 <= k < |msgs| && msgs[k].role == Tool && msgs[k].toolId == id;
      var i :| AnswersCallOf(msgs, i, k);
      assert AnsweredAt(msgs, i, k - i - 1);
      assert msgs[i].calls[k - i - 1].id == id;
    }
  }
}
