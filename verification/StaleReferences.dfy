/** Two kinds of references a merge leaves wrong (agents/merge_pairs.go:268-285): a "#N" in the name
    of a folded file, which is no reference, and the message number in the note of a removed image,
    which is one but stands in an ordinary result. */
module StaleReferences {
  import opened Messages
  import opened Context
  import opened References
  import Strings
  import Slim
  import SlimImages
  import opened MergePairs
  import opened MergeTheorems

  // ---- renumbering a text that is read as a string --------------------------------------------

  /** Every reference whose target survives keeps its number, and is written without leading zeros. */
  ghost predicate KeepsNumbers(t: Text, index: map<nat, nat>) {
    forall k | 0 <= k < |t| && t[k].Ref? && t[k].n in index :: index[t[k].n] == t[k].n && t[k].zeros == 0
  }

  lemma {:induction false} KeepsNumbersStep(t: Text, index: map<nat, nat>)
    requires t != []
    ensures KeepsNumbers(t, index) <==>
            KeepsNumbers(t[1..], index) && (t[0].Ref? && t[0].n in index ==> index[t[0].n] == t[0].n && t[0].zeros == 0)
  {
    if KeepsNumbers(t[1..], index) && (t[0].Ref? && t[0].n in index ==> index[t[0].n] == t[0].n && t[0].zeros == 0) {
      forall k | 0 <= k < |t| && t[k].Ref? && t[k].n in index ensures index[t[k].n] == t[k].n && t[k].zeros == 0 {
        if k > 0 { assert t[k] == t[1..][k - 1]; }
      }
    }
  }

  lemma {:induction false} RenumberStep(t: Text, index: map<nat, nat>)
    requires t != []
    ensures Renumber(t, index)[0] == Renumber([t[0]], index)[0] && Renumber(t, index)[1..] == Renumber(t[1..], index)
  {
  }

  lemma {:induction false} RenumberedIsClean(t: Text, index: map<nat, nat>)
    requires Clean(t)
    ensures Clean(Renumber(t, index))
  {
    var r := Renumber(t, index);
    forall i, j | 0 <= i < |r| && j == i + 1 < |r| && r[i].Ref? && r[j].Lit? ensures !IsDigitAt(r[j].s) {
      assert t[i].Ref? && t[j] == r[j];
    }
  }

  predicate IsDigitAt(s: string) requires s != "" { Strings.IsDigit(s[0]) }

  lemma {:induction false} ValueOfZeros(zeros: nat, digits: string)
    requires Strings.AllDigits(digits)
    ensures Strings.AllDigits(Zeros(zeros) + digits) && Strings.Value(Zeros(zeros) + digits) == Strings.Value(digits)
    decreases zeros + |digits|
  {
    var all := Zeros(zeros) + digits;
    if digits != [] {
      ValueOfZeros(zeros, digits[..|digits| - 1]);
      assert all[..|all| - 1] == Zeros(zeros) + digits[..|digits| - 1];
    } else if zeros > 0 {
      ValueOfZeros(zeros - 1, []);
      assert all == Zeros(zeros - 1) + "0" && all[..|all| - 1] == Zeros(zeros - 1) + [];
    }
  }

  lemma {:induction false} WrittenOnce(n: nat, zeros: nat, m: nat)
    requires Zeros(zeros) + Strings.Decimal(n) == Zeros(0) + Strings.Decimal(m)
    ensures n == m && zeros == 0
  {
    ValueOfZeros(zeros, Strings.Decimal(n));
    ValueOfZeros(0, Strings.Decimal(m));
  }

  lemma {:induction false} SameFront(front: string, x: string, y: string)
    ensures front + x == front + y <==> x == y
  {
    if front + x == front + y { assert (front + x)[|front|..] == x && (front + y)[|front|..] == y; }
  }

  lemma {:induction false} SameNumber(a: string, b: string, x: string, y: string)
    requires Strings.AllDigits(a) && Strings.AllDigits(b) && StartsPlain(x) && StartsPlain(y)
    ensures "#" + a + x == "#" + b + y <==> a == b && x == y
  {
    if "#" + a + x == "#" + b + y {
      assert "#" + a + x == "#" + (a + x) && "#" + b + y == "#" + (b + y);
      SameFront("#", a + x, b + y);
      SameRun(a, b, x, y);
    }
  }

  function Digits(p: Part): string
    requires p.Ref?
    ensures Strings.AllDigits(Digits(p))
  {
    Zeros(p.zeros) + Strings.Decimal(p.n)
  }

  lemma {:induction false} WrittenDigits(p: Part, rest: string)
    requires p.Ref?
    ensures Written(p) + rest == "#" + Digits(p) + rest
  {
    assert "#" + Zeros(p.zeros) + Strings.Decimal(p.n) == "#" + Digits(p);
  }

  /** Two clean texts that start alike read the same exactly if their first pieces and their rests do. */
  lemma {:induction false} HeadsAndTails(t: Text, r: Text)
    requires Clean(t) && Clean(r) && t != [] && r != [] && (t[0] == r[0] || (t[0].Ref? && r[0].Ref?))
    ensures t[0].Lit? ==> (Rendered(r) == Rendered(t) <==> Rendered(r[1..]) == Rendered(t[1..]))
    ensures t[0].Ref? ==> (Rendered(r) == Rendered(t) <==>
                           Digits(r[0]) == Digits(t[0]) && Rendered(r[1..]) == Rendered(t[1..]))
  {
    var x, y := Rendered(r[1..]), Rendered(t[1..]);
    assert Rendered(r) == Written(r[0]) + x && Rendered(t) == Written(t[0]) + y;
    if t[0].Lit? {
      SameFront(Written(t[0]), x, y);
    } else {
      RestStartsPlain(t);
      RestStartsPlain(r);
      hide Rendered, Written, Clean, Digits;
      WrittenDigits(r[0], x);
      WrittenDigits(t[0], y);
      SameNumber(Digits(r[0]), Digits(t[0]), x, y);
    }
  }

  /** A reference with its new number is written the same only if the number is. */
  lemma {:induction false} SameDigits(p: Part, index: map<nat, nat>)
    requires p.Ref?
    ensures var q := Renumber([p], index)[0];
            q.Ref? && (Digits(q) == Digits(p) <==> (p.n in index ==> index[p.n] == p.n && p.zeros == 0))
  {
    if p.n in index {
      var m := index[p.n];
      if Digits(Ref(m)) == Digits(p) { WrittenOnce(p.n, p.zeros, m); }
    }
  }

  /** Renumbering changes what a text reads exactly if it changes a number. */
  lemma {:induction false} ReadsTheSameIff(t: Text, index: map<nat, nat>)
    requires Clean(t)
    ensures Rendered(Renumber(t, index)) == Rendered(t) <==> KeepsNumbers(t, index)
  {
    if t != [] {
      var r := Renumber(t, index);
      RenumberStep(t, index);
      KeepsNumbersStep(t, index);
      CleanTail(t);
      ReadsTheSameIff(t[1..], index);
      RenumberedIsClean(t, index);
      if t[0].Ref? { SameDigits(t[0], index); }
      hide Clean, KeepsNumbers, Renumber, Rendered, Digits;
      HeadsAndTails(t, r);
    }
  }

  // ---- folded files ---------------------------------------------------------------------------

  lemma {:induction false} SurvivingText(msgs: seq<Message>, protectRounds: int, j: nat)
    requires Merged(msgs, protectRounds).Some? && j < |Merged(msgs, protectRounds).value|
    ensures var plan := MergePlan(msgs, Rounds(protectRounds));
            var gone := Deleted(msgs, plan);
            var kept := Survivors(gone, |msgs|);
            j < |kept| && kept[j] < |msgs| &&
            Merged(msgs, protectRounds).value[j] == Final(msgs, plan, NewIndex(gone, |msgs|), kept[j])
  {
  }

  /** A surviving fold placeholder still names its file if and only if no "#N" in the name is the
      number of a message that survives under another number (or is padded with zeros). */
  lemma {:induction false} FoldNamesFileIff(msgs: seq<Message>, protectRounds: int, j: nat, path: string,
                                            rng: Option<Range>,
                                            st: EditStat, newIdx: nat, superseded: bool)
    requires Merged(msgs, protectRounds).Some? && j < |Merged(msgs, protectRounds).value|
    requires var m := msgs[Survivors(Deleted(msgs, MergePlan(msgs, Rounds(protectRounds))), |msgs|)[j]];
             m.role == Tool && m.content != [] && m.content[0].text == Slim.FoldText(path, rng, st, newIdx, superseded)
    ensures var index := NewIndex(Deleted(msgs, MergePlan(msgs, Rounds(protectRounds))), |msgs|);
            var text := Merged(msgs, protectRounds).value[j].content[0].text;
            |text| > |Cut(path)| && (Rendered(text[1..1 + |Cut(path)|]) == path <==> KeepsNumbers(Cut(path), index))
  {
    hide MergePlan, Deleted, Survivors, Merged, NewIndex, Cut, Rendered, KeepsNumbers;
    var plan := MergePlan(msgs, Rounds(protectRounds));
    var gone := Deleted(msgs, plan);
    SurvivingText(msgs, protectRounds, j);
    var index, i := NewIndex(gone, |msgs|), Survivors(gone, |msgs|)[j];
    FoldedFinal(msgs, plan, index, i, path, rng, st, newIdx, superseded);
    CutIsClean(path);
    CutRenders(path);
    ReadsTheSameIff(Cut(path), index);
  }

  lemma {:induction false} FoldedFinal(msgs: seq<Message>, plan: Plan, index: map<nat, nat>, i: nat, path: string,
                                       rng: Option<Range>,
                                       st: EditStat, newIdx: nat, superseded: bool)
    requires i < |msgs| && msgs[i].role == Tool && msgs[i].content != []
    requires msgs[i].content[0].text == Slim.FoldText(path, rng, st, newIdx, superseded)
    ensures var m := Final(msgs, plan, index, i);
            m.content != [] && |m.content[0].text| > |Cut(path)| &&
              m.content[0].text[1..1 + |Cut(path)|] == Renumber(Cut(path), index)
  {
    hide Cut, Slim.RangeText, Strings.Decimal;
    var t := Slim.FoldText(path, rng, st, newIdx, superseded);
    var r := Renumber(t, index);
    assert t[1..1 + |Cut(path)|] == Cut(path);
    assert r[1..1 + |Cut(path)|] == Renumber(Cut(path), index);
    var m := Final(msgs, plan, index, i);
    assert m.content[0].text == r || m.content[0].text == r + MergeNote(plan.absorbed[i]);
  }

  // ---- a merge that moves messages ------------------------------------------------------------

  /** Two reads of a file and of two more calls the first also reads a file; both answer `t`. */
  function MovingContext(args: string, stale: Text, current: Text, t: Text): seq<Message> {
    SingleRound(Call("c1", "read_file", args), stale) + SingleRound(Call("c2", "read_file", args), current) +
    SingleRound(Call("c3", "read_file", "a#5.go"), t) + SingleRound(Call("c4", "bash", "pwd"), t)
  }

  lemma {:induction false} ContextAt(args: string, stale: Text, current: Text, t: Text)
    ensures var msgs := MovingContext(args, stale, current, t);
            |msgs| == 8 && msgs[2] == AssistantMessage([], [], [], [Call("c2", "read_file", args)]) &&
              msgs[5] == ToolMessage("c3", t)
  {
  }

  lemma {:induction false} OnlySecondRedundant(args: string, stale: Text, current: Text, t: Text, k: nat)
    requires !IsSlimPlaceholder(stale) && !IsSlimPlaceholder(current)
    ensures var msgs := MovingContext(args, stale, current, t);
            ToolPairs(msgs) == [Pair(0, 0, 1, "read_file", args, stale, false),
                                Pair(2, 0, 3, "read_file", args, current, false),
                                Pair(4, 0, 5, "read_file", "a#5.go", t, false), Pair(6, 0, 7, "bash", "pwd", t, false)]
    ensures var pairs := ToolPairs(MovingContext(args, stale, current, t));
            k < |pairs| ==> (Redundant(pairs, ProtectedTools(pairs, 2), k) <==> k == 1)
  {
    hide ToolPairs, IsSlimPlaceholder;
    var msgs := MovingContext(args, stale, current, t);
    FourRounds(Call("c1", "read_file", args), Call("c2", "read_file", args), Call("c3", "read_file", "a#5.go"),
               Call("c4", "bash", "pwd"),
               stale, current, t);
    ProtectedIff(msgs, 2);
    var pairs := ToolPairs(msgs);
    if k < 2 {
      ReadSurvivesIffOldest(pairs, ProtectedTools(pairs, 2), k);
      assert Previous(pairs, ProtectedTools(pairs, 2), 0, 1) && KeyOf(pairs[0]) == KeyOf(pairs[1]);
    }
  }

  lemma {:induction false} OnlySecondGoes(args: string, stale: Text, current: Text, t: Text)
    requires !IsSlimPlaceholder(stale) && !IsSlimPlaceholder(current)
    ensures var msgs := MovingContext(args, stale, current, t);
            Merged(msgs, 0).Some? && Deleted(msgs, MergePlan(msgs, 2)) == {2, 3}
  {
    hide ToolPairs, MergePlan, Redundant, IsSlimPlaceholder;
    var msgs := MovingContext(args, stale, current, t);
    var plan, pairs := MergePlan(msgs, 2), ToolPairs(msgs);
    OnlySecondRedundant(args, stale, current, t, 0);
    forall k | 0 <= k < |pairs| ensures Redundant(pairs, ProtectedTools(pairs, 2), k) <==> k == 1 {
      OnlySecondRedundant(args, stale, current, t, k);
    }
    PlanIsRedundant(msgs, 2);
    assert pairs[1].toolIdx == 3 && pairs[1].assistantIdx == 2 && pairs[1].callIdx == 0;
    assert Redundant(pairs, ProtectedTools(pairs, 2), 1);
    assert RedundantResult(msgs, 2, 3) && RedundantCall(msgs, 2, 2, 0);
    assert plan.tools == {3};
    PlanBookkeepingOf(msgs);
    forall a, c ensures Planned(plan, a, c) <==> a == 2 && c == 0 {
      assert Planned(plan, a, c) <==> RedundantCall(msgs, 2, a, c);
    }
    assert Planned(plan, 2, 0);
    assert plan.calls.Keys == {2};
    assert forall c :: c in plan.calls[2] <==> Planned(plan, 2, c);
    assert plan.calls[2] == {0};
    ContextAt(args, stale, current, t);
    SecondIsEmpty(msgs, plan);
  }

  lemma {:induction false} PlanBookkeepingOf(msgs: seq<Message>)
    ensures forall a | a in MergePlan(msgs, 2).calls :: exists c :: Planned(MergePlan(msgs, 2), a, c)
  {
    var pairs := ToolPairs(msgs);
    PlanBookkeeping(Groups(pairs, ProtectedTools(pairs, 2)).groups, ProtectedTools(pairs, 2));
  }

  lemma {:induction false} SecondIsEmpty(msgs: seq<Message>, plan: Plan)
    requires |msgs| > 3 && plan.tools == {3} && plan.calls.Keys == {2} && plan.calls[2] == {0}
    requires exists c :: msgs[2] == AssistantMessage([], [], [], [c])
    ensures Deleted(msgs, plan) == {2, 3}
  {
    var c :| msgs[2] == AssistantMessage([], [], [], [c]);
    assert CallsLeft([c], {0}) == CallsLeft([c][..0], {0}) + [] == [];
    assert LeftEmpty(Edited(msgs, plan, 2));
    assert (set i | i in plan.calls && i < |msgs| && LeftEmpty(Edited(msgs, plan, i))) == {2};
  }

  lemma {:induction false} MovedIndex()
    ensures Survivors({2, 3}, 8) == [0, 1, 4, 5, 6, 7] && 5 in NewIndex({2, 3}, 8) && NewIndex({2, 3}, 8)[5] == 3
  {
    assert Survivors({2, 3}, 2) ==
           [0, 1] by { assert Survivors({2, 3}, 1) == [0] by { assert Survivors({2, 3}, 0) == []; } }
    assert Survivors({2, 3}, 4) == [0, 1] by { assert Survivors({2, 3}, 3) == [0, 1]; }
    assert Survivors({2, 3}, 6) == [0, 1, 4, 5] by { assert Survivors({2, 3}, 5) == [0, 1, 4]; }
    assert Survivors({2, 3}, 8) == [0, 1, 4, 5, 6, 7] by { assert Survivors({2, 3}, 7) == [0, 1, 4, 5, 6]; }
    NewIndexIsRank({2, 3}, 8);
    assert Survivors({2, 3}, 8)[3] == 5;
  }

  /** Such a merge turns the folded file "a#5.go" into "a#3.go", as message 5 becomes message 3. */
  lemma {:induction false} FoldNamesOtherFile(args: string, stale: Text, current: Text)
    requires !IsSlimPlaceholder(stale) && !IsSlimPlaceholder(current)
    ensures var out := Merged(MovingContext(args, stale, current,
                                            Slim.FoldText("a#5.go", None, EditStat(0, 0, 0, false), 7, true)), 0);
            && out.Some? && |out.value| > 3 && out.value[3].content != [] && |out.value[3].content[0].text| > 3
            && Rendered(out.value[3].content[0].text[1..4]) == "a#3.go"
  {
    hide MergePlan, Deleted, Survivors, Merged, NewIndex, IsSlimPlaceholder, Slim.FoldText, MovingContext, Final, Cut,
         Rendered, Renumber;
    var t := Slim.FoldText("a#5.go", None, EditStat(0, 0, 0, false), 7, true);
    var msgs := MovingContext(args, stale, current, t);
    OnlySecondGoes(args, stale, current, t);
    MovedIndex();
    assert Rounds(0) == 2;
    ContextAt(args, stale, current, t);
    SurvivorCount(msgs);
    SurvivingText(msgs, 0, 3);
    FoldedFinal(msgs, MergePlan(msgs, 2), NewIndex({2, 3}, 8), 5, "a#5.go", None, EditStat(0, 0, 0, false), 7, true);
    PathPieces(NewIndex({2, 3}, 8));
  }

  lemma {:induction false} SurvivorCount(msgs: seq<Message>)
    requires Merged(msgs, 0).Some?
    ensures |Merged(msgs, 0).value| == |Survivors(Deleted(msgs, MergePlan(msgs, 2)), |msgs|)|
  {
  }

  lemma {:induction false} CutBefore(c: char, s: string)
    requires c != '#'
    ensures Cut([c] + s) == Before(c, Cut(s))
  {
    assert ([c] + s)[1..] == s;
  }

  lemma {:induction false} CutReference(digits: string, rest: string)
    requires Strings.AllDigits(digits) && digits != [] && StartsPlain(rest)
    ensures Cut("#" + digits + rest) == [Number(digits)] + Cut(rest)
  {
    var s := "#" + digits + rest;
    assert s[1..] == digits + rest && (digits + rest)[..|digits|] == digits && (digits + rest)[|digits|..] == rest;
    RunLength(digits, rest);
  }

  lemma {:induction false} CutPlain(s: string)
    requires '#' !in s && s != []
    ensures Cut(s) == [Lit(s)]
  {
    assert s == [s[0]] + s[1..];
    CutBefore(s[0], s[1..]);
    if |s| > 1 {
      CutPlain(s[1..]);
    } else {
      assert s[1..] == [] && s == [s[0]] && Cut([]) == [];
      assert Before(s[0], []) == [Lit([s[0]])];
    }
  }

  lemma {:induction false} PathPieces(index: map<nat, nat>)
    requires 5 in index && index[5] == 3
    ensures Cut("a#5.go") == [Lit("a"), Ref(5), Lit(".go")]
    ensures Rendered(Renumber(Cut("a#5.go"), index)) == "a#3.go"
  {
    PathCut();
    hide Cut, Rendered, Written;
    var r := [Lit("a"), Ref(3), Lit(".go")];
    assert Renumber(Cut("a#5.go"), index) == r;
    assert r == [Lit("a")] + ([Ref(3)] + ([Lit(".go")] + []));
    RenderedFrom(Lit(".go"), []);
    RenderedFrom(Ref(3), [Lit(".go")] + []);
    RenderedFrom(Lit("a"), [Ref(3)] + ([Lit(".go")] + []));
    ThreeIsWritten();
    assert "a" + ("#3" + (".go" + "")) == "a#3.go";
  }

  lemma {:induction false} PathCut()
    ensures Cut("a#5.go") == [Lit("a"), Ref(5), Lit(".go")]
  {
    hide Cut, DigitRun, Number;
    CutPlain(".go");
    FiveIsNumber();
    CutReference("5", ".go");
    CutBefore('a', "#5.go");
    assert ['a'] + "#5.go" == "a#5.go" && "#" + "5" + ".go" == "#5.go";
  }

  lemma {:induction false} FiveIsNumber()
    ensures Strings.AllDigits("5") && Number("5") == Ref(5) && StartsPlain(".go")
  {
  }

  lemma {:induction false} ThreeIsWritten()
    ensures Written(Ref(3)) == "#3" && Written(Lit("a")) == "a" && Written(Lit(".go")) == ".go" && Rendered([]) == ""
  {
    assert Strings.Decimal(3) == "3" && Zeros(0) == "";
  }

  lemma {:induction false} RenderedFrom(p: Part, t: Text)
    ensures Rendered([p] + t) == Written(p) + Rendered(t)
  {
    assert ([p] + t)[1..] == t;
  }

  // ---- notes of removed images ----------------------------------------------------------------

  /** The note the image pass leaves names the message it stands in. */
  lemma {:induction false} NoteNamesItsMessage(msgs: seq<Message>, starts: seq<nat>, cfg: ImageConfig, i: nat)
    requires i < |msgs| && SlimImages.ImageGoes(msgs, starts, cfg, i)
    ensures var content := SlimImages.Slimmed(msgs, starts, cfg, i).content;
            var text := content[|content| - 1].text;
            content != [] && |text| >= 3 && text[|text| - 2] == Ref(i)
  {
    hide SlimImages.ImageGoes, SlimImages.ToolName, SlimImages.ImageAge;
  }

  /** Behind a merge it still does if and only if the result starts as a placeholder, with the note
      in that text, or no message before it was deleted. */
  lemma {:induction false} NoteNamesItsMessageIff(msgs: seq<Message>, protectRounds: int, j: nat, b: nat, k: nat)
    requires Merged(msgs, protectRounds).Some? && j < |Merged(msgs, protectRounds).value|
    requires var i := Survivors(Deleted(msgs, MergePlan(msgs, Rounds(protectRounds))), |msgs|)[j];
             b < |msgs[i].content| && k < |msgs[i].content[b].text| && msgs[i].content[b].text[k] == Ref(i)
    ensures var gone := Deleted(msgs, MergePlan(msgs, Rounds(protectRounds)));
            var i := Survivors(gone, |msgs|)[j];
            var m := Merged(msgs, protectRounds).value[j];
            && b < |m.content| && k < |m.content[b].text|
            && (m.content[b].text[k] == Ref(j) <==>
                (b == 0 && IsPlaceholderResult(msgs[i])) || forall d | 0 <= d < i :: d !in gone)
  {
    hide MergePlan, Deleted, Merged;
    var plan := MergePlan(msgs, Rounds(protectRounds));
    var gone := Deleted(msgs, plan);
    SurvivingText(msgs, protectRounds, j);
    var index, i := NewIndex(gone, |msgs|), Survivors(gone, |msgs|)[j];
    NewIndexIsRank(gone, |msgs|);
    RankIsPosition(gone, |msgs|, j);
    hide NewIndex, Survivors;
    NotedText(msgs, plan, index, i, b, k);
  }

  lemma {:induction false} NotedText(msgs: seq<Message>, plan: Plan, index: map<nat, nat>, i: nat, b: nat, k: nat)
    requires i < |msgs| && i in index && b < |msgs[i].content| && k < |msgs[i].content[b].text| &&
             msgs[i].content[b].text[k] == Ref(i)
    ensures var m := Final(msgs, plan, index, i);
            && b < |m.content| && k < |m.content[b].text|
            && m.content[b].text[k] == Ref(if b == 0 && IsPlaceholderResult(msgs[i]) then index[i] else i)
  {
  }

  lemma {:induction false} RankIsPosition(gone: set<nat>, n: nat, j: nat)
    requires j < |Survivors(gone, n)|
    ensures Survivors(gone, n)[j] == j <==> forall d | 0 <= d < Survivors(gone, n)[j] :: d !in gone
  {
    if n > 0 {
      var before := Survivors(gone, n - 1);
      if j < |before| {
        RankIsPosition(gone, n - 1, j);
        assert Survivors(gone, n)[j] == before[j];
      } else {
        CountIs(gone, n - 1);
      }
    }
  }

  lemma {:induction false} CountIs(gone: set<nat>, n: nat)
    ensures |Survivors(gone, n)| == n <==> forall d | 0 <= d < n :: d !in gone
  {
    if n > 0 { CountIs(gone, n - 1); }
  }

  lemma {:induction false} PrefixDecides(seen: Text, t: Text)
    requires seen != [] && seen <= t
    ensures IsSlimPlaceholder(t) <==> IsSlimPlaceholder(seen)
  {
  }

  /** An image result whose note says message 5 stands at 3 behind such a merge. */
  lemma {:induction false} NoteGoesStale(args: string, stale: Text, current: Text, seen: Text, tool: string, keep: nat,
                                         age: nat)
    requires !IsSlimPlaceholder(stale) && !IsSlimPlaceholder(current) && !IsSlimPlaceholder(seen) && seen != []
    ensures var t := seen + [Lit("\n")] + SlimImages.RemovedNote(tool, 5, keep, age);
            var out := Merged(MovingContext(args, stale, current, t), 0);
            && out.Some? && |out.value| > 3 && out.value[3].content != []
            && |seen| + 2 < |out.value[3].content[0].text| && out.value[3].content[0].text[|seen| + 2] == Ref(5)
  {
    hide MergePlan, Deleted, Survivors, Merged, NewIndex, MovingContext, Final, IsSlimPlaceholder;
    var t := seen + [Lit("\n")] + SlimImages.RemovedNote(tool, 5, keep, age);
    var msgs := MovingContext(args, stale, current, t);
    OnlySecondGoes(args, stale, current, t);
    MovedIndex();
    assert Rounds(0) == 2;
    ContextAt(args, stale, current, t);
    SurvivorCount(msgs);
    SurvivingText(msgs, 0, 3);
    PrefixDecides(seen, t);
    assert msgs[5].content[0].text == t && t[0] == seen[0] && !IsPlaceholderResult(msgs[5]);
    NotedText(msgs, MergePlan(msgs, 2), NewIndex({2, 3}, 8), 5, 0, |seen| + 2);
  }
}
