/** What text injected into the compaction input (agents/hooks.go:117-153) does to the outcome. */
module InjectionTheorems {
  import opened Messages
  import opened Compressor
  import opened CompactTheorems

  // ---- where the injected message lands -----------------------------------------------------

  /** A user-free message inserted outside the latest user run, not before a leading prompt. */
  ghost predicate OutsideRun(msgs: seq<Message>, pos: nat) {
    && pos <= |msgs|
    && (pos <= UserStart(msgs) || pos > UserEnd(msgs))
    && (pos == 0 && msgs != [] ==> msgs[0].role != System)
  }

  lemma {:induction false} UserRunIs(msgs: seq<Message>, s: int, e: int)
    requires -1 <= e < |msgs| && (e >= 0 ==> msgs[e].role == User) && forall i | e < i < |msgs| :: msgs[i].role != User
    requires e < 0 ==> s == e
    requires e >= 0 ==> 0 <= s <= e && (s > 0 ==> msgs[s - 1].role != User) && forall i | s <= i <= e ::
             msgs[i].role == User
    ensures UserEnd(msgs) == e && UserStart(msgs) == s
  {
    var e' := UserEnd(msgs);
    assert e' == e;
    var s' := RunStart(msgs, e);
  }

  lemma {:induction false} TailIs(msgs: seq<Message>, s: nat)
    requires s <= |msgs| && (s > 0 ==> msgs[s - 1].role != User) && forall i | s <= i < |msgs| :: msgs[i].role == User
    ensures TailStart(msgs, |msgs|) == s
  {
    var s' := TailStart(msgs, |msgs|);
  }

  lemma {:induction false} PositionOutsideRun(msgs: seq<Message>)
    ensures OutsideRun(msgs, InjectPosition(msgs))
  {
    var s := TailStart(msgs, |msgs|);
    if s < |msgs| { UserRunIs(msgs, s, |msgs| - 1); }
  }

  function Shift(pos: nat, i: int): int { if i < pos then i else i + 1 }

  function Insert(msgs: seq<Message>, pos: nat, x: Message): seq<Message>
    requires pos <= |msgs|
  {
    msgs[..pos] + [x] + msgs[pos..]
  }

  lemma {:induction false} RunShifts(msgs: seq<Message>, pos: nat, x: Message)
    requires OutsideRun(msgs, pos) && x.role != User
    ensures UserEnd(Insert(msgs, pos, x)) == (if UserEnd(msgs) < 0 then -1 else Shift(pos, UserEnd(msgs)))
    ensures UserStart(Insert(msgs, pos, x)) == (if UserEnd(msgs) < 0 then -1 else Shift(pos, UserStart(msgs)))
  {
    var out := Insert(msgs, pos, x);
    var e, s := UserEnd(msgs), UserStart(msgs);
    forall i | 0 <= i < |out| ensures out[i] == if i < pos then msgs[i] else if i == pos then x else msgs[i - 1] {}
    UserRunIs(out, if e < 0 then -1 else Shift(pos, s), if e < 0 then -1 else Shift(pos, e));
  }

  lemma {:induction false} PlacesShift(msgs: seq<Message>, pos: nat, x: Message, i: nat)
    requires OutsideRun(msgs, pos) && x.role != User && i < |msgs|
    ensures PlaceOf(Insert(msgs, pos, x), Shift(pos, i)) == PlaceOf(msgs, i)
  {
    RunShifts(msgs, pos, x);
    assert Insert(msgs, pos, x)[Shift(pos, i)] == msgs[i];
  }

  lemma {:induction false} InsertedIsHistory(msgs: seq<Message>, pos: nat, x: Message)
    requires OutsideRun(msgs, pos) && x.role == Assistant && !IsSummaryMessage(x)
    ensures PlaceOf(Insert(msgs, pos, x), pos) == History
  {
    RunShifts(msgs, pos, x);
    assert Insert(msgs, pos, x)[pos] == x;
  }

  lemma {:induction false} CollectBefore(msgs: seq<Message>, pos: nat, x: Message, place: Place, n: nat)
    requires OutsideRun(msgs, pos) && x.role == Assistant && !IsSummaryMessage(x) && n <= pos
    ensures Collect(Insert(msgs, pos, x), place, n) == Collect(msgs, place, n)
  {
    if n > 0 {
      CollectBefore(msgs, pos, x, place, n - 1);
      PlacesShift(msgs, pos, x, n - 1);
    }
  }

  lemma {:induction false} CollectGrows(msgs: seq<Message>, place: Place, pos: nat, n: nat)
    requires pos <= n <= |msgs|
    ensures Collect(msgs, place, pos) <= Collect(msgs, place, n)
  {
    if pos < n { CollectGrows(msgs, place, pos, n - 1); }
  }

  /** Only the history sees the inserted message, at its place in the order. */
  function WithInserted(msgs: seq<Message>, pos: nat, x: Message, place: Place, n: nat): seq<Message>
    requires pos <= n <= |msgs|
  {
    var was := Collect(msgs, place, n);
    CollectGrows(msgs, place, pos, n);
    var k := |Collect(msgs, place, pos)|;
    if place == History then was[..k] + [x] + was[k..] else was
  }

  lemma {:induction false} CollectBehind(msgs: seq<Message>, pos: nat, x: Message, place: Place, n: nat)
    requires OutsideRun(msgs, pos) && x.role == Assistant && !IsSummaryMessage(x) && pos <= n <= |msgs|
    ensures Collect(Insert(msgs, pos, x), place, n + 1) == WithInserted(msgs, pos, x, place, n)
  {
    hide PlaceOf, OutsideRun;
    if n == pos {
      CollectBefore(msgs, pos, x, place, pos);
      InsertedIsHistory(msgs, pos, x);
      assert Insert(msgs, pos, x)[pos] == x;
    } else {
      CollectBehind(msgs, pos, x, place, n - 1);
      PlacesShift(msgs, pos, x, n - 1);
      assert Insert(msgs, pos, x)[n] == msgs[n - 1];
      WithInsertedStep(msgs, pos, x, place, n);
    }
  }

  lemma {:induction false} WithInsertedStep(msgs: seq<Message>, pos: nat, x: Message, place: Place, n: nat)
    requires pos < n <= |msgs|
    ensures WithInserted(msgs, pos, x, place, n) ==
            WithInserted(msgs, pos, x, place, n - 1) + if PlaceOf(msgs, n - 1) == place then [msgs[n - 1]] else []
  {
    CollectGrows(msgs, place, pos, n - 1);
    var k := |Collect(msgs, place, pos)|;
    var was, now := Collect(msgs, place, n - 1), Collect(msgs, place, n);
    assert now[..k] == was[..k];
    assert now[k..] == was[k..] + if PlaceOf(msgs, n - 1) == place then [msgs[n - 1]] else [];
  }

  lemma {:induction false} AnchorShifts(msgs: seq<Message>, pos: nat, x: Message, n: nat)
    requires pos <= |msgs| && x.role != User && n <= |msgs|
    ensures var a := AnchorIndex(msgs, n);
            AnchorIndex(Insert(msgs, pos, x), if n < pos then n else n + 1) == if a < 0 then -1 else Shift(pos, a)
  {
    var out := Insert(msgs, pos, x);
    if n == 0 {
      if pos == 0 { assert AnchorIndex(out, 0) == -1; }
    } else {
      AnchorShifts(msgs, pos, x, n - 1);
      if n == pos {
        assert out[n - 1] == msgs[n - 1] && out[n] == x;
        assert AnchorIndex(out, n + 1) == AnchorIndex(out, n);
      } else if n < pos {
        assert out[n - 1] == msgs[n - 1];
      } else {
        assert out[n] == msgs[n - 1];
      }
    }
  }

  lemma {:induction false} OneInjectionGrowsHistory(msgs: seq<Message>, inject: Text)
    ensures var now, was := SplitOf(Injected(msgs, inject), 0), SplitOf(msgs, 0);
            && now.system == was.system && now.latestUser == was.latestUser && now.summaries == was.summaries
            && now.recent == was.recent == []
    ensures SplitOf(Injected(msgs, inject), 0).history ==
            WithInserted(msgs, InjectPosition(msgs), InjectedMessage(inject), History, |msgs|)
  {
    var pos, x := InjectPosition(msgs), InjectedMessage(inject);
    PositionOutsideRun(msgs);
    assert Injected(msgs, inject) == Insert(msgs, pos, x);
    CollectBehind(msgs, pos, x, Prompt, |msgs|);
    CollectBehind(msgs, pos, x, LatestUser, |msgs|);
    CollectBehind(msgs, pos, x, Summary, |msgs|);
    CollectBehind(msgs, pos, x, History, |msgs|);
    EmptyWindow(msgs);
    EmptyWindow(Insert(msgs, pos, x));
  }

  /** The injected messages as they come to stand, in a row: in order, but the first one last when the
      context starts with what must stay in front of them (agents/hooks.go:140-146). */
  function InjectedBlock(msgs: seq<Message>, injects: seq<Text>): seq<Message>
    decreases injects
  {
    if injects == [] then []
    else
      var next, x := Injected(msgs, injects[0]), InjectedMessage(injects[0]);
      var rest := InjectedBlock(next, injects[1..]);
      if InjectPosition(next) == InjectPosition(msgs) then rest + [x] else [x] + rest
  }

  function InjectedMessages(injects: seq<Text>): seq<Message> {
    seq(|injects|, i requires 0 <= i < |injects| => InjectedMessage(injects[i]))
  }

  lemma {:induction false} BlockHasAll(msgs: seq<Message>, injects: seq<Text>)
    ensures multiset(InjectedBlock(msgs, injects)) == multiset(InjectedMessages(injects))
    decreases injects
  {
    if injects != [] {
      BlockHasAll(Injected(msgs, injects[0]), injects[1..]);
      assert InjectedMessages(injects) == [InjectedMessage(injects[0])] + InjectedMessages(injects[1..]);
    }
  }

  lemma {:induction false} PositionMoves(msgs: seq<Message>, inject: Text)
    ensures var next, pos := Injected(msgs, inject), InjectPosition(msgs);
            InjectPosition(next) == pos || InjectPosition(next) == pos + 1
  {
    InjectedTail(msgs, inject);
  }

  /** The history in front of the place where injected text goes. */
  function FrontHistory(msgs: seq<Message>): nat { |Collect(msgs, History, InjectPosition(msgs))| }

  lemma {:induction false} HistoryIsLong(msgs: seq<Message>)
    ensures FrontHistory(msgs) <= |SplitOf(msgs, 0).history|
  {
    CollectGrows(msgs, History, InjectPosition(msgs), |msgs|);
  }

  lemma {:induction false} FrontMoves(msgs: seq<Message>, inject: Text)
    ensures var next := Injected(msgs, inject);
            FrontHistory(next) == FrontHistory(msgs) + if InjectPosition(next) == InjectPosition(msgs) then 0 else 1
  {
    var next, pos, x := Injected(msgs, inject), InjectPosition(msgs), InjectedMessage(inject);
    PositionMoves(msgs, inject);
    PositionOutsideRun(msgs);
    assert next == Insert(msgs, pos, x);
    CollectBefore(msgs, pos, x, History, pos);
    CollectBehind(msgs, pos, x, History, pos);
  }

  /** `block` put into `was` at k. */
  predicate Spliced(now: seq<Message>, was: seq<Message>, k: nat, block: seq<Message>) {
    k <= |was| && now == was[..k] + block + was[k..]
  }

  lemma {:induction false} SplicedTwice(was: seq<Message>, k: nat, x: Message, mid: seq<Message>, behind: bool,
                                        rest: seq<Message>, now: seq<Message>)
    requires Spliced(mid, was, k, [x]) && Spliced(now, mid, if behind then k + 1 else k, rest)
    ensures Spliced(now, was, k, if behind then [x] + rest else rest + [x])
  {
    if behind {
      assert mid[..k + 1] == was[..k] + [x] && mid[k + 1..] == was[k..];
    } else {
      assert mid[..k] == was[..k] && mid[k..] == [x] + was[k..];
    }
  }

  lemma {:induction false} GrownHistory(msgs: seq<Message>, inject: Text)
    ensures var k, was := FrontHistory(msgs), SplitOf(msgs, 0).history;
            Spliced(SplitOf(Injected(msgs, inject), 0).history, was, k, [InjectedMessage(inject)])
  {
    HistoryIsLong(msgs);
    OneInjectionGrowsHistory(msgs, inject);
  }

  lemma {:induction false} HistoryTakesBlock(msgs: seq<Message>, injects: seq<Text>)
    ensures Spliced(SplitOf(InjectedAll(msgs, injects), 0).history, SplitOf(msgs, 0).history, FrontHistory(msgs),
                    InjectedBlock(msgs, injects))
    decreases injects
  {
    hide SplitOf, InjectPosition, Injected, FrontHistory, Spliced, InjectedMessage;
    var was := SplitOf(msgs, 0).history;
    if injects == [] {
      HistoryIsLong(msgs);
      NothingSpliced(was, FrontHistory(msgs));
    } else {
      var next, x := Injected(msgs, injects[0]), InjectedMessage(injects[0]);
      GrownHistory(msgs, injects[0]);
      FrontMoves(msgs, injects[0]);
      HistoryTakesBlock(next, injects[1..]);
      SplicedTwice(was, FrontHistory(msgs), x, SplitOf(next, 0).history, InjectPosition(next) != InjectPosition(msgs),
                   InjectedBlock(next, injects[1..]), SplitOf(InjectedAll(msgs, injects), 0).history);
    }
  }

  lemma {:induction false} NothingSpliced(was: seq<Message>, k: nat)
    requires k <= |was|
    ensures Spliced(was, was, k, [])
  {
  }

  lemma {:induction false} OtherPartsStay(msgs: seq<Message>, injects: seq<Text>)
    ensures var now, was := SplitOf(InjectedAll(msgs, injects), 0), SplitOf(msgs, 0);
            && now.system == was.system && now.latestUser == was.latestUser && now.summaries == was.summaries
            && now.recent == was.recent == []
    decreases injects
  {
    hide SplitOf, Injected;
    if injects == [] {
      NoWindowNoRecent(msgs);
    } else {
      OneInjectionGrowsHistory(msgs, injects[0]);
      OtherPartsStay(Injected(msgs, injects[0]), injects[1..]);
    }
  }

  /** Without a recent window, any injected texts change the history and nothing else of the split:
      they stand in it in a row, at the place of the first. */
  lemma {:induction false} InjectionOnlyGrowsHistory(msgs: seq<Message>, injects: seq<Text>)
    ensures var now, was := SplitOf(InjectedAll(msgs, injects), 0), SplitOf(msgs, 0);
            && now.system == was.system && now.latestUser == was.latestUser && now.summaries == was.summaries
            && now.recent == was.recent == []
            && Spliced(now.history, was.history, FrontHistory(msgs), InjectedBlock(msgs, injects))
    ensures multiset(InjectedBlock(msgs, injects)) == multiset(InjectedMessages(injects))
  {
    hide SplitOf, InjectedAll, InjectedBlock, Spliced, FrontHistory, InjectedMessages;
    OtherPartsStay(msgs, injects);
    HistoryTakesBlock(msgs, injects);
    BlockHasAll(msgs, injects);
  }

  lemma {:induction false} NoWindowNoRecent(msgs: seq<Message>)
    ensures SplitOf(msgs, 0).recent == []
  {
    EmptyWindow(msgs);
  }

  /** The task anchor names the same message as before, and stands in the latest user run as before. */
  lemma {:induction false} AnchorAcross(msgs: seq<Message>, pos: nat, x: Message)
    requires OutsideRun(msgs, pos) && x.role != User
    ensures var out := Insert(msgs, pos, x);
            var a, b := AnchorIndex(msgs, |msgs|), AnchorIndex(out, |out|);
            && (a >= 0 <==> b >= 0) && (a >= 0 ==> out[b] == msgs[a])
            && (a >= 0 ==> (UserStart(msgs) <= a <= UserEnd(msgs) <==> UserStart(out) <= b <= UserEnd(out)))
  {
    RunShifts(msgs, pos, x);
    AnchorShifts(msgs, pos, x, |msgs|);
    var a := AnchorIndex(msgs, |msgs|);
    if a >= 0 { ShiftedRun(msgs, pos, x, a, UserStart(msgs), UserEnd(msgs)); }
  }

  lemma {:induction false} ShiftedRun(msgs: seq<Message>, pos: nat, x: Message, a: int, s: int, e: int)
    requires pos <= |msgs| && (pos <= s || pos > e) && s <= e < |msgs| && 0 <= a < |msgs|
    ensures Insert(msgs, pos, x)[Shift(pos, a)] == msgs[a]
    ensures s <= a <= e <==> Shift(pos, s) <= Shift(pos, a) <= Shift(pos, e)
  {
  }

  /** The engine's anchor of the task is the same message in both contexts. */
  ghost predicate SameAnchor(out: seq<Message>, msgs: seq<Message>) {
    var now, was := SplitOf(out, 0), SplitOf(msgs, 0);
    && (now.anchorIdx >= 0 <==> was.anchorIdx >= 0) && now.anchorInLatest == was.anchorInLatest
    && now.anchorIdx < |out| && was.anchorIdx < |msgs|
    && (was.anchorIdx >= 0 ==> out[now.anchorIdx] == msgs[was.anchorIdx])
  }

  /** Any injected texts leave it as it is. */
  lemma {:induction false} InjectionKeepsAnchor(msgs: seq<Message>, injects: seq<Text>)
    ensures SameAnchor(InjectedAll(msgs, injects), msgs)
    decreases injects
  {
    hide Injected, SplitOf;
    if injects != [] {
      OneInjectionKeepsAnchor(msgs, injects[0]);
      InjectionKeepsAnchor(Injected(msgs, injects[0]), injects[1..]);
    } else {
      AnchorInside(msgs);
    }
  }

  lemma {:induction false} AnchorInside(msgs: seq<Message>)
    ensures SplitOf(msgs, 0).anchorIdx < |msgs|
  {
  }

  lemma {:induction false} OneInjectionKeepsAnchor(msgs: seq<Message>, inject: Text)
    ensures SameAnchor(Injected(msgs, inject), msgs)
  {
    PositionOutsideRun(msgs);
    assert Injected(msgs, inject) == Insert(msgs, InjectPosition(msgs), InjectedMessage(inject));
    AnchorAcross(msgs, InjectPosition(msgs), InjectedMessage(inject));
  }

  lemma {:induction false} EmptyWindow(msgs: seq<Message>)
    ensures Recent(msgs, 0) == []
  {
  }

  // ---- pairing of the compacted context --------------------------------------------------------

  /** The message before the trailing user messages is a tool result. */
  predicate TailTool(msgs: seq<Message>) {
    var s := TailStart(msgs, |msgs|);
    0 < s < |msgs| && msgs[s - 1].role == Tool
  }

  ghost predicate Safe(msgs: seq<Message>) {
    AllWellFormed(msgs) && PrefixPaired(msgs) && !TailTool(msgs)
  }

  lemma {:induction false} InjectedWellFormed(msgs: seq<Message>, inject: Text)
    requires AllWellFormed(msgs)
    ensures AllWellFormed(Injected(msgs, inject))
  {
  }

  lemma {:induction false} InjectedTail(msgs: seq<Message>, inject: Text)
    ensures TailStart(Injected(msgs, inject), |msgs| + 1) == TailStart(msgs, |msgs|) + 1
  {
    TailIs(Injected(msgs, inject), TailStart(msgs, |msgs|) + 1);
  }

  lemma {:induction false} SafePrefix(msgs: seq<Message>, pos: nat, x: Message)
    requires pos <= |msgs| && Residue([], msgs) == Some([]) && (pos < |msgs| ==> msgs[pos].role != Tool)
    requires x.role == Assistant && x.calls == []
    ensures Residue([], Insert(msgs, pos, x)) == Some([])
  {
    if pos < |msgs| {
      BoundaryIsClosed(msgs, pos);
    } else {
      assert msgs[..pos] == msgs;
    }
    assert msgs == msgs[..pos] + msgs[pos..];
    ResidueConcat([], msgs[..pos], msgs[pos..]);
    ResidueSnoc([], msgs[..pos], x);
    ResidueConcat([], msgs[..pos] + [x], msgs[pos..]);
  }

  lemma {:induction false} PrefixStaysAtTail(msgs: seq<Message>, pos: nat, x: Message, s: nat)
    requires OutsideRun(msgs, pos) && pos <= s == UserStart(msgs)
    requires Residue([], msgs[..s]) == Some([]) && (pos < s ==> msgs[pos].role != Tool)
    requires x.role == Assistant && x.calls == []
    ensures PrefixPaired(Insert(msgs, pos, x))
  {
    RunShifts(msgs, pos, x);
    assert msgs[..s][..pos] == msgs[..pos];
    SafePrefix(msgs[..s], pos, x);
    assert Insert(msgs, pos, x)[..s + 1] == Insert(msgs[..s], pos, x);
  }

  lemma {:induction false} PrefixStaysBehind(msgs: seq<Message>, pos: nat, x: Message)
    requires OutsideRun(msgs, pos) && pos > UserEnd(msgs) && PrefixPaired(msgs) && x.role != User
    ensures PrefixPaired(Insert(msgs, pos, x))
  {
    RunShifts(msgs, pos, x);
    var us := UserStart(msgs);
    if us >= 0 { assert Insert(msgs, pos, x)[..us] == msgs[..us]; }
  }

  lemma {:induction false} PrefixStays(msgs: seq<Message>, inject: Text)
    requires PrefixPaired(msgs) && !TailTool(msgs)
    ensures PrefixPaired(Injected(msgs, inject))
  {
    var pos, s, x := InjectPosition(msgs), TailStart(msgs, |msgs|), InjectedMessage(inject);
    PositionOutsideRun(msgs);
    assert Injected(msgs, inject) == Insert(msgs, pos, x);
    if s < |msgs| {
      UserRunIs(msgs, s, |msgs| - 1);
      PrefixStaysAtTail(msgs, pos, x, s);
    } else {
      TailBehind(msgs);
      PrefixStaysBehind(msgs, pos, x);
    }
  }

  lemma {:induction false} TailBehind(msgs: seq<Message>)
    requires TailStart(msgs, |msgs|) == |msgs|
    ensures InjectPosition(msgs) > UserEnd(msgs)
  {
  }

  lemma {:induction false} SafeInjected(msgs: seq<Message>, inject: Text)
    requires Safe(msgs)
    ensures Safe(Injected(msgs, inject))
  {
    InjectedWellFormed(msgs, inject);
    InjectedTail(msgs, inject);
    PrefixStays(msgs, inject);
    var s := TailStart(msgs, |msgs|);
    if s < |msgs| { assert Injected(msgs, inject)[s].role != Tool; }
  }

  lemma {:induction false} SafeInjectedAll(msgs: seq<Message>, injects: seq<Text>)
    requires Safe(msgs)
    ensures Safe(InjectedAll(msgs, injects))
    decreases injects
  {
    if injects != [] {
      SafeInjected(msgs, injects[0]);
      SafeInjectedAll(Injected(msgs, injects[0]), injects[1..]);
    }
  }

  lemma {:induction false} PileOne(msgs: seq<Message>, inject: Text)
    requires AllWellFormed(msgs) && TailTool(msgs)
    ensures var next, s := Injected(msgs, inject), TailStart(msgs, |msgs|);
            && AllWellFormed(next) && TailTool(next) && TailStart(next, |next|) == s + 1
            && next[s] == msgs[s - 1] && next[s - 1] == InjectedMessage(inject)
  {
    InjectedWellFormed(msgs, inject);
    InjectedTail(msgs, inject);
  }

  /** In front of a trailing tool result the injected messages pile up directly before that result. */
  lemma {:induction false} PileUp(msgs: seq<Message>, injects: seq<Text>)
    requires AllWellFormed(msgs) && TailTool(msgs)
    ensures var all := InjectedAll(msgs, injects);
            var s' := TailStart(all, |all|);
            && AllWellFormed(all) && TailTool(all) && all[s' - 1] == msgs[TailStart(msgs, |msgs|) - 1]
            && (injects != [] ==> s' >= 2 && all[s' - 2] == InjectedMessage(injects[|injects| - 1]))
            && (injects == [] ==> all == msgs)
    decreases injects
  {
    hide AllWellFormed, Injected, InjectedMessage;
    if injects != [] {
      var next := Injected(msgs, injects[0]);
      PileOne(msgs, injects[0]);
      PileUp(next, injects[1..]);
      if |injects| == 1 {
        assert InjectedAll(next, injects[1..]) == next;
      } else {
        assert injects[1..][|injects| - 2] == injects[|injects| - 1];
      }
    }
  }

  lemma {:induction false} EndsBroken(head: seq<Message>, x: Message, tool: Message)
    requires x.role == Assistant && x.calls == [] && tool.role == Tool
    ensures !WellPaired(head + [x, tool])
  {
    ResidueConcat([], head, [x, tool]);
    assert [x, tool][1..] == [tool];
    assert [x, tool][0] == x;
  }

  /** The window ends with the pair the injection produced. */
  lemma {:induction false} WindowEnds(msgs: seq<Message>, lo: nat, hi: nat)
    requires lo + 2 <= hi <= |msgs| && !Skipped(msgs, hi - 1) && !Skipped(msgs, hi - 2)
    ensures |Window(msgs, lo, hi)| >= 2
    ensures Window(msgs, lo, hi)[|Window(msgs, lo, hi)| - 2..] == [msgs[hi - 2], msgs[hi - 1]]
    decreases hi - lo
  {
    hide Skipped;
    if lo + 2 == hi {
      assert Window(msgs, hi - 1, hi) == [msgs[hi - 1]] by { assert Window(msgs, hi, hi) == []; }
      assert Window(msgs, lo, hi) == [msgs[lo]] + Window(msgs, hi - 1, hi);
    } else {
      WindowEnds(msgs, lo + 1, hi);
    }
  }

  lemma {:induction false} WindowReachesBack(msgs: seq<Message>, keepRecent: nat, s: nat)
    requires UserStart(msgs) == s >= 2 && keepRecent > 0 && AllWellFormed(msgs)
    requires msgs[s - 1].role == Tool && msgs[s - 2].role == Assistant
    ensures WindowStart(msgs, keepRecent) <= s - 2
  {
    assert WellFormed(msgs[s - 1]) && WellFormed(msgs[s - 2]);
    assert !Skipped(msgs, s - 1) && !Skipped(msgs, s - 2);
    var o := OldestOf(msgs, s - 1, s - 1, keepRecent - 1);
    assert OldestOf(msgs, s, s, keepRecent) == o;
    if o == s - 1 {
      assert ExtendedTo(msgs, s - 1) <= s - 2 by {
        assert ExtendedTo(msgs, s - 1) == ExtendedTo(msgs, s - 2);
      }
    }
  }

  lemma {:induction false} TrimTwo(recent: seq<Message>, limit: int)
    requires |recent| >= 2 && recent[|recent| - 2].role != Tool && recent[|recent| - 1].role == Tool
    ensures limit <= 0 || Tokens(recent[|recent| - 2..]) <= limit ==> TrimStart(recent, limit) <= |recent| - 2
    ensures !(limit <= 0 || Tokens(recent[|recent| - 2..]) <= limit) ==> TrimStart(recent, limit) == |recent|
  {
    var n := |recent|;
    assert recent[0..] == recent;
    ShorterIsSmaller(recent, 0, n - 2);
    var k := FitsFrom(recent, limit, 0);
    if limit > 0 && k <= n - 2 { ShorterIsSmaller(recent, k, n - 2); }
  }

  /** A recent window survives injected context exactly when no tool result stands right before the
      trailing user messages, or the window is off, or too small for the injected text and that result. */
  predicate Splits(msgs: seq<Message>, injects: seq<Text>, cfg: CompactConfig) {
    injects != [] && cfg.keepRecent > 0 && TailTool(msgs) &&
    (RecentTokenLimit(cfg.contextWindow) <= 0 ||
     Tokens([InjectedMessage(injects[|injects| - 1]),
             msgs[TailStart(msgs, |msgs|) - 1]]) <= RecentTokenLimit(cfg.contextWindow))
  }

  lemma {:induction false} BrokenWindow(recent: seq<Message>, limit: int, x: Message, tool: Message)
    requires |recent| >= 2 && recent[|recent| - 2..] == [x, tool] && x.role == Assistant && x.calls == [] &&
             tool.role == Tool
    ensures WellPaired(Trimmed(recent, limit)) <==> !(limit <= 0 || Tokens([x, tool]) <= limit)
  {
    hide Tokens;
    var n := |recent|;
    assert recent[n - 2] == recent[n - 2..][0] && recent[n - 1] == recent[n - 2..][1];
    TrimTwo(recent, limit);
    var k := TrimStart(recent, limit);
    if k <= n - 2 {
      assert recent[k..] == recent[k..n - 2] + [x, tool];
      EndsBroken(recent[k..n - 2], x, tool);
    }
  }

  lemma {:induction false} RecentEnds(all: seq<Message>, keepRecent: nat)
    requires AllWellFormed(all) && TailTool(all) && keepRecent > 0
    requires var s := TailStart(all, |all|); s >= 2 && all[s - 2].role == Assistant
    ensures var s := TailStart(all, |all|);
            var recent := Recent(all, keepRecent);
            |recent| >= 2 && recent[|recent| - 2..] == [all[s - 2], all[s - 1]]
  {
    var s := TailStart(all, |all|);
    UserRunIs(all, s, |all| - 1);
    WindowReachesBack(all, keepRecent, s);
    assert WellFormed(all[s - 1]) && WellFormed(all[s - 2]);
    WindowEnds(all, WindowStart(all, keepRecent), s);
  }

  lemma {:induction false} RecentAfterInjection(msgs: seq<Message>, injects: seq<Text>, keepRecent: nat, limit: int)
    requires AllWellFormed(msgs) && TailTool(msgs) && injects != [] && keepRecent > 0
    ensures var pair := [InjectedMessage(injects[|injects| - 1]), msgs[TailStart(msgs, |msgs|) - 1]];
            WellPaired(Trimmed(Recent(InjectedAll(msgs, injects), keepRecent), limit)) <==>
              !(limit <= 0 || Tokens(pair) <= limit)
  {
    var all := InjectedAll(msgs, injects);
    PileUp(msgs, injects);
    RecentEnds(all, keepRecent);
    var s := TailStart(all, |all|);
    BrokenWindow(Recent(all, keepRecent), limit, all[s - 2], all[s - 1]);
  }

  lemma {:induction false} OutcomeIsRecent(msgs: seq<Message>, cfg: CompactConfig, md: Text)
    requires PartsOf(msgs, cfg).Some?
    ensures WellPaired(Assembled(PartsOf(msgs, cfg).value, md)) <==>
            WellPaired(Trimmed(Recent(msgs, cfg.keepRecent), RecentTokenLimit(cfg.contextWindow)))
  {
    hide Assembled, Recent, Trimmed, RecentTokenLimit, WellPaired;
    CollectRoles(msgs, |msgs|);
    AssembledResidue(PartsOf(msgs, cfg).value, md);
  }

  lemma {:induction false} NothingTrimmed(limit: int)
    ensures WellPaired(Trimmed([], limit))
  {
  }

  lemma {:induction false} AllOf(msgs: seq<Message>)
    ensures InjectedAll(msgs, []) == msgs
  {
  }

  /** Compaction of an injected context yields a paired one exactly when nothing splits. */
  lemma {:induction false} InjectionBreaksIff(msgs: seq<Message>, injects: seq<Text>, cfg: CompactConfig, md: Text)
    requires AllWellFormed(msgs) && WellPaired(msgs) && PartsOf(InjectedAll(msgs, injects), cfg).Some?
    ensures WellPaired(Assembled(PartsOf(InjectedAll(msgs, injects), cfg).value, md)) <==> !Splits(msgs, injects, cfg)
  {
    hide AllWellFormed, Assembled, TailTool, Recent, Trimmed, RecentTokenLimit, InjectedAll, Tokens, InjectedMessage,
         PartsOf, WellPaired;
    var all := InjectedAll(msgs, injects);
    AllOf(msgs);
    PairedHasPairedPrefix(msgs);
    if !TailTool(msgs) {
      SafeInjectedAll(msgs, injects);
      CompactKeepsPairing(all, cfg, md);
    } else if injects == [] {
      CompactKeepsPairing(all, cfg, md);
    } else {
      OutcomeIsRecent(all, cfg, md);
      if cfg.keepRecent > 0 {
        RecentAfterInjection(msgs, injects, cfg.keepRecent, RecentTokenLimit(cfg.contextWindow));
      } else {
        EmptyWindow(all);
        NothingTrimmed(RecentTokenLimit(cfg.contextWindow));
      }
    }
  }

  /** Such contexts are ordinary: a tool round followed by new user input. */
  lemma {:induction false} InjectionCanSplit(args: string, result: Text, next: Text, inject: Text, md: Text)
    ensures var msgs := [AssistantMessage([], [], [], [Call("c1", "bash", args)]), ToolMessage("c1", result),
                         UserMessage(next)];
            var parts := PartsOf(InjectedAll(msgs, [inject]), CompactConfig(1, 0, 0));
            && AllWellFormed(msgs) && WellPaired(msgs) && Splits(msgs, [inject], CompactConfig(1, 0, 0))
            && parts.Some? && !WellPaired(Assembled(parts.value, md))
  {
    var a, t, u := AssistantMessage([], [], [], [Call("c1", "bash", args)]), ToolMessage("c1", result),
      UserMessage(next);
    var msgs := [a, t, u];
    assert Ids(a.calls) == ["c1"] && ["c1"][1..] == [];
    assert msgs == [a, t] + [u] && [a, t] == [a] + [t] && [a] == [] + [a];
    ResidueSnoc([], [], a);
    ResidueSnoc([], [a], t);
    ResidueSnoc([], [a, t], u);
    TailIs(msgs, 2);
    hide WellPaired, Residue, Assembled;
    HasHistory(a, t, u, inject);
    InjectionBreaksIff(msgs, [inject], CompactConfig(1, 0, 0), md);
  }

  lemma {:induction false} HasHistory(a: Message, t: Message, u: Message, inject: Text)
    requires a.role == Assistant && t.role == Tool && u.role == User && !IsSummaryMessage(a)
    ensures PartsOf(InjectedAll([a, t, u], [inject]), CompactConfig(1, 0, 0)).Some?
  {
    hide Recent, Trimmed, RecentTokenLimit, Tokens;
    var msgs := [a, t, u];
    TailIs(msgs, 2);
    var x := InjectedMessage(inject);
    var all := Injected(msgs, inject);
    assert all == [a, x, t, u];
    assert [inject][1..] == [];
    AllOf(all);
    assert InjectedAll(msgs, [inject]) == all;
    UserRunIs(all, 3, 3);
    assert PlaceOf(all, 0) == History;
    assert Collect(all, History, 1) == [a] by { assert Collect(all, History, 0) == []; }
    CollectGrows(all, History, 1, 4);
  }
}
