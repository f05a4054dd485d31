/** What compaction keeps of the context. */
module CompactTheorems {
  import opened Messages
  import opened Compressor

  // ---- every message has its place ---------------------------------------------------------

  /** Nothing is lost or doubled by the split. */
  lemma {:induction false} SplitIsPartition(msgs: seq<Message>, n: nat)
    requires n <= |msgs|
    ensures multiset(Collect(msgs, Prompt, n)) + multiset(Collect(msgs, LatestUser, n)) +
            multiset(Collect(msgs, Summary, n)) + multiset(Collect(msgs, History, n)) == multiset(msgs[..n])
  {
    hide PlaceOf, Collect;
    if n == 0 {
      CollectNone(msgs);
      assert msgs[..0] == [];
    } else {
      SplitIsPartition(msgs, n - 1);
      assert msgs[..n] == msgs[..n - 1] + [msgs[n - 1]];
      CollectStep(msgs, Prompt, n);
      CollectStep(msgs, LatestUser, n);
      CollectStep(msgs, Summary, n);
      CollectStep(msgs, History, n);
    }
  }

  lemma {:induction false} CollectNone(msgs: seq<Message>)
    ensures forall place :: Collect(msgs, place, 0) == []
  {
  }

  lemma {:induction false} CollectStep(msgs: seq<Message>, place: Place, n: nat)
    requires 0 < n <= |msgs|
    ensures multiset(Collect(msgs, place, n)) ==
            multiset(Collect(msgs, place, n - 1)) +
            (if PlaceOf(msgs, n - 1) == place then multiset{msgs[n - 1]} else multiset{})
  {
  }

  lemma {:induction false} CollectRun(msgs: seq<Message>, us: nat, ue: nat, n: nat)
    requires us <= ue < |msgs| && n <= |msgs|
    requires forall i | 0 <= i < |msgs| :: PlaceOf(msgs, i) == LatestUser <==> us <= i <= ue
    ensures Collect(msgs, LatestUser, n) == if n <= us then [] else if n <= ue then msgs[us..n] else msgs[us..ue + 1]
  {
    hide PlaceOf;
    if n > 0 {
      CollectRun(msgs, us, ue, n - 1);
      assert n - 1 >= us && n <= ue + 1 ==> msgs[us..n] == msgs[us..n - 1] + [msgs[n - 1]];
    }
  }

  /** The kept user block is the last run of user messages. */
  lemma {:induction false} LatestUserIsLastRun(msgs: seq<Message>, n: nat)
    requires n <= |msgs| && UserStart(msgs) >= 0
    ensures var us, ue := UserStart(msgs), UserEnd(msgs);
            Collect(msgs, LatestUser, n) == if n <= us then [] else if n <= ue then msgs[us..n] else msgs[us..ue + 1]
  {
    CollectRun(msgs, UserStart(msgs), UserEnd(msgs), n);
  }

  lemma {:induction false} CollectRoles(msgs: seq<Message>, n: nat)
    requires n <= |msgs|
    ensures forall m | m in Collect(msgs, Prompt, n) :: m.role == System
    ensures forall m | m in Collect(msgs, LatestUser, n) :: m.role == User
  {
    if n > 0 { CollectRoles(msgs, n - 1); }
  }

  // ---- pairing --------------------------------------------------------------------------------

  /** What compaction needs of the context: paired up to the latest user messages. */
  ghost predicate PrefixPaired(msgs: seq<Message>) {
    UserStart(msgs) >= 0 ==> Residue([], msgs[..UserStart(msgs)]) == Some([])
  }

  lemma {:induction false} PairedHasPairedPrefix(msgs: seq<Message>)
    requires WellPaired(msgs)
    ensures PrefixPaired(msgs)
  {
    if UserStart(msgs) >= 0 { BoundaryIsClosed(msgs, UserStart(msgs)); }
  }

  /** Before a message that is no tool result no call is open. */
  lemma {:induction false} BoundaryIsClosed(msgs: seq<Message>, i: nat)
    requires Residue([], msgs).Some? && i < |msgs| && msgs[i].role != Tool
    ensures Residue([], msgs[..i]) == Some([])
  {
    assert msgs == msgs[..i] + msgs[i..];
    ResidueConcat([], msgs[..i], msgs[i..]);
    assert msgs[i..][0] == msgs[i];
  }

  lemma {:induction false} WindowResidue(msgs: seq<Message>, lo: nat, hi: nat, open: seq<string>)
    requires AllWellFormed(msgs) && lo <= hi <= |msgs| && Residue(open, msgs[lo..hi]).Some?
    ensures Residue(open, Window(msgs, lo, hi)) == Residue(open, msgs[lo..hi])
    decreases hi - lo
  {
    if lo < hi {
      assert msgs[lo..hi][0] == msgs[lo] && msgs[lo..hi][1..] == msgs[lo + 1..hi];
      assert WellFormed(msgs[lo]);
      var next := Advance(open, msgs[lo]).value;
      WindowResidue(msgs, lo + 1, hi, next);
      if !Skipped(msgs, lo) {
        assert Window(msgs, lo, hi)[0] == msgs[lo] && Window(msgs, lo, hi)[1..] == Window(msgs, lo + 1, hi);
      } else {
        assert open == next == [];
        assert Window(msgs, lo, hi) == Window(msgs, lo + 1, hi);
      }
    }
  }

  /** Extending a window that starts with a result always reaches its assistant. */
  lemma {:induction false} ExtensionReachesAssistant(msgs: seq<Message>, o: nat)
    requires AllWellFormed(msgs) && Residue([], msgs).Some? && o < |msgs|
    ensures msgs[ExtendedTo(msgs, o)].role != Tool
  {
    hide Residue, AllWellFormed, IsSummaryMessage;
    if msgs[o].role == Tool {
      BehindTool(msgs, o);
      ExtensionReachesAssistant(msgs, o - 1);
    }
  }

  /** In front of a tool result stands another one or its assistant. */
  lemma {:induction false} BehindTool(msgs: seq<Message>, o: nat)
    requires AllWellFormed(msgs) && Residue([], msgs).Some? && o < |msgs| && msgs[o].role == Tool
    ensures o > 0 && (msgs[o - 1].role == Tool || msgs[o - 1].role == Assistant) && !IsSummaryMessage(msgs[o - 1])
  {
    hide Residue;
    OpenBefore(msgs, o);
    var i := OpenCallsOwner(msgs[..o]);
    assert msgs[o - 1].role == Tool || i == o - 1;
    assert WellFormed(msgs[o - 1]);
  }

  lemma {:induction false} OpenBefore(msgs: seq<Message>, o: nat)
    requires Residue([], msgs).Some? && o < |msgs| && msgs[o].role == Tool
    ensures Residue([], msgs[..o]).Some? && Residue([], msgs[..o]).value != []
  {
    hide Residue;
    assert msgs[..o + 1] == msgs[..o] + [msgs[o]];
    assert msgs == msgs[..o + 1] + msgs[o + 1..];
    ResidueConcat([], msgs[..o + 1], msgs[o + 1..]);
    ResidueSnoc([], msgs[..o], msgs[o]);
  }

  lemma {:induction false} ExtensionIsLocal(msgs: seq<Message>, n: nat, o: nat)
    requires o < n <= |msgs|
    ensures ExtendedTo(msgs[..n], o) == ExtendedTo(msgs, o)
  {
    if o > 0 { ExtensionIsLocal(msgs, n, o - 1); }
  }

  /** The kept window has no orphan result and no dangling call. */
  lemma {:induction false} RecentIsPaired(msgs: seq<Message>, keepRecent: nat)
    requires AllWellFormed(msgs) && PrefixPaired(msgs)
    ensures WellPaired(Recent(msgs, keepRecent))
  {
    if UserStart(msgs) >= 0 {
      var us := UserStart(msgs);
      var o := WindowStart(msgs, keepRecent);
      var before := msgs[..us];
      if o < us {
        var first := OldestOf(msgs, us, us, keepRecent);
        assert AllWellFormed(before);
        ExtensionReachesAssistant(before, first);
        ExtensionIsLocal(msgs, us, first);
        BoundaryIsClosed(before, o);
        assert before == before[..o] + msgs[o..us];
        ResidueConcat([], before[..o], msgs[o..us]);
        WindowResidue(msgs, o, us, []);
      }
    }
  }

  /** Trimming from the old end keeps that. */
  lemma {:induction false} TrimmedIsPaired(recent: seq<Message>, limit: int)
    requires WellPaired(recent)
    ensures WellPaired(Trimmed(recent, limit))
  {
    var k := TrimStart(recent, limit);
    if 0 < k < |recent| {
      BoundaryIsClosed(recent, k);
      assert recent == recent[..k] + recent[k..];
      ResidueConcat([], recent[..k], recent[k..]);
    } else if k == 0 {
      assert recent[0..] == recent;
    }
  }

  lemma {:induction false} AssembledResidue(p: Parts, md: Text)
    requires forall m | m in p.system :: m.role == System
    requires forall m | m in p.latestUser :: m.role == User
    requires p.anchor.Some? ==> p.anchor.value.role == System
    ensures WellPaired(Assembled(p, md)) <==> WellPaired(p.recent)
  {
    var head := p.system + [SummaryMessage(md)] + (if p.anchor.Some? then [p.anchor.value] else []);
    SilentResidue(head);
    SilentResidue(p.latestUser);
    ResidueConcat([], head + p.recent, p.latestUser);
    ResidueConcat([], head, p.recent);
    var r := Residue([], p.recent);
    if r.Some? && r.value != [] && p.latestUser == [] {
      assert Residue(r.value, p.latestUser) == r;
    }
  }

  /** Compaction turns a context that is paired up to the latest user messages into a paired one. */
  lemma {:induction false} CompactKeepsPairing(msgs: seq<Message>, cfg: CompactConfig, md: Text)
    requires AllWellFormed(msgs) && PrefixPaired(msgs) && PartsOf(msgs, cfg).Some?
    ensures WellPaired(Assembled(PartsOf(msgs, cfg).value, md))
  {
    CollectRoles(msgs, |msgs|);
    RecentIsPaired(msgs, cfg.keepRecent);
    TrimmedIsPaired(Recent(msgs, cfg.keepRecent), RecentTokenLimit(cfg.contextWindow));
    AssembledResidue(PartsOf(msgs, cfg).value, md);
  }

  lemma {:induction false} LoneTaskTokens(s: string)
    ensures Tokens([UserMessage([Lit(s)])]) == |s| / 4
  {
    var task := UserMessage([Lit(s)]);
    assert [Lit(s)][1..] == [] && task.content[1..] == [] && [task][1..] == [];
    assert Length([Lit(s)]) == |s|;
    assert BlockChars(task.content) == |s|;
    assert Chars([task]) == |s|;
  }

  // ---- calls stay unique --------------------------------------------------------------------------

  /** from[i] is where out[i] comes from; -1 for messages without calls. */
  ghost predicate TakenFrom(out: seq<Message>, msgs: seq<Message>, from: seq<int>) {
    && |from| == |out|
    && (forall i | 0 <= i < |out| :: if from[i] < 0 then CallIds(out[i]) == []
                                     else from[i] < |msgs| && CallIds(out[i]) == CallIds(msgs[from[i]]))
    && (forall i, j | 0 <= i < j < |out| && from[i] >= 0 && from[j] >= 0 :: from[i] != from[j])
  }

  lemma {:induction false} TakenStaysUnique(out: seq<Message>, msgs: seq<Message>, from: seq<int>)
    requires UniqueCalls(msgs) && TakenFrom(out, msgs, from)
    ensures UniqueCalls(out)
    ensures forall id :: HasCall(out, id) ==> HasCall(msgs, id)
  {
    forall i, j, i', j' | 0 <= i < |out| && 0 <= j < |CallIds(out[i])| && 0 <= i' < |out| &&
      0 <= j' < |CallIds(out[i'])| &&
                          CallIds(out[i])[j] == CallIds(out[i'])[j']
      ensures i == i' && j == j'
    {
      assert from[i] >= 0 && from[i'] >= 0;
      assert CallIds(msgs[from[i]])[j] == CallIds(msgs[from[i']])[j'];
      assert from[i] == from[i'];
    }
    forall id | HasCall(out, id) ensures HasCall(msgs, id) {
      var i :| 0 <= i < |out| && id in CallIds(out[i]);
      assert id in CallIds(msgs[from[i]]);
    }
  }

  function WindowAt(msgs: seq<Message>, lo: nat, hi: nat): (at: seq<int>)
    requires lo <= hi <= |msgs|
    ensures |at| == |Window(msgs, lo, hi)|
    ensures forall i | 0 <= i < |at| :: lo <= at[i] < hi && Window(msgs, lo, hi)[i] == msgs[at[i]]
    ensures forall i, j | 0 <= i < j < |at| :: at[i] < at[j]
    decreases hi - lo
  {
    if lo == hi then [] else (if Skipped(msgs, lo) then [] else [lo]) + WindowAt(msgs, lo + 1, hi)
  }

  /** Compaction makes up no calls and doubles none. */
  lemma {:induction false} CompactKeepsUniqueCalls(msgs: seq<Message>, cfg: CompactConfig, md: Text)
    requires UniqueCalls(msgs) && PartsOf(msgs, cfg).Some?
    ensures UniqueCalls(Assembled(PartsOf(msgs, cfg).value, md))
    ensures forall id :: HasCall(Assembled(PartsOf(msgs, cfg).value, md), id) ==> HasCall(msgs, id)
  {
    var p := PartsOf(msgs, cfg).value;
    CollectRoles(msgs, |msgs|);
    var from: seq<int> := if UserStart(msgs) < 0 then []
      else WindowAt(msgs, WindowStart(msgs, cfg.keepRecent), UserStart(msgs));
    var k := TrimStart(Recent(msgs, cfg.keepRecent), RecentTokenLimit(cfg.contextWindow));
    assert p.recent == Recent(msgs, cfg.keepRecent)[k..];
    assert TakenFrom(p.recent, msgs, from[k..]);
    AssembledTaken(p, md, msgs, from[k..]);
  }

  lemma {:induction false} AssembledTaken(p: Parts, md: Text, msgs: seq<Message>, from: seq<int>)
    requires UniqueCalls(msgs) && TakenFrom(p.recent, msgs, from)
    requires forall m | m in p.system :: m.role == System
    requires forall m | m in p.latestUser :: m.role == User
    requires p.anchor.Some? ==> p.anchor.value.role == System
    ensures UniqueCalls(Assembled(p, md))
    ensures forall id :: HasCall(Assembled(p, md), id) ==> HasCall(msgs, id)
  {
    var head := p.system + [SummaryMessage(md)] + (if p.anchor.Some? then [p.anchor.value] else []);
    var out := Assembled(p, md);
    var all := seq(|head|, i => -1) + from + seq(|p.latestUser|, i => -1);
    assert out == head + p.recent + p.latestUser;
    forall i | 0 <= i < |out|
      ensures if all[i] < 0 then CallIds(out[i]) == [] else all[i] < |msgs| && CallIds(out[i]) == CallIds(msgs[all[i]])
    {
      if i < |head| {
        assert out[i] == head[i];
      } else if i < |head| + |p.recent| {
        assert out[i] == p.recent[i - |head|] && all[i] == from[i - |head|];
      } else {
        assert out[i] == p.latestUser[i - |head| - |p.recent|];
      }
    }
    TakenStaysUnique(out, msgs, all);
  }

  lemma {:induction false} CollectWellFormed(msgs: seq<Message>, place: Place, n: nat)
    requires AllWellFormed(msgs) && n <= |msgs|
    ensures AllWellFormed(Collect(msgs, place, n))
  {
    if n > 0 { CollectWellFormed(msgs, place, n - 1); }
  }

  lemma {:induction false} CompactKeepsWellFormed(msgs: seq<Message>, cfg: CompactConfig, md: Text)
    requires AllWellFormed(msgs) && PartsOf(msgs, cfg).Some?
    ensures AllWellFormed(Assembled(PartsOf(msgs, cfg).value, md))
  {
    CollectWellFormed(msgs, Prompt, |msgs|);
    CollectWellFormed(msgs, LatestUser, |msgs|);
    RecentWellFormed(msgs, cfg.keepRecent);
    AssembledWellFormed(PartsOf(msgs, cfg).value, md);
  }

  lemma {:induction false} RecentWellFormed(msgs: seq<Message>, keepRecent: nat)
    requires AllWellFormed(msgs)
    ensures AllWellFormed(Recent(msgs, keepRecent))
  {
    if UserStart(msgs) >= 0 {
      var at := WindowAt(msgs, WindowStart(msgs, keepRecent), UserStart(msgs));
      assert |at| == |Recent(msgs, keepRecent)|;
    }
  }

  lemma {:induction false} AssembledWellFormed(p: Parts, md: Text)
    requires AllWellFormed(p.system) && AllWellFormed(p.recent) && AllWellFormed(p.latestUser)
    requires p.anchor.Some? ==> exists m :: p.anchor.value == AnchorMessage(m)
    ensures AllWellFormed(Assembled(p, md))
  {
    var out := Assembled(p, md);
    assert WellFormed(SummaryMessage(md));
    forall i | 0 <= i < |out| ensures WellFormed(out[i]) {
      assert out[i] in p.system || out[i] == SummaryMessage(md) || (p.anchor.Some? && out[i] == p.anchor.value) ||
             out[i] in p.recent || out[i] in p.latestUser;
    }
  }
}
