/** What the steps of the run loop do to the pairing, call by call. */
module LoopLemmas {
  import opened Messages
  import opened Context
  import opened Slim
  import SlimImages
  import opened ToolRound
  import FailureLedger
  import MergePairs
  import MergeTheorems
  import Compressor
  import CompactTheorems
  import InjectionTheorems

  function One(b: bool): nat { if b then 1 else 0 }

  ghost function CallSet(msgs: seq<Message>): set<string> {
    set m, id | m in msgs && id in CallIds(m) :: id
  }

  ghost predicate CallsWithin(msgs: seq<Message>, seen: set<string>) {
    forall id | HasCall(msgs, id) :: id in seen
  }

  lemma {:induction false} CallSetHas(msgs: seq<Message>)
    ensures CallsWithin(msgs, CallSet(msgs))
  {
    forall id | HasCall(msgs, id) ensures id in CallSet(msgs) {
      var i :| 0 <= i < |msgs| && id in CallIds(msgs[i]);
      assert msgs[i] in msgs;
    }
  }

  // ---- appending ---------------------------------------------------------------------------------

  ghost predicate Plain(m: Message) { m.role != Tool && CallIds(m) == [] && WellFormed(m) }

  /** What a caller may feed in while the loop runs: user messages, and commands as system messages. */
  ghost predicate Inputs(msgs: seq<Message>) {
    forall m | m in msgs :: WellFormed(m) && (m.role == User || m.role == System)
  }

  lemma {:induction false} InputsArePlain(msgs: seq<Message>)
    requires Inputs(msgs)
    ensures forall m | m in msgs :: Plain(m)
  {
  }

  /** The state of the pairing the run relies on. */
  ghost predicate Paired(msgs: seq<Message>, seen: set<string>) {
    WellPaired(msgs) && UniqueCalls(msgs) && CallsWithin(msgs, seen)
  }

  ghost predicate KeepsCalls(was: seq<Message>, now: seq<Message>) {
    && (AllWellFormed(was) ==> AllWellFormed(now))
    && (WellPaired(was) && UniqueCalls(was) ==> WellPaired(now) && UniqueCalls(now))
    && (WellPaired(was) && UniqueCalls(was) ==> forall id | HasCall(now, id) :: HasCall(was, id))
  }

  lemma {:induction false} PlainIsSilent(msgs: seq<Message>)
    requires forall m | m in msgs :: Plain(m)
    ensures Silent(msgs)
  {
    forall i | 0 <= i < |msgs| ensures msgs[i].role != Tool && CallIds(msgs[i]) == [] {
      assert msgs[i] in msgs;
    }
  }

  lemma {:induction false} PlainMakesNoCalls(msgs: seq<Message>, more: seq<Message>)
    requires forall m | m in more :: Plain(m)
    ensures AllWellFormed(msgs) ==> AllWellFormed(msgs + more)
    ensures CompactTheorems.TakenFrom(msgs + more, msgs, seq(|msgs| + |more|, i => if i < |msgs| then i else -1))
  {
    forall i | |msgs| <= i < |msgs| + |more| ensures Plain((msgs + more)[i]) {
      assert more[i - |msgs|] in more;
    }
  }

  lemma {:induction false} AppendPlain(msgs: seq<Message>, more: seq<Message>)
    requires forall m | m in more :: Plain(m)
    ensures KeepsCalls(msgs, msgs + more)
    ensures NoCommands(msgs) && NoCommands(more) ==> NoCommands(msgs + more)
  {
    PlainIsSilent(more);
    SilentKeepsPairing(msgs, more);
    PlainMakesNoCalls(msgs, more);
    if UniqueCalls(msgs) {
      CompactTheorems.TakenStaysUnique(msgs + more, msgs, seq(|msgs| + |more|, i => if i < |msgs| then i else -1));
    }
  }

  lemma {:induction false} KeepsPaired(was: seq<Message>, now: seq<Message>, seen: set<string>)
    requires KeepsCalls(was, now)
    ensures Paired(was, seen) ==> Paired(now, seen)
  {
  }

  // ---- commands ------------------------------------------------------------------------------------

  datatype Effect = Compacts | Clears | Loads(skill: Text) | NoEffect

  function SkillMessage(t: Text): Message { Message(User, [Block(OtherBlock, t)], [], [], [], "") }

  /** The context without its command messages; a loaded skill takes the place of its command. */
  function Consumed(msgs: seq<Message>, effect: Message -> Effect): seq<Message> {
    if msgs == [] then []
    else
      var m := msgs[|msgs| - 1];
      Consumed(msgs[..|msgs| - 1], effect) +
      (if !IsCommandMessage(m) then [m] else match effect(m) case Loads(t) => [SkillMessage(t)] case _ => [])
  }

  /** `out` holds what stands at the given places: messages that are no commands, and a user message for
      each skill a command loads. */
  ghost predicate Leaves(msgs: seq<Message>, effect: Message -> Effect, out: seq<Message>, at: seq<nat>) {
    && |at| == |out| && (forall i, j | 0 <= i < j < |at| :: at[i] < at[j])
    && (forall k | 0 <= k < |msgs| :: k in at <==> !IsCommandMessage(msgs[k]) || effect(msgs[k]).Loads?)
    && (forall i | 0 <= i < |at| :: at[i] < |msgs| && out[i] == Left(msgs[at[i]], effect))
  }

  function Left(m: Message, effect: Message -> Effect): Message {
    if IsCommandMessage(m) && effect(m).Loads? then Message(User, [Block(OtherBlock, effect(m).skill)], [], [], [], "")
    else m
  }

  /** That is what consuming the commands leaves, in order. */
  lemma {:induction false} ConsumedExactly(msgs: seq<Message>, effect: Message -> Effect) returns (at: seq<nat>)
    ensures Leaves(msgs, effect, Consumed(msgs, effect), at)
  {
    at := [];
    if msgs != [] {
      var n := |msgs| - 1;
      at := ConsumedExactly(msgs[..n], effect);
      assert msgs == msgs[..n] + [msgs[n]];
      ConsumedNext(msgs[..n], msgs[n], effect);
      LeavesMore(msgs[..n], effect, Consumed(msgs[..n], effect), at, msgs[n]);
      if !IsCommandMessage(msgs[n]) || effect(msgs[n]).Loads? {
        at := at + [n];
      } else {
        assert Consumed(msgs[..n], effect) + [] == Consumed(msgs[..n], effect);
      }
    }
  }

  lemma {:induction false} LeavesMore(msgs: seq<Message>, effect: Message -> Effect, out: seq<Message>, at: seq<nat>,
                                      m: Message)
    requires Leaves(msgs, effect, out, at)
    ensures if !IsCommandMessage(m) || effect(m).Loads?
            then Leaves(msgs + [m], effect, out + [Left(m, effect)], at + [|msgs|])
            else Leaves(msgs + [m], effect, out, at)
  {
    hide IsCommandMessage, Left;
  }

  predicate Commanded(msgs: seq<Message>, effect: Message -> Effect, e: Effect) {
    exists m | m in msgs :: IsCommandMessage(m) && effect(m) == e
  }

  lemma {:induction false} NothingCommanded(effect: Message -> Effect)
    ensures Consumed([], effect) == [] && forall e :: !Commanded([], effect, e)
  {
  }

  lemma {:induction false} ConsumedNext(msgs: seq<Message>, m: Message, effect: Message -> Effect)
    ensures Consumed(msgs + [m], effect) == Consumed(msgs, effect) +
              if !IsCommandMessage(m) then [m] else match effect(m) case Loads(t) => [SkillMessage(t)] case _ => []
    ensures forall e :: Commanded(msgs + [m], effect, e) <==>
            Commanded(msgs, effect, e) || (IsCommandMessage(m) && effect(m) == e)
  {
    assert (msgs + [m])[..|msgs|] == msgs;
    assert forall x :: x in msgs + [m] <==> x in msgs || x == m;
  }

  predicate NoCommands(msgs: seq<Message>) {
    forall i | 0 <= i < |msgs| :: !IsCommandMessage(msgs[i])
  }

  /** The messages in front of the first waiting command. */
  function Settled(msgs: seq<Message>): (front: seq<Message>)
    ensures front <= msgs && NoCommands(front)
  {
    if msgs == [] then []
    else
      var before := Settled(msgs[..|msgs| - 1]);
      if |before| == |msgs| - 1 && !IsCommandMessage(msgs[|msgs| - 1]) then msgs else before
  }

  lemma {:induction false} SettledIsAll(msgs: seq<Message>)
    requires NoCommands(msgs)
    ensures Settled(msgs) == msgs
  {
    if msgs != [] { SettledIsAll(msgs[..|msgs| - 1]); }
  }

  lemma {:induction false} SettledExtends(msgs: seq<Message>, more: seq<Message>)
    ensures Settled(msgs) <= Settled(msgs + more)
  {
    if more == [] {
      assert msgs + more == msgs;
    } else {
      SettledExtends(msgs, more[..|more| - 1]);
      assert (msgs + more)[..|msgs + more| - 1] == msgs + more[..|more| - 1];
    }
  }

  lemma {:induction false} SettledGrows(msgs: seq<Message>, more: seq<Message>, s: SlimState)
    requires SlimOk(Settled(msgs), s)
    ensures SlimOk(Settled(msgs + more), s)
  {
    SettledExtends(msgs, more);
    var rest := Settled(msgs + more)[|Settled(msgs)|..];
    assert Settled(msgs + more) == Settled(msgs) + rest;
    AppendKeepsSlim(Settled(msgs), rest, s);
  }

  lemma {:induction false} ConsumedExtendsSettled(msgs: seq<Message>, effect: Message -> Effect)
    ensures Settled(msgs) <= Consumed(msgs, effect)
    ensures |Settled(msgs)| == |msgs| ==> Consumed(msgs, effect) == msgs
  {
    if msgs != [] { ConsumedExtendsSettled(msgs[..|msgs| - 1], effect); }
  }

  /** No stored index is behind a command, so none moves. */
  lemma {:induction false} ConsumedKeepsSlim(msgs: seq<Message>, effect: Message -> Effect, s: SlimState)
    requires SlimOk(Settled(msgs), s)
    ensures SlimOk(Consumed(msgs, effect), s)
  {
    ConsumedExtendsSettled(msgs, effect);
    var rest := Consumed(msgs, effect)[|Settled(msgs)|..];
    assert Consumed(msgs, effect) == Settled(msgs) + rest;
    AppendKeepsSlim(Settled(msgs), rest, s);
  }

  function ConsumedAt(msgs: seq<Message>, effect: Message -> Effect): (at: seq<int>)
    ensures |at| == |Consumed(msgs, effect)|
    ensures forall i | 0 <= i < |at| :: at[i] < |msgs| && (if at[i] < 0 then Consumed(msgs, effect)[i].role == User
                                                           else Consumed(msgs, effect)[i] == msgs[at[i]])
    ensures forall i, j | 0 <= i < j < |at| && at[i] >= 0 && at[j] >= 0 :: at[i] != at[j]
  {
    if msgs == [] then []
    else
      var n := |msgs| - 1;
      ConsumedAt(msgs[..n], effect) +
      (if !IsCommandMessage(msgs[n]) then [n] else match effect(msgs[n]) case Loads(t) => [-1] case _ => [])
  }

  lemma {:induction false} ConsumedResidue(msgs: seq<Message>, effect: Message -> Effect)
    requires AllWellFormed(msgs) && Residue([], msgs).Some?
    ensures Residue([], Consumed(msgs, effect)) == Residue([], msgs)
  {
    if msgs != [] {
      var n := |msgs| - 1;
      var m := msgs[n];
      assert msgs == msgs[..n] + [m];
      ResidueSnoc([], msgs[..n], m);
      ConsumedResidue(msgs[..n], effect);
      assert WellFormed(m);
      var before := Consumed(msgs[..n], effect);
      if !IsCommandMessage(m) {
        ResidueSnoc([], before, m);
      } else if effect(m).Loads? {
        ResidueSnoc([], before, SkillMessage(effect(m).skill));
      } else {
        assert Consumed(msgs, effect) == before;
      }
    }
  }

  lemma {:induction false} ConsumedWellFormed(msgs: seq<Message>, effect: Message -> Effect)
    ensures NoCommands(Consumed(msgs, effect))
    ensures AllWellFormed(msgs) ==> AllWellFormed(Consumed(msgs, effect))
  {
    if msgs != [] { ConsumedWellFormed(msgs[..|msgs| - 1], effect); }
  }

  lemma {:induction false} ConsumedKeeps(msgs: seq<Message>, effect: Message -> Effect)
    requires AllWellFormed(msgs)
    ensures KeepsCalls(msgs, Consumed(msgs, effect)) && NoCommands(Consumed(msgs, effect))
  {
    ConsumedWellFormed(msgs, effect);
    if WellPaired(msgs) { ConsumedResidue(msgs, effect); }
    if UniqueCalls(msgs) {
      CompactTheorems.TakenStaysUnique(Consumed(msgs, effect), msgs, ConsumedAt(msgs, effect));
    }
  }

  /** What /clear leaves. */
  function Cleared(msgs: seq<Message>): seq<Message> {
    if |msgs| > 0 && msgs[0].role == System then msgs[..1] else []
  }

  lemma {:induction false} FirstKeeps(msgs: seq<Message>)
    requires AllWellFormed(msgs)
    ensures KeepsCalls(msgs, Cleared(msgs))
  {
    if |msgs| > 0 && msgs[0].role == System {
      SilentResidue(msgs[..1]);
      if UniqueCalls(msgs) { CompactTheorems.TakenStaysUnique(msgs[..1], msgs, [0]); }
    }
  }

  // ---- slimming and merging -----------------------------------------------------------------------------

  /** Old large results blanked; `starts` are the round starts with the current round. */
  function StaleBlanked(msgs: seq<Message>, starts: seq<nat>, cfg: SlimConfig): seq<Message> {
    seq(|msgs|, i requires 0 <= i < |msgs| => if i < Cutoff(starts, cfg.staleRounds) then Blanked(msgs[i], cfg)
        else msgs[i])
  }

  ghost function ImagesStripped(msgs: seq<Message>, starts: seq<nat>, cfg: SlimConfig): seq<Message> {
    if cfg.images.None? then msgs
    else seq(|msgs|, i requires 0 <= i < |msgs| => SlimImages.Slimmed(msgs, starts, cfg.images.value, i))
  }

  ghost function TextsSlimmed(msgs: seq<Message>, starts: seq<nat>, cfg: SlimConfig): seq<Message> {
    var now := starts + [|msgs|];
    ImagesStripped(StaleBlanked(msgs, now, cfg), now, cfg)
  }

  /** Without image slimming only large results older than the given number of rounds change, and of
      those only the first text. */
  lemma {:induction false} OldResultsBlanked(msgs: seq<Message>, starts: seq<nat>, cfg: SlimConfig, i: nat)
    requires i < |msgs| && cfg.images.None?
    ensures var out := TextsSlimmed(msgs, starts, cfg);
            var all := starts + [|msgs|];
            && |out| == |msgs|
            && if |all| > cfg.staleRounds && i < all[|all| - 1 - cfg.staleRounds] && msgs[i].role == Tool &&
                  msgs[i].content != [] && Length(msgs[i].content[0].text) > cfg.staleMinBytes
               then
                 && out[i] == msgs[i].(content := out[i].content) && |out[i].content| == |msgs[i].content|
                 && out[i].content[1..] == msgs[i].content[1..] && IsSlimPlaceholder(out[i].content[0].text)
                 && out[i].content[0].kind == msgs[i].content[0].kind
               else out[i] == msgs[i]
  {
    var now := starts + [|msgs|];
    assert TextsSlimmed(msgs, starts, cfg) == StaleBlanked(msgs, now, cfg);
    if msgs[i].content != [] { assert msgs[i].content[0 := Block(TextBlock, [])][1..] == msgs[i].content[1..]; }
  }

  function PairsMerged(msgs: seq<Message>, protectRounds: int): seq<Message> {
    match MergePairs.Merged(msgs, protectRounds) case None => msgs case Some(out) => out
  }

  /** The context behind the passes at the top of an iteration. */
  ghost function Passed(msgs: seq<Message>, starts: seq<nat>, cfg: SlimConfig, protectRounds: int): seq<Message> {
    var slimmed := TextsSlimmed(msgs, starts, cfg);
    if cfg.mergePairs then PairsMerged(slimmed, protectRounds) else slimmed
  }

  lemma {:induction false} ResetIsOk(msgs: seq<Message>, s: SlimState)
    requires s.IsReset()
    ensures SlimOk(msgs, s)
  {
  }

  lemma {:induction false} SlimmedKeeps(was: seq<Message>, now: seq<Message>)
    requires SameShapes(was, now) && AllWellFormed(was)
    ensures KeepsCalls(was, now) && (NoCommands(was) ==> NoCommands(now))
  {
    forall i | 0 <= i < |was|
      ensures SameShape(was[i], now[i]) && WellFormed(now[i]) && (IsCommandMessage(now[i]) ==> was[i] == now[i])
    {
      assert OnlyTextChanged(was[i], now[i]) && WellFormed(was[i]);
    }
    SameShapeSameResidue([], was, now);
    if UniqueCalls(was) { CompactTheorems.TakenStaysUnique(now, was, seq(|now|, i => i)); }
  }

  lemma {:induction false} ShapesKeepPairing(was: seq<Message>, now: seq<Message>)
    requires SameShapes(was, now)
    ensures WellPaired(now) <==> WellPaired(was)
  {
    forall i | 0 <= i < |was| ensures SameShape(was[i], now[i]) {
      assert OnlyTextChanged(was[i], now[i]);
    }
    SameShapeSameResidue([], was, now);
  }

  lemma {:induction false} MergeKeeps(msgs: seq<Message>, protectRounds: int)
    requires AllWellFormed(msgs)
    ensures MergePairs.Merged(msgs, protectRounds).Some? ==>
              var out := MergePairs.Merged(msgs, protectRounds).value;
              KeepsCalls(msgs, out) && (NoCommands(msgs) ==> NoCommands(out))
  {
    if MergePairs.Merged(msgs, protectRounds).Some? {
      var out := MergePairs.Merged(msgs, protectRounds).value;
      MergeTheorems.MergedIsSubsequence(msgs, protectRounds);
      var plan := MergePairs.MergePlan(msgs, MergePairs.Rounds(protectRounds));
      var kept := MergePairs.Survivors(MergePairs.Deleted(msgs, plan), |msgs|);
      forall j | 0 <= j < |out|
        ensures WellFormed(out[j]) && (IsCommandMessage(out[j]) ==> IsCommandMessage(msgs[kept[j]]))
      {
        SameLogicalIsWellFormed(out[j], msgs[kept[j]]);
      }
      if WellPaired(msgs) && UniqueCalls(msgs) {
        MergeTheorems.MergeKeepsPairing(msgs, protectRounds);
        MergeTheorems.MergeKeepsUniqueCalls(msgs, protectRounds);
      }
    }
  }

  lemma {:induction false} SameLogicalIsWellFormed(now: Message, was: Message)
    requires MergeTheorems.SameLogicalMessage(now, was) && WellFormed(was)
    ensures WellFormed(now) && (IsCommandMessage(now) ==> IsCommandMessage(was))
  {
    if now.calls != [] { assert now.calls[0] in was.calls; }
    if was.content != [] {
      assert now.content == [now.content[0]] + now.content[1..];
      assert was.content == [was.content[0]] + was.content[1..];
      forall c | c in now.content ensures exists d :: d in was.content && d.kind == c.kind {
        if c == now.content[0] { assert was.content[0] in was.content; } else { assert c in was.content[1..]; }
      }
    }
  }

  // ---- compaction --------------------------------------------------------------------------------------

  ghost predicate MakesNoCalls(was: seq<Message>, now: seq<Message>) {
    UniqueCalls(was) ==> (UniqueCalls(now) && forall id | HasCall(now, id) :: HasCall(was, id))
  }

  lemma {:induction false} InjectedMakesNoCalls(msgs: seq<Message>, inject: Text)
    ensures MakesNoCalls(msgs, Compressor.Injected(msgs, inject))
  {
    var next := Compressor.Injected(msgs, inject);
    var pos := Compressor.InjectPosition(msgs);
    var from := seq(|next|, i => if i < pos then i else if i == pos then -1 else i - 1);
    forall i | 0 <= i < |next|
      ensures if from[i] < 0 then CallIds(next[i]) == [] else from[i] < |msgs| && next[i] == msgs[from[i]]
    {
    }
    assert CompactTheorems.TakenFrom(next, msgs, from);
    if UniqueCalls(msgs) { CompactTheorems.TakenStaysUnique(next, msgs, from); }
  }

  lemma {:induction false} InjectedNoCommands(msgs: seq<Message>, inject: Text)
    requires AllWellFormed(msgs) && NoCommands(msgs)
    ensures AllWellFormed(Compressor.Injected(msgs, inject)) && NoCommands(Compressor.Injected(msgs, inject))
  {
  }

  lemma {:induction false} InjectedAllKeeps(msgs: seq<Message>, injects: seq<Text>)
    requires AllWellFormed(msgs) && NoCommands(msgs)
    ensures var all := Compressor.InjectedAll(msgs, injects);
            AllWellFormed(all) && NoCommands(all) && MakesNoCalls(msgs, all)
    decreases injects
  {
    if injects != [] {
      InjectedMakesNoCalls(msgs, injects[0]);
      InjectedNoCommands(msgs, injects[0]);
      InjectedAllKeeps(Compressor.Injected(msgs, injects[0]), injects[1..]);
    }
  }

  lemma {:induction false} FromContext(msgs: seq<Message>, place: Compressor.Place, n: nat)
    requires n <= |msgs|
    ensures forall m | m in Compressor.Collect(msgs, place, n) :: m in msgs
  {
    if n > 0 { FromContext(msgs, place, n - 1); }
  }

  lemma {:induction false} CompactKeepsNoCommands(msgs: seq<Message>, cfg: Compressor.CompactConfig, md: Text)
    requires NoCommands(msgs) && Compressor.PartsOf(msgs, cfg).Some?
    ensures NoCommands(Compressor.Assembled(Compressor.PartsOf(msgs, cfg).value, md))
  {
    var p := Compressor.PartsOf(msgs, cfg).value;
    FromContext(msgs, Compressor.Prompt, |msgs|);
    FromContext(msgs, Compressor.LatestUser, |msgs|);
    RecentFromContext(msgs, cfg.keepRecent);
    AssembledNoCommands(msgs, p, md);
  }

  lemma {:induction false} RecentFromContext(msgs: seq<Message>, keepRecent: nat)
    ensures forall m | m in Compressor.Recent(msgs, keepRecent) :: m in msgs
  {
    if Compressor.UserStart(msgs) >= 0 {
      var at := CompactTheorems.WindowAt(msgs, Compressor.WindowStart(msgs, keepRecent), Compressor.UserStart(msgs));
      assert |at| == |Compressor.Recent(msgs, keepRecent)|;
    }
  }

  lemma {:induction false} AssembledNoCommands(msgs: seq<Message>, p: Compressor.Parts, md: Text)
    requires NoCommands(msgs)
    requires forall m | m in p.system :: m in msgs
    requires forall m | m in p.recent :: m in msgs
    requires forall m | m in p.latestUser :: m in msgs
    requires p.anchor.Some? ==> !IsCommandMessage(p.anchor.value)
    ensures NoCommands(Compressor.Assembled(p, md))
  {
    var out := Compressor.Assembled(p, md);
    forall i | 0 <= i < |out| ensures !IsCommandMessage(out[i]) {
      assert out[i] in p.system || out[i] == Compressor.SummaryMessage(md) ||
             (p.anchor.Some? && out[i] == p.anchor.value) ||
             out[i] in p.recent || out[i] in p.latestUser;
    }
  }

  lemma {:induction false} CompactionKeeps(msgs: seq<Message>, injects: seq<Text>, cfg: Compressor.CompactConfig,
                                           md: Text, seen: set<string>)
    requires AllWellFormed(msgs) && NoCommands(msgs)
    requires Compressor.PartsOf(Compressor.InjectedAll(msgs, injects), cfg).Some?
    ensures var out := Compressor.Assembled(Compressor.PartsOf(Compressor.InjectedAll(msgs, injects), cfg).value, md);
            && AllWellFormed(out) && NoCommands(out)
            && (Paired(msgs, seen) && !InjectionTheorems.Splits(msgs, injects, cfg) ==> Paired(out, seen))
            && (WellPaired(msgs) ==> (WellPaired(out) <==> !InjectionTheorems.Splits(msgs, injects, cfg)))
  {
    var all := Compressor.InjectedAll(msgs, injects);
    InjectedAllKeeps(msgs, injects);
    CompactTheorems.CompactKeepsWellFormed(all, cfg, md);
    CompactKeepsNoCommands(all, cfg, md);
    if UniqueCalls(msgs) { CompactTheorems.CompactKeepsUniqueCalls(all, cfg, md); }
    if WellPaired(msgs) { InjectionTheorems.InjectionBreaksIff(msgs, injects, cfg, md); }
  }

  // ---- tool rounds ----------------------------------------------------------------------------------------

  lemma {:induction false} AnswersWellFormed(calls: seq<Call>, results: seq<FailureLedger.ToolResult>,
                                             views: seq<Result>, n: nat)
    requires |views| == |calls| && n <= |calls|
    requires forall v | v in views :: forall b | b in v.images :: b.kind == ImageBlock
    ensures AllWellFormed(Answers(calls, results, views, n)) && NoCommands(Answers(calls, results, views, n))
  {
    if n > 0 {
      AnswersWellFormed(calls, results, views, n - 1);
      var v := views[n - 1];
      assert v in views;
      var m := ResultMessage(v);
      assert WellFormed(m) && !IsCommandMessage(m);
    }
  }

  lemma {:induction false} RoundWellFormed(msgs: seq<Message>, reply: Message, results: seq<FailureLedger.ToolResult>,
                                           views: seq<Result>)
    requires AllWellFormed(msgs) && NoCommands(msgs) && WellFormed(reply) && !IsCommandMessage(reply) &&
             |views| == |reply.calls|
    requires forall v | v in views :: forall b | b in v.images :: b.kind == ImageBlock
    ensures AllWellFormed(RoundContext(msgs, reply, results, views)) &&
            NoCommands(RoundContext(msgs, reply, results, views))
  {
    AnswersWellFormed(reply.calls, results, views, |reply.calls|);
  }

  /** A tool round in which every call got its result keeps the pairing. */
  lemma {:induction false} RoundKeeps(msgs: seq<Message>, reply: Message, results: seq<FailureLedger.ToolResult>,
                                      views: seq<Result>,
                                      now: seq<Message>, seen: set<string>)
    requires AllWellFormed(msgs) && NoCommands(msgs) && WellFormed(reply) && !IsCommandMessage(reply) &&
             reply.role == Assistant
    requires forall v | v in views :: forall b | b in v.images :: b.kind == ImageBlock
    requires DistinctCalls(reply.calls) && ViewsOf(reply.calls, views) && forall c | c in reply.calls :: c.id !in seen
    requires SameShapes(RoundContext(msgs, reply, results, views), now)
    ensures AllWellFormed(now) && NoCommands(now)
    ensures Paired(msgs, seen) && EveryCallAnswered(reply.calls, results) ==>
              Paired(now, seen + set c | c in reply.calls :: c.id)
    ensures WellPaired(msgs) ==> (WellPaired(now) <==> EveryCallAnswered(reply.calls, results))
  {
    hide Answers, EveryCallAnswered;
    var round := RoundContext(msgs, reply, results, views);
    RoundWellFormed(msgs, reply, results, views);
    SlimmedKeeps(round, now);
    ShapesKeepPairing(round, now);
    if WellPaired(msgs) { RoundPairedIffAnswered(msgs, reply, results, views); }
    var more := seen + set c | c in reply.calls :: c.id;
    if Paired(msgs, seen) && EveryCallAnswered(reply.calls, results) {
      RoundKeepsUniqueCalls(msgs, reply, results, views);
      assert Paired(round, more);
      KeepsPaired(round, now, more);
    }
  }
}
