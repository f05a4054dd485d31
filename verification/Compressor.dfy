/** Compaction of the context (agents/llm_compressor.go) and the text injected into its input
    (agents/hooks.go injectPreCompactContext). The summary text itself is an input. */
module Compressor {
  import opened Messages

  // ---- splitting the context --------------------------------------------------------------

  /** Index of the last user message, -1 without one. */
  function UserEnd(msgs: seq<Message>): (e: int)
    ensures -1 <= e < |msgs| && (e >= 0 ==> msgs[e].role == User)
    ensures forall i | e < i < |msgs| :: msgs[i].role != User
  {
    if msgs == [] then -1
    else if msgs[|msgs| - 1].role == User then |msgs| - 1
    else UserEnd(msgs[..|msgs| - 1])
  }

  /** Start of the run of user messages that ends at e. */
  function RunStart(msgs: seq<Message>, e: int): (s: int)
    requires -1 <= e < |msgs| && (e >= 0 ==> msgs[e].role == User)
    ensures e < 0 ==> s == e
    ensures e >= 0 ==> 0 <= s <= e && (s > 0 ==> msgs[s - 1].role != User) && forall i | s <= i <= e ::
            msgs[i].role == User
    decreases e
  {
    if e <= 0 || msgs[e - 1].role != User then e else RunStart(msgs, e - 1)
  }

  function UserStart(msgs: seq<Message>): int { RunStart(msgs, UserEnd(msgs)) }

  datatype Place = LatestUser | Summary | Prompt | History

  /** Where splitMessages puts message i. */
  function PlaceOf(msgs: seq<Message>, i: nat): Place
    requires i < |msgs|
  {
    if UserStart(msgs) <= i <= UserEnd(msgs) then LatestUser
    else if IsSummaryMessage(msgs[i]) then Summary
    else if msgs[i].role == System && i == 0 then Prompt
    else History
  }

  /** The messages of one place among the first n, in order. */
  function Collect(msgs: seq<Message>, place: Place, n: nat): seq<Message>
    requires n <= |msgs|
  {
    if n == 0 then []
    else Collect(msgs, place, n - 1) + if PlaceOf(msgs, n - 1) == place then [msgs[n - 1]] else []
  }

  predicate HasRealText(m: Message) {
    exists c | c in m.content :: c.kind == TextBlock && !IsBlank(c.text)
  }

  /** The first real user request: index, -1 without one. */
  function AnchorIndex(msgs: seq<Message>, n: nat): (a: int)
    requires n <= |msgs|
    ensures -1 <= a < n && (a >= 0 ==> msgs[a].role == User && HasRealText(msgs[a]))
  {
    if n == 0 then -1
    else if AnchorIndex(msgs, n - 1) >= 0 then AnchorIndex(msgs, n - 1)
    else if msgs[n - 1].role == User && HasRealText(msgs[n - 1]) then n - 1
    else -1
  }

  /** Messages the recent window steps over. */
  predicate Skipped(msgs: seq<Message>, i: nat)
    requires i < |msgs|
  {
    (i == 0 && msgs[i].role == System) || IsSummaryMessage(msgs[i])
  }

  function Window(msgs: seq<Message>, lo: nat, hi: nat): seq<Message>
    requires lo <= hi <= |msgs|
    decreases hi - lo
  {
    if lo == hi then [] else (if Skipped(msgs, lo) then [] else [msgs[lo]]) + Window(msgs, lo + 1, hi)
  }

  /** The oldest message of a window of at most `room` messages that ends before i. */
  function OldestOf(msgs: seq<Message>, i: nat, oldest: nat, room: nat): (o: nat)
    requires i <= oldest <= |msgs|
    ensures o <= oldest
  {
    if i == 0 || room == 0 then oldest
    else if Skipped(msgs, i - 1) then OldestOf(msgs, i - 1, oldest, room)
    else OldestOf(msgs, i - 1, i - 1, room - 1)
  }

  /** Extends a window that starts with a tool result back to its assistant. */
  function ExtendedTo(msgs: seq<Message>, o: nat): (r: nat)
    requires o <= |msgs|
    ensures r <= o
  {
    if o == 0 || o == |msgs| || msgs[o].role != Tool then o
    else if msgs[o - 1].role == System || msgs[o - 1].role == User || IsSummaryMessage(msgs[o - 1]) then o
    else ExtendedTo(msgs, o - 1)
  }

  /** Where the kept window starts; UserStart itself when it is empty. */
  function WindowStart(msgs: seq<Message>, keepRecent: nat): (o: nat)
    requires UserStart(msgs) >= 0
    ensures o <= UserStart(msgs)
  {
    var us := UserStart(msgs);
    var o := OldestOf(msgs, us, us, keepRecent);
    if o == us then us else ExtendedTo(msgs, o)
  }

  function Recent(msgs: seq<Message>, keepRecent: nat): seq<Message> {
    if UserStart(msgs) < 0 then [] else Window(msgs, WindowStart(msgs, keepRecent), UserStart(msgs))
  }

  datatype Split = Split(system: seq<Message>, latestUser: seq<Message>, summaries: seq<Message>, history: seq<Message>,
                         anchorIdx: int, anchorInLatest: bool, recent: seq<Message>)

  function SplitOf(msgs: seq<Message>, keepRecent: nat): Split {
    var n := |msgs|;
    var a := AnchorIndex(msgs, n);
    Split(Collect(msgs, Prompt, n), Collect(msgs, LatestUser, n), Collect(msgs, Summary, n), Collect(msgs, History, n),
          a, a >= 0 && UserStart(msgs) <= a <= UserEnd(msgs), Recent(msgs, keepRecent))
  }

  method LastUserRun(msgs: seq<Message>) returns (userStart: int, userEnd: int)
    ensures userStart == UserStart(msgs) && userEnd == UserEnd(msgs)
  {
    userEnd := -1;
    var i := |msgs| - 1;
    assert msgs[..|msgs|] == msgs;
    while i >= 0
      invariant -1 <= i < |msgs| && userEnd == -1
      invariant UserEnd(msgs) == UserEnd(msgs[..i + 1])
    {
      assert msgs[..i + 1][..i] == msgs[..i];
      if msgs[i].role == User {
        userEnd := i;
        break;
      }
      i := i - 1;
    }
    userStart := userEnd;
    if userEnd >= 0 {
      while userStart > 0 && msgs[userStart - 1].role == User
        invariant 0 <= userStart <= userEnd && msgs[userStart].role == User
        invariant RunStart(msgs, userEnd) == RunStart(msgs, userStart)
      {
        userStart := userStart - 1;
      }
    }
  }

  method RecentWindow(msgs: seq<Message>, userStart: int, keepRecent: nat) returns (recent: seq<Message>)
    requires userStart == UserStart(msgs)
    ensures recent == Recent(msgs, keepRecent)
  {
    hide IsSummaryMessage, UserEnd, RunStart;
    recent := [];
    if userStart < 0 {
      return;
    }
    var oldest := userStart;
    var i := userStart - 1;
    while i >= 0 && |recent| < keepRecent
      invariant -1 <= i < userStart && i < oldest <= userStart && |recent| <= keepRecent
      invariant recent == Window(msgs, oldest, userStart) == Window(msgs, i + 1, userStart)
      invariant OldestOf(msgs, userStart, userStart, keepRecent) == OldestOf(msgs, i + 1, oldest, keepRecent - |recent|)
      invariant oldest == userStart <==> recent == []
    {
      var m := msgs[i];
      if i == 0 && m.role == System {
        i := i - 1;
        continue;
      }
      if IsSummaryMessage(m) {
        i := i - 1;
        continue;
      }
      recent := [m] + recent;
      oldest := i;
      i := i - 1;
    }
    if oldest == userStart {
      return;
    }
    recent := Extend(msgs, oldest, userStart, recent);
  }

  /** The second loop: back over tool results to the message they answer. */
  method Extend(msgs: seq<Message>, first: nat, userStart: nat, window: seq<Message>) returns (recent: seq<Message>)
    requires first < userStart <= |msgs| && window == Window(msgs, first, userStart)
    ensures recent == Window(msgs, ExtendedTo(msgs, first), userStart)
  {
    hide IsSummaryMessage;
    var oldest := first;
    recent := window;
    while oldest > 0 && msgs[oldest].role == Tool
      invariant 0 <= oldest < userStart && recent == Window(msgs, oldest, userStart)
      invariant ExtendedTo(msgs, first) == ExtendedTo(msgs, oldest)
    {
      var prev := msgs[oldest - 1];
      if prev.role == System || prev.role == User || IsSummaryMessage(prev) {
        break;
      }
      recent := [prev] + recent;
      oldest := oldest - 1;
    }
  }

  method SplitMessages(msgs: seq<Message>, keepRecent: nat) returns (sp: Split)
    ensures sp == SplitOf(msgs, keepRecent)
  {
    hide HasRealText, IsSummaryMessage;
    var userStart, userEnd := LastUserRun(msgs);
    var system: seq<Message>, latestUser: seq<Message>, summaries: seq<Message>, history: seq<Message> := [], [], [],
      [];
    for i := 0 to |msgs|
      invariant system == Collect(msgs, Prompt, i) && latestUser == Collect(msgs, LatestUser, i)
      invariant summaries == Collect(msgs, Summary, i) && history == Collect(msgs, History, i)
    {
      var m := msgs[i];
      if i >= userStart && i <= userEnd {
        latestUser := latestUser + [m];
        continue;
      }
      if IsSummaryMessage(m) {
        summaries := summaries + [m];
        continue;
      }
      if m.role == System && i == 0 {
        system := system + [m];
        continue;
      }
      history := history + [m];
    }
    var anchorIdx := -1;
    for i := 0 to |msgs|
      invariant anchorIdx == -1 && AnchorIndex(msgs, i) == -1
    {
      if msgs[i].role != User || !HasRealText(msgs[i]) {
        continue;
      }
      anchorIdx := i;
      AnchorStays(msgs, i + 1, |msgs|);
      break;
    }
    var recent: seq<Message> := [];
    if keepRecent > 0 {
      recent := RecentWindow(msgs, userStart, keepRecent);
    } else if userStart >= 0 {
      assert Recent(msgs, 0) == [];
    }
    sp := Split(system, latestUser, summaries, history, anchorIdx,
                anchorIdx >= 0 && userStart <= anchorIdx <= userEnd, recent);
  }

  lemma {:induction false} AnchorStays(msgs: seq<Message>, n: nat, m: nat)
    requires n <= m <= |msgs| && AnchorIndex(msgs, n) >= 0
    ensures AnchorIndex(msgs, m) == AnchorIndex(msgs, n)
  {
    if n < m { AnchorStays(msgs, n, m - 1); }
  }

  // ---- the token budget of the window -----------------------------------------------------------

  const IMAGE_TOKENS := 1600

  function BlockChars(content: seq<Block>): nat {
    if content == [] then 0
    else (if content[0].kind == ImageBlock then 4 * IMAGE_TOKENS
          else Length(content[0].text)) + BlockChars(content[1..])
  }

  function CallChars(calls: seq<Call>): nat {
    if calls == [] then 0 else |calls[0].name| + |calls[0].args| + CallChars(calls[1..])
  }

  function MessageChars(m: Message): nat {
    BlockChars(m.content) + Length(m.reasoning) + CallChars(m.calls)
  }

  function Chars(msgs: seq<Message>): nat {
    if msgs == [] then 0 else MessageChars(msgs[0]) + Chars(msgs[1..])
  }

  function Tokens(msgs: seq<Message>): nat { Chars(msgs) / 4 }

  /** recentTokenLimit: a tenth of the window but at least 8000; 0 means no limit. */
  function RecentTokenLimit(contextWindow: int): int {
    if contextWindow <= 0 then 0
    else if contextWindow / 10 < 8000 then 8000 else contextWindow / 10
  }

  /** The first position from i on whose suffix fits the limit. */
  function FitsFrom(msgs: seq<Message>, limit: int, i: nat): (k: nat)
    requires i <= |msgs|
    ensures i <= k <= |msgs| && (k < |msgs| ==> Tokens(msgs[k..]) <= limit)
    ensures forall j | i <= j < k :: Tokens(msgs[j..]) > limit
    decreases |msgs| - i
  {
    if i == |msgs| || Tokens(msgs[i..]) <= limit then i else FitsFrom(msgs, limit, i + 1)
  }

  function SkipTools(msgs: seq<Message>, i: nat): (k: nat)
    requires i <= |msgs|
    ensures i <= k <= |msgs| && (k < |msgs| ==> msgs[k].role != Tool)
    ensures forall j | i <= j < k :: msgs[j].role == Tool
    decreases |msgs| - i
  {
    if i == |msgs| || msgs[i].role != Tool then i else SkipTools(msgs, i + 1)
  }

  function TrimStart(recent: seq<Message>, limit: int): (k: nat)
    ensures k <= |recent|
  {
    if recent == [] || limit <= 0 || Tokens(recent) <= limit then 0
    else SkipTools(recent, FitsFrom(recent, limit, 0))
  }

  function Trimmed(recent: seq<Message>, limit: int): seq<Message> { recent[TrimStart(recent, limit)..] }

  method TrimRecentWindow(recent: seq<Message>, limit: int) returns (kept: seq<Message>)
    ensures kept == Trimmed(recent, limit)
    ensures limit > 0 ==> Tokens(kept) <= limit
  {
    if recent == [] || limit <= 0 || Tokens(recent) <= limit {
      assert recent[0..] == recent;
      return recent;
    }
    var i := 0;
    while i < |recent| && Tokens(recent[i..]) > limit
      invariant 0 <= i <= |recent| && FitsFrom(recent, limit, 0) == FitsFrom(recent, limit, i)
    {
      i := i + 1;
    }
    ghost var fits := i;
    assert fits == |recent| ==> recent[fits..] == [];
    while i < |recent| && recent[i].role == Tool
      invariant fits <= i <= |recent| && SkipTools(recent, fits) == SkipTools(recent, i)
    {
      i := i + 1;
    }
    ShorterIsSmaller(recent, fits, i);
    return recent[i..];
  }

  lemma {:induction false} ShorterIsSmaller(msgs: seq<Message>, i: nat, k: nat)
    requires i <= k <= |msgs|
    ensures Tokens(msgs[k..]) <= Tokens(msgs[i..])
    decreases k - i
  {
    if i < k {
      assert msgs[i..][1..] == msgs[i + 1..];
      ShorterIsSmaller(msgs, i + 1, k);
    }
  }

  // ---- assembling the compacted context ---------------------------------------------------------

  datatype CompactConfig = CompactConfig(keepRecent: nat, contextWindow: int, latestUserMaxTokens: int)

  /** What a compaction keeps around its summary. */
  datatype Parts = Parts(system: seq<Message>, anchor: Option<Message>, recent: seq<Message>, latestUser: seq<Message>)

  function SummaryMessage(md: Text): Message { Message(System, [Block(SummaryBlock, md)], [], [], [], "") }

  function RealText(content: seq<Block>): Text {
    if content == [] then []
    else (if content[0].kind == TextBlock || content[0].kind == OtherBlock then content[0].text
          else []) + RealText(content[1..])
  }

  function AnchorMessage(m: Message): Message {
    SystemMessage([Lit("Original task (preserved verbatim):\n")] + RealText(m.content))
  }

  predicate Oversized(sp: Split, cfg: CompactConfig) {
    cfg.latestUserMaxTokens > 0 && Tokens(sp.latestUser) > cfg.latestUserMaxTokens
  }

  /** The parts a successful compaction keeps; None when there is nothing to compress. An
      oversized user block joins the history to compress. */
  function PartsOf(msgs: seq<Message>, cfg: CompactConfig): Option<Parts> {
    var sp := SplitOf(msgs, cfg.keepRecent);
    KeptParts(msgs, sp, Oversized(sp, cfg), Trimmed(sp.recent, RecentTokenLimit(cfg.contextWindow)))
  }

  function KeptParts(msgs: seq<Message>, sp: Split, oversized: bool, recent: seq<Message>): Option<Parts>
    requires sp.anchorIdx < |msgs|
  {
    if sp.history == [] && (oversized ==> sp.latestUser == []) then None
    else Some(Parts(sp.system,
                    if sp.anchorIdx >= 0 && !sp.anchorInLatest then Some(AnchorMessage(msgs[sp.anchorIdx])) else None,
                    recent,
                    if oversized then [] else sp.latestUser))
  }

  function Assembled(p: Parts, md: Text): seq<Message> {
    p.system + [SummaryMessage(md)] + (if p.anchor.Some? then [p.anchor.value] else []) + p.recent + p.latestUser
  }

  // ---- injected context ---------------------------------------------------------------------------

  /** Start of the user messages at the very end. */
  function TailStart(msgs: seq<Message>, i: nat): (s: nat)
    requires i <= |msgs|
    ensures s <= i && (s > 0 ==> msgs[s - 1].role != User) && forall j | s <= j < i :: msgs[j].role == User
  {
    if i == 0 || msgs[i - 1].role != User then i else TailStart(msgs, i - 1)
  }

  function InjectPosition(msgs: seq<Message>): (pos: nat)
    ensures pos <= |msgs|
  {
    var start := TailStart(msgs, |msgs|);
    var pos := if start == 0 then 0 else start - 1;
    if pos == 0 && |msgs| > 0 && msgs[0].role == System then 1 else pos
  }

  function InjectedMessage(inject: Text): Message { AssistantMessage(inject, [], [], []) }

  function Injected(msgs: seq<Message>, inject: Text): seq<Message> {
    var pos := InjectPosition(msgs);
    msgs[..pos] + [InjectedMessage(inject)] + msgs[pos..]
  }

  method InjectPreCompactContext(msgs: seq<Message>, inject: Text) returns (out: seq<Message>)
    ensures out == Injected(msgs, inject)
  {
    var start := |msgs|;
    while start > 0 && msgs[start - 1].role == User
      invariant 0 <= start <= |msgs| && TailStart(msgs, |msgs|) == TailStart(msgs, start)
    {
      start := start - 1;
    }
    var pos := start - 1;
    if pos < 0 {
      pos := 0;
    }
    if pos == 0 && |msgs| > 0 && msgs[0].role == System {
      pos := 1;
    }
    out := msgs[..pos];
    out := out + [InjectedMessage(inject)];
    out := out + msgs[pos..];
  }

  function InjectedAll(msgs: seq<Message>, injects: seq<Text>): seq<Message>
    decreases injects
  {
    if injects == [] then msgs else InjectedAll(Injected(msgs, injects[0]), injects[1..])
  }
}
