/** Compact as a whole (agents/llm_compressor.go): the call, and what the context it returns holds,
    message by message. */
module CompactedContext {
  import opened Messages
  import opened Compressor
  import opened CompactTheorems

  /** us..ue is the last run of user messages. */
  ghost predicate LastRun(msgs: seq<Message>, us: int, ue: int) {
    && 0 <= us <= ue < |msgs| && (forall i | us <= i <= ue :: msgs[i].role == User)
    && (us > 0 ==> msgs[us - 1].role != User) && (forall i | ue < i < |msgs| :: msgs[i].role != User)
  }

  predicate IsRequest(m: Message) { m.role == User && HasRealText(m) }

  /** The first real request stands at a; -1 when there is none. */
  ghost predicate FirstRequest(msgs: seq<Message>, a: int) {
    && -1 <= a < |msgs| && (a >= 0 ==> IsRequest(msgs[a]))
    && forall i | 0 <= i < |msgs| && (a < 0 || i < a) :: !IsRequest(msgs[i])
  }

  predicate HasPrompt(msgs: seq<Message>) {
    msgs != [] && msgs[0].role == System && !IsSummaryMessage(msgs[0])
  }

  predicate TooLarge(run: seq<Message>, cfg: CompactConfig) {
    cfg.latestUserMaxTokens > 0 && Tokens(run) > cfg.latestUserMaxTokens
  }

  /** Old summaries and a leading system prompt never enter the kept window. */
  predicate PassedOver(msgs: seq<Message>, i: int)
    requires 0 <= i < |msgs|
  {
    IsSummaryMessage(msgs[i]) || (i == 0 && msgs[0].role == System)
  }

  /** The places of a window that ends right before us: nothing between them and us is left out but
      what is passed over. */
  ghost predicate Contiguous(msgs: seq<Message>, us: int, win: seq<int>)
    requires us <= |msgs|
  {
    && (forall k | 0 <= k < |win| :: 0 <= win[k] < us && !PassedOver(msgs, win[k]))
    && (forall k, l | 0 <= k < l < |win| :: win[k] < win[l])
    && (win != [] ==> forall i | win[0] <= i < us :: i in win || PassedOver(msgs, i))
  }

  function Picked(msgs: seq<Message>, at: seq<int>): (picked: seq<Message>)
    requires forall k | 0 <= k < |at| :: 0 <= at[k] < |msgs|
  {
    seq(|at|, k requires 0 <= k < |at| => msgs[at[k]])
  }

  /** The last `keep` messages before us, all of them when there are fewer; a window that would start
      with tool results is extended over them to the message they answer. */
  ghost predicate FullWindow(msgs: seq<Message>, us: int, keep: nat, win: seq<int>)
    requires us <= |msgs|
  {
    && Contiguous(msgs, us, win)
    && (|win| < keep ==> forall i | 0 <= i < us :: i in win || PassedOver(msgs, i))
    && (keep == 0 ==> win == [])
    && (forall k | 0 < k <= |win| - keep :: msgs[win[k]].role == Tool)
    && (win != [] && msgs[win[0]].role == Tool && win[0] > 0 ==>
          var prev := msgs[win[0] - 1]; prev.role == System || prev.role == User || IsSummaryMessage(prev))
  }

  predicate Fits(recent: seq<Message>, contextWindow: int) {
    contextWindow <= 0 || Tokens(recent) <= 8000 || Tokens(recent) <= contextWindow / 10
  }

  /** From its old end the window loses what does not fit, and tool results that would then stand first. */
  ghost predicate Fitted(msgs: seq<Message>, us: int, contextWindow: int, win: seq<int>, kept: seq<int>)
    requires us <= |msgs| && Contiguous(msgs, us, win)
  {
    exists cut: nat :: cut <= |win| && CutAt(msgs, us, contextWindow, win, kept, cut)
  }

  ghost predicate CutAt(msgs: seq<Message>, us: int, contextWindow: int, win: seq<int>, kept: seq<int>, cut: nat)
    requires us <= |msgs| && Contiguous(msgs, us, win) && cut <= |win|
  {
    && kept == win[cut..] && Fits(Picked(msgs, win)[cut..], contextWindow)
    && forall d | 0 <= d < cut :: !Fits(Picked(msgs, win)[d..], contextWindow) || msgs[win[d]].role == Tool
  }

  /** `out` is the prompt, the summary, the original task unless the last user messages hold it, the
      kept window, and the last user messages unless they are too large. */
  ghost predicate Layout(msgs: seq<Message>, cfg: CompactConfig, md: Text, us: int, ue: int, a: int, kept: seq<int>,
                         out: seq<Message>)
    requires LastRun(msgs, us, ue) && FirstRequest(msgs, a)
  {
    var prompts := if HasPrompt(msgs) then 1 else 0;
    var tasks := if 0 <= a < us then 1 else 0;
    var users := if TooLarge(msgs[us..ue + 1], cfg) then 0 else ue + 1 - us;
    && Contiguous(msgs, us, kept)
    && |out| == prompts + 1 + tasks + |kept| + users
    && (prompts == 1 ==> out[0] == msgs[0])
    && out[prompts] == Message(System, [Block(SummaryBlock, md)], [], [], [], "")
    && (tasks == 1 ==> out[prompts + 1] == SystemMessage([Lit("Original task (preserved verbatim):\n")] +
                                                         RealText(msgs[a].content)))
    && (forall k | 0 <= k < |kept| :: out[prompts + 1 + tasks + k] == msgs[kept[k]])
    && out[|out| - users..] == msgs[us..us + users]
  }

  ghost predicate LaidOut(msgs: seq<Message>, cfg: CompactConfig, md: Text, us: int, ue: int, a: int,
                          out: seq<Message>)
    requires LastRun(msgs, us, ue) && FirstRequest(msgs, a)
  {
    exists win: seq<int>, kept: seq<int> ::
      && FullWindow(msgs, us, cfg.keepRecent, win) && Fitted(msgs, us, cfg.contextWindow, win, kept)
      && Layout(msgs, cfg, md, us, ue, a, kept, out)
  }

  /** What Compact promises of the context it returns. */
  ghost predicate IsCompacted(msgs: seq<Message>, cfg: CompactConfig, md: Text, out: seq<Message>) {
    && (forall us, ue, a | LastRun(msgs, us, ue) && FirstRequest(msgs, a) :: LaidOut(msgs, cfg, md, us, ue, a, out))
    && (forall us, ue | LastRun(msgs, us, ue) && !TooLarge(msgs[us..ue + 1], cfg) ::
          |out| > ue + 1 - us && out[|out| - (ue + 1 - us)..] == msgs[us..ue + 1])
    && ((forall m | m in msgs :: m.role != User) ==>
          out == (if HasPrompt(msgs) then [msgs[0]] else []) +
                 [Message(System, [Block(SummaryBlock, md)], [], [], [], "")])
  }

  // ---- the parts of a compaction are those of its layout ---------------------------------------------

  lemma {:induction false} LastRunIs(msgs: seq<Message>, us: int, ue: int)
    requires LastRun(msgs, us, ue)
    ensures UserStart(msgs) == us && UserEnd(msgs) == ue
  {
    assert msgs[ue].role == User && msgs[us].role == User;
  }

  lemma {:induction false} FirstRequestIs(msgs: seq<Message>, n: nat, a: int)
    requires n <= |msgs| && FirstRequest(msgs, a)
    ensures AnchorIndex(msgs, n) == if a < n then a else -1
  {
    if n > 0 { FirstRequestIs(msgs, n - 1, a); }
  }

  lemma {:induction false} PromptIs(msgs: seq<Message>, n: nat)
    requires n <= |msgs|
    ensures Collect(msgs, Prompt, n) == if n > 0 && HasPrompt(msgs) then [msgs[0]] else []
  {
    if n > 0 {
      PromptIs(msgs, n - 1);
      assert UserEnd(msgs) >= 0 ==> msgs[UserStart(msgs)].role == User;
    }
  }

  // ---- the window -----------------------------------------------------------------------------------

  lemma {:induction false} WindowPlaces(msgs: seq<Message>, lo: nat, hi: nat)
    requires lo <= hi <= |msgs|
    ensures forall i | lo <= i < hi :: i in WindowAt(msgs, lo, hi) <==> !PassedOver(msgs, i)
    decreases hi - lo
  {
    if lo < hi { WindowPlaces(msgs, lo + 1, hi); }
  }

  lemma {:induction false} WindowIsContiguous(msgs: seq<Message>, o: nat, us: nat)
    requires o <= us <= |msgs|
    ensures Contiguous(msgs, us, WindowAt(msgs, o, us))
    ensures Picked(msgs, WindowAt(msgs, o, us)) == Window(msgs, o, us)
  {
    WindowPlaces(msgs, o, us);
    var at := WindowAt(msgs, o, us);
    forall k | 0 <= k < |at| ensures !PassedOver(msgs, at[k]) {
      assert at[k] in at;
    }
  }

  lemma {:induction false} WindowGrows(msgs: seq<Message>, o: nat, us: nat)
    requires 0 < o <= us <= |msgs|
    ensures WindowAt(msgs, o - 1, us) == (if PassedOver(msgs, o - 1) then [] else [o - 1]) + WindowAt(msgs, o, us)
  {
  }

  /** The backward scan collects what there is, at most `room` messages more. */
  lemma {:induction false} OldestCollects(msgs: seq<Message>, us: nat, i: nat, oldest: nat, room: nat)
    requires i <= oldest <= us <= |msgs| && WindowAt(msgs, i, us) == WindowAt(msgs, oldest, us)
    requires oldest < us ==> !PassedOver(msgs, oldest)
    ensures var o := OldestOf(msgs, i, oldest, room);
            && (o < us ==> !PassedOver(msgs, o))
            && |WindowAt(msgs, o, us)| <= |WindowAt(msgs, oldest, us)| + room
            && (|WindowAt(msgs, o, us)| < |WindowAt(msgs, oldest, us)| + room ==>
                  WindowAt(msgs, 0, us) == WindowAt(msgs, o, us))
  {
    hide WindowAt, Window, IsSummaryMessage;
    if i == 0 || room == 0 {
    } else {
      WindowGrows(msgs, i, us);
      if PassedOver(msgs, i - 1) {
        OldestCollects(msgs, us, i - 1, oldest, room);
      } else {
        OldestCollects(msgs, us, i - 1, i - 1, room - 1);
      }
    }
  }

  function Between(r: nat, o: nat): (places: seq<int>)
    requires r <= o
    ensures |places| == o - r && forall k | 0 <= k < o - r :: places[k] == r + k
  {
    seq(o - r, k => r + k)
  }

  /** Extending steps back over tool results only, and stops where it has to. */
  lemma {:induction false} ExtensionCollects(msgs: seq<Message>, us: nat, o: nat)
    requires o < us <= |msgs| && !PassedOver(msgs, o)
    ensures var r := ExtendedTo(msgs, o);
            && !PassedOver(msgs, r) && WindowAt(msgs, r, us) == Between(r, o) + WindowAt(msgs, o, us)
            && (forall j | r < j <= o :: msgs[j].role == Tool) && StopsAt(msgs, r)
  {
    hide WindowAt, Window, IsSummaryMessage;
    var r := ExtendedTo(msgs, o);
    if r < o {
      ExtensionCollects(msgs, us, o - 1);
      WindowGrows(msgs, o, us);
      OneMore(r, o, WindowAt(msgs, o, us));
    } else {
      assert Between(r, o) + WindowAt(msgs, o, us) == WindowAt(msgs, o, us);
    }
  }

  lemma {:induction false} OneMore(r: nat, o: nat, win: seq<int>)
    requires r < o
    ensures Between(r, o - 1) + ([o - 1] + win) == Between(r, o) + win
  {
  }

  lemma {:induction false} WindowIsFull(msgs: seq<Message>, us: nat, keep: nat)
    requires UserStart(msgs) == us
    ensures us < |msgs| && FullWindow(msgs, us, keep, WindowAt(msgs, WindowStart(msgs, keep), us))
  {
    assert us < |msgs|;
    hide IsSummaryMessage, OldestOf, ExtendedTo, Contiguous, PassedOver, Window, FullWindow, UserStart, Between;
    var o, r := OldestOf(msgs, us, us, keep), WindowStart(msgs, keep);
    OldestCollects(msgs, us, us, us, keep);
    assert WindowAt(msgs, us, us) == [];
    hide WindowAt;
    if o < us {
      ExtensionCollects(msgs, us, o);
      FullEnough(msgs, us, keep, o, r);
    } else {
      FullWhenNone(msgs, us, keep);
    }
  }

  lemma {:induction false} FullWhenNone(msgs: seq<Message>, us: nat, keep: nat)
    requires us <= |msgs| && (0 < keep ==> WindowAt(msgs, 0, us) == [])
    ensures WindowAt(msgs, us, us) == [] && FullWindow(msgs, us, keep, [])
  {
    hide Window, PassedOver;
    WindowPlaces(msgs, 0, us);
  }

  lemma {:induction false} WindowHead(msgs: seq<Message>, o: nat, us: nat)
    requires o < us <= |msgs| && !PassedOver(msgs, o)
    ensures WindowAt(msgs, o, us) != [] && WindowAt(msgs, o, us)[0] == o
  {
  }

  lemma {:induction false} FullEnough(msgs: seq<Message>, us: nat, keep: nat, o: nat, r: nat)
    requires r <= o < us <= |msgs| && !PassedOver(msgs, o) && !PassedOver(msgs, r)
    requires WindowAt(msgs, r, us) == Between(r, o) + WindowAt(msgs, o, us)
    requires 0 < |WindowAt(msgs, o, us)| <= keep
    requires |WindowAt(msgs, o, us)| < keep ==> WindowAt(msgs, 0, us) == WindowAt(msgs, o, us)
    requires forall j | r < j <= o :: msgs[j].role == Tool
    requires StopsAt(msgs, r)
    ensures FullWindow(msgs, us, keep, WindowAt(msgs, r, us))
  {
    WindowHead(msgs, o, us);
    WindowHead(msgs, r, us);
    WindowIsContiguous(msgs, r, us);
    WindowPlaces(msgs, 0, us);
    hide WindowAt, Window, PassedOver, IsSummaryMessage, Contiguous, Between, FullWindow;
    FullByParts(msgs, us, keep, WindowAt(msgs, o, us), r, o);
  }

  /** Here an extension ends. */
  predicate StopsAt(msgs: seq<Message>, r: nat)
    requires r < |msgs|
  {
    msgs[r].role == Tool && r > 0 ==>
      var prev := msgs[r - 1]; prev.role == System || prev.role == User || IsSummaryMessage(prev)
  }

  lemma {:induction false} FullByParts(msgs: seq<Message>, us: nat, keep: nat, first: seq<int>, r: nat, o: nat)
    requires r <= o < us <= |msgs| && 0 < |first| <= keep && first[0] == o && StopsAt(msgs, r)
    requires Contiguous(msgs, us, Between(r, o) + first)
    requires |first| < keep ==> forall i | 0 <= i < us :: i in first || PassedOver(msgs, i)
    requires forall j | r < j <= o :: msgs[j].role == Tool
    ensures FullWindow(msgs, us, keep, Between(r, o) + first)
  {
    hide PassedOver, IsSummaryMessage;
    var win := Between(r, o) + first;
    assert win[0] == r;
    assert forall i :: i in first ==> i in win;
    forall k | 0 < k <= |win| - keep ensures msgs[win[k]].role == Tool {
      assert win[k] == r + k;
    }
  }

  lemma {:induction false} TrimIsFitted(msgs: seq<Message>, us: nat, contextWindow: int, win: seq<int>)
    requires us <= |msgs| && Contiguous(msgs, us, win)
    ensures var cut := TrimStart(Picked(msgs, win), RecentTokenLimit(contextWindow));
            cut <= |win| && CutAt(msgs, us, contextWindow, win, win[cut..], cut)
  {
    var recent, limit := Picked(msgs, win), RecentTokenLimit(contextWindow);
    var cut := TrimStart(recent, limit);
    assert recent[0..] == recent;
    assert recent[|recent|..] == [] && Tokens([]) == 0;
    if 0 < cut {
      var fits := FitsFrom(recent, limit, 0);
      if cut < |recent| { ShorterIsSmaller(recent, fits, cut); }
      forall d | 0 <= d < cut ensures !Fits(recent[d..], contextWindow) || msgs[win[d]].role == Tool {
        if d >= fits { assert recent[d].role == Tool; }
      }
    }
  }

  // ---- the returned context ---------------------------------------------------------------------------

  lemma {:induction false} PartsAre(msgs: seq<Message>, cfg: CompactConfig, us: int, ue: int, a: int)
    requires LastRun(msgs, us, ue) && FirstRequest(msgs, a) && PartsOf(msgs, cfg).Some?
    ensures var p := PartsOf(msgs, cfg).value;
            && p.system == (if HasPrompt(msgs) then [msgs[0]] else [])
            && p.anchor == (if 0 <= a < us then Some(AnchorMessage(msgs[a])) else None)
            && p.recent == Trimmed(Recent(msgs, cfg.keepRecent), RecentTokenLimit(cfg.contextWindow))
            && p.latestUser == (if TooLarge(msgs[us..ue + 1], cfg) then [] else msgs[us..ue + 1])
  {
    hide SplitOf, Recent, Trimmed, Tokens, RecentTokenLimit, LastRun, FirstRequest, HasPrompt, AnchorMessage;
    SplitIs(msgs, cfg.keepRecent, us, ue, a);
  }

  lemma {:induction false} SplitIs(msgs: seq<Message>, keepRecent: nat, us: int, ue: int, a: int)
    requires LastRun(msgs, us, ue) && FirstRequest(msgs, a)
    ensures 0 <= us <= ue < |msgs| && -1 <= a < |msgs|
    ensures var sp := SplitOf(msgs, keepRecent);
            && sp.system == (if HasPrompt(msgs) then [msgs[0]] else [])
            && sp.latestUser == msgs[us..ue + 1] && sp.latestUser != []
            && sp.anchorIdx == a && (sp.anchorInLatest <==> us <= a) && sp.recent == Recent(msgs, keepRecent)
  {
    RequestBeforeRun(msgs, us, ue, a);
    LastRunIs(msgs, us, ue);
    FirstRequestIs(msgs, |msgs|, a);
    PromptIs(msgs, |msgs|);
    LatestUserIsLastRun(msgs, |msgs|);
    hide Collect, Recent, AnchorIndex, UserStart, UserEnd;
  }

  lemma {:induction false} RequestBeforeRun(msgs: seq<Message>, us: int, ue: int, a: int)
    requires LastRun(msgs, us, ue) && FirstRequest(msgs, a)
    ensures a <= ue
  {
  }

  lemma {:induction false} LayoutOfParts(msgs: seq<Message>, cfg: CompactConfig, md: Text, us: int, ue: int, a: int,
                                         kept: seq<int>, p: Parts)
    requires LastRun(msgs, us, ue) && FirstRequest(msgs, a) && Contiguous(msgs, us, kept)
    requires p.system == (if HasPrompt(msgs) then [msgs[0]] else [])
    requires p.anchor == (if 0 <= a < us then Some(AnchorMessage(msgs[a])) else None)
    requires p.recent == Picked(msgs, kept)
    requires p.latestUser == (if TooLarge(msgs[us..ue + 1], cfg) then [] else msgs[us..ue + 1])
    ensures Layout(msgs, cfg, md, us, ue, a, kept, Assembled(p, md))
  {
    hide FirstRequest, HasPrompt, TooLarge, Contiguous, RealText;
    var out := Assembled(p, md);
    assert out[|out| - |p.latestUser|..] == p.latestUser;
  }

  lemma {:induction false} KeptWindow(msgs: seq<Message>, cfg: CompactConfig, us: nat)
    returns (win: seq<int>, kept: seq<int>)
    requires UserStart(msgs) == us
    ensures us < |msgs| && FullWindow(msgs, us, cfg.keepRecent, win) && Contiguous(msgs, us, kept)
    ensures Fitted(msgs, us, cfg.contextWindow, win, kept)
    ensures Picked(msgs, kept) == Trimmed(Recent(msgs, cfg.keepRecent), RecentTokenLimit(cfg.contextWindow))
  {
    hide Contiguous, WindowAt, Window, RecentTokenLimit, CutAt, TrimStart, UserStart, WindowStart;
    WindowIsFull(msgs, us, cfg.keepRecent);
    WindowIsContiguous(msgs, WindowStart(msgs, cfg.keepRecent), us);
    RecentIsWindow(msgs, cfg.keepRecent);
    win := WindowAt(msgs, WindowStart(msgs, cfg.keepRecent), us);
    hide FullWindow, Recent;
    TrimIsFitted(msgs, us, cfg.contextWindow, win);
    var cut := TrimStart(Picked(msgs, win), RecentTokenLimit(cfg.contextWindow));
    kept := win[cut..];
    SuffixIsContiguous(msgs, us, win, cut);
    PickedSuffix(msgs, us, win, cut);
  }

  lemma {:induction false} PickedSuffix(msgs: seq<Message>, us: int, win: seq<int>, cut: nat)
    requires us <= |msgs| && Contiguous(msgs, us, win) && cut <= |win|
    requires Contiguous(msgs, us, win[cut..])
    ensures Picked(msgs, win[cut..]) == Picked(msgs, win)[cut..]
  {
    hide PassedOver;
  }

  lemma {:induction false} CompactedIsLaidOut(msgs: seq<Message>, cfg: CompactConfig, md: Text, us: int, ue: int,
                                              a: int)
    requires LastRun(msgs, us, ue) && FirstRequest(msgs, a) && PartsOf(msgs, cfg).Some?
    ensures LaidOut(msgs, cfg, md, us, ue, a, Assembled(PartsOf(msgs, cfg).value, md))
  {
    hide PartsOf, Assembled, Layout, FullWindow, Fitted, Contiguous, FirstRequest, Recent, RecentTokenLimit, UserStart;
    LastRunIs(msgs, us, ue);
    PartsAre(msgs, cfg, us, ue, a);
    var win, kept := KeptWindow(msgs, cfg, us);
    LayoutOfParts(msgs, cfg, md, us, ue, a, kept, PartsOf(msgs, cfg).value);
  }

  lemma {:induction false} RecentIsWindow(msgs: seq<Message>, keepRecent: nat)
    requires UserStart(msgs) >= 0
    ensures Recent(msgs, keepRecent) == Window(msgs, WindowStart(msgs, keepRecent), UserStart(msgs))
  {
  }

  lemma {:induction false} SuffixIsContiguous(msgs: seq<Message>, us: int, win: seq<int>, cut: nat)
    requires us <= |msgs| && Contiguous(msgs, us, win) && cut <= |win|
    ensures Contiguous(msgs, us, win[cut..])
  {
    hide PassedOver;
    var kept := win[cut..];
    if kept != [] {
      forall i | kept[0] <= i < us ensures i in kept || PassedOver(msgs, i) {
        assert win[0] <= kept[0];
        if i in win {
          var k :| 0 <= k < |win| && win[k] == i;
          assert win[cut] == kept[0] && k >= cut;
          assert kept[k - cut] == i;
        }
      }
    }
  }

  ghost predicate InLastRun(msgs: seq<Message>, i: int) {
    exists us, ue :: LastRun(msgs, us, ue) && us <= i <= ue
  }

  /** There is something to compress: a message besides the prompt, old summaries and the last user
      messages, or those when they are too large. */
  ghost predicate Compressible(msgs: seq<Message>, cfg: CompactConfig) {
    || (exists i | 0 <= i < |msgs| :: !PassedOver(msgs, i) && !InLastRun(msgs, i))
    || (exists us, ue :: LastRun(msgs, us, ue) && TooLarge(msgs[us..ue + 1], cfg))
  }

  lemma {:induction false} HasLastRun(msgs: seq<Message>)
    requires UserEnd(msgs) >= 0
    ensures LastRun(msgs, UserStart(msgs), UserEnd(msgs))
  {
  }

  lemma {:induction false} PlaceIsHistory(msgs: seq<Message>, i: nat)
    requires i < |msgs|
    ensures PlaceOf(msgs, i) == History <==> !PassedOver(msgs, i) && !InLastRun(msgs, i)
  {
    hide IsSummaryMessage;
    if UserEnd(msgs) >= 0 { HasLastRun(msgs); }
    if InLastRun(msgs, i) {
      var us, ue :| LastRun(msgs, us, ue) && us <= i <= ue;
      LastRunIs(msgs, us, ue);
    }
  }

  lemma {:induction false} HistoryIff(msgs: seq<Message>, n: nat)
    requires n <= |msgs|
    ensures Collect(msgs, History, n) != [] <==> exists i | 0 <= i < n :: !PassedOver(msgs, i) && !InLastRun(msgs, i)
  {
    hide PassedOver, InLastRun, PlaceOf;
    if n > 0 {
      HistoryIff(msgs, n - 1);
      PlaceIsHistory(msgs, n - 1);
    }
  }

  lemma {:induction false} CompressibleIff(msgs: seq<Message>, cfg: CompactConfig)
    ensures PartsOf(msgs, cfg).Some? <==> Compressible(msgs, cfg)
  {
    hide PassedOver, InLastRun, Tokens, Recent, Trimmed, RecentTokenLimit, AnchorIndex;
    HistoryIff(msgs, |msgs|);
    if UserEnd(msgs) >= 0 {
      HasLastRun(msgs);
      LatestUserIsLastRun(msgs, |msgs|);
    } else {
      NoLatestUser(msgs, |msgs|);
    }
    if us, ue :| LastRun(msgs, us, ue) && TooLarge(msgs[us..ue + 1], cfg) { LastRunIs(msgs, us, ue); }
  }

  lemma {:induction false} NoLatestUser(msgs: seq<Message>, n: nat)
    requires UserEnd(msgs) < 0 && n <= |msgs|
    ensures Collect(msgs, LatestUser, n) == [] && Tokens([]) == 0
  {
    if n > 0 { NoLatestUser(msgs, n - 1); }
  }

  lemma {:induction false} RequestExists(msgs: seq<Message>) returns (a: int)
    ensures FirstRequest(msgs, a)
  {
    hide HasRealText;
    a := AnchorIndex(msgs, |msgs|);
    NoneEarlier(msgs, |msgs|);
  }

  lemma {:induction false} NoneEarlier(msgs: seq<Message>, n: nat)
    requires n <= |msgs|
    ensures var a := AnchorIndex(msgs, n); forall i | 0 <= i < n && (a < 0 || i < a) :: !IsRequest(msgs[i])
  {
    hide HasRealText;
    if n > 0 { NoneEarlier(msgs, n - 1); }
  }

  lemma {:induction false} CompactedWithoutUser(msgs: seq<Message>, cfg: CompactConfig, md: Text)
    requires PartsOf(msgs, cfg).Some? && forall m | m in msgs :: m.role != User
    ensures Assembled(PartsOf(msgs, cfg).value, md) ==
            (if HasPrompt(msgs) then [msgs[0]] else []) + [Message(System, [Block(SummaryBlock, md)], [], [], [], "")]
  {
    hide Collect, Tokens, RecentTokenLimit, TrimStart;
    assert UserStart(msgs) < 0;
    PromptIs(msgs, |msgs|);
    NoLatestUser(msgs, |msgs|);
    assert AnchorIndex(msgs, |msgs|) < 0;
    assert Recent(msgs, cfg.keepRecent) == [] && Trimmed([], RecentTokenLimit(cfg.contextWindow)) == [];
    var p := PartsOf(msgs, cfg).value;
    assert p.system == (if HasPrompt(msgs) then [msgs[0]] else []) && p.anchor.None? && p.recent == p.latestUser == [];
  }

  lemma {:induction false} RunAtEnd(msgs: seq<Message>, cfg: CompactConfig, md: Text, us: int, ue: int, a: int,
                                    out: seq<Message>)
    requires LastRun(msgs, us, ue) && FirstRequest(msgs, a) && LaidOut(msgs, cfg, md, us, ue, a, out)
    requires !TooLarge(msgs[us..ue + 1], cfg)
    ensures |out| > ue + 1 - us && out[|out| - (ue + 1 - us)..] == msgs[us..ue + 1]
  {
    hide FullWindow, Fitted, Contiguous, FirstRequest, HasPrompt, TooLarge;
  }

  lemma {:induction false} AssembledIsCompacted(msgs: seq<Message>, cfg: CompactConfig, md: Text)
    requires PartsOf(msgs, cfg).Some?
    ensures IsCompacted(msgs, cfg, md, Assembled(PartsOf(msgs, cfg).value, md))
  {
    hide PartsOf, Assembled, LaidOut, FirstRequest, TooLarge, HasPrompt;
    var out := Assembled(PartsOf(msgs, cfg).value, md);
    forall us, ue, a | LastRun(msgs, us, ue) && FirstRequest(msgs, a) ensures LaidOut(msgs, cfg, md, us, ue, a, out) {
      CompactedIsLaidOut(msgs, cfg, md, us, ue, a);
    }
    var a := RequestExists(msgs);
    forall us, ue | LastRun(msgs, us, ue) && !TooLarge(msgs[us..ue + 1], cfg)
      ensures |out| > ue + 1 - us && out[|out| - (ue + 1 - us)..] == msgs[us..ue + 1]
    {
      RunAtEnd(msgs, cfg, md, us, ue, a, out);
    }
    if forall m | m in msgs :: m.role != User { CompactedWithoutUser(msgs, cfg, md); }
  }

  /** Compact, with the summarizer's answer given: None when it failed. */
  method Compact(msgs: seq<Message>, cfg: CompactConfig, summary: Option<Text>) returns (out: Option<seq<Message>>)
    ensures out == match (PartsOf(msgs, cfg), summary)
                   case (Some(p), Some(md)) => Some(Assembled(p, md))
                   case _ => None
    ensures out.Some? <==> summary.Some? && Compressible(msgs, cfg)
    ensures out.Some? ==> IsCompacted(msgs, cfg, summary.value, out.value)
  {
    hide Compressible, IsCompacted, Tokens;
    CompressibleIff(msgs, cfg);
    if PartsOf(msgs, cfg).Some? && summary.Some? { AssembledIsCompacted(msgs, cfg, summary.value); }
    var sp := SplitMessages(msgs, cfg.keepRecent);
    var history, latestUser := sp.history, sp.latestUser;
    if cfg.latestUserMaxTokens > 0 && Tokens(latestUser) > cfg.latestUserMaxTokens {
      history := history + latestUser;
      latestUser := [];
    }
    if history == [] {
      return None;
    }
    if summary.None? {
      return None;
    }
    var anchor: Option<Message> := None;
    if sp.anchorIdx >= 0 && !sp.anchorInLatest {
      anchor := Some(AnchorMessage(msgs[sp.anchorIdx]));
    }
    var recent := sp.recent;
    if |recent| > 0 {
      recent := TrimRecentWindow(recent, RecentTokenLimit(cfg.contextWindow));
    }
    return Some(Assembled(Parts(sp.system, anchor, recent, latestUser), summary.value));
  }

  /** In a well-formed context the summary is the only one. */
  lemma {:induction false} OneSummary(msgs: seq<Message>, cfg: CompactConfig, md: Text, us: int, ue: int, a: int,
                                      out: seq<Message>)
    requires AllWellFormed(msgs)
    requires LastRun(msgs, us, ue) && FirstRequest(msgs, a) && LaidOut(msgs, cfg, md, us, ue, a, out)
    ensures forall q | 0 <= q < |out| :: IsSummaryMessage(out[q]) <==> q == (if HasPrompt(msgs) then 1 else 0)
  {
    hide Fitted, Contiguous, FirstRequest;
    var win: seq<int>, kept: seq<int> :|
      FullWindow(msgs, us, cfg.keepRecent, win) && Fitted(msgs, us, cfg.contextWindow, win, kept) &&
      Layout(msgs, cfg, md, us, ue, a, kept, out);
    hide TooLarge, LastRun;
    forall q | 0 <= q < |out| ensures IsSummaryMessage(out[q]) <==> q == (if HasPrompt(msgs) then 1 else 0) {
      SourceOf(msgs, cfg, md, us, ue, a, kept, out, q);
    }
  }

  /** Where the message at q comes from. */
  lemma {:induction false} SourceOf(msgs: seq<Message>, cfg: CompactConfig, md: Text, us: int, ue: int, a: int,
                                    kept: seq<int>, out: seq<Message>, q: nat)
    requires LastRun(msgs, us, ue) && FirstRequest(msgs, a) && Layout(msgs, cfg, md, us, ue, a, kept, out) && q < |out|
    ensures var summary := if HasPrompt(msgs) then 1 else 0;
            || (q == 0 < summary && out[q] == msgs[0])
            || (q == summary && out[q] == Message(System, [Block(SummaryBlock, md)], [], [], [], ""))
            || (q == summary + 1 && 0 <= a < us && out[q] ==
                  SystemMessage([Lit("Original task (preserved verbatim):\n")] + RealText(msgs[a].content)))
            || (q > summary && exists i | 0 <= i < us :: out[q] == msgs[i] && !PassedOver(msgs, i))
            || (q > summary && !TooLarge(msgs[us..ue + 1], cfg) && exists i | us <= i <= ue :: out[q] == msgs[i])
  {
    hide FirstRequest, PassedOver, HasPrompt, TooLarge, RealText;
    var prompts := if HasPrompt(msgs) then 1 else 0;
    var tasks := if 0 <= a < us then 1 else 0;
    var users := if TooLarge(msgs[us..ue + 1], cfg) then 0 else ue + 1 - us;
    var k := q - (prompts + 1 + tasks);
    if 0 <= k < |kept| {
      assert out[q] == msgs[kept[k]];
    } else if k >= |kept| {
      assert out[q] == out[|out| - users..][k - |kept|] == msgs[us + (k - |kept|)];
    }
  }

  /** The engine keeps the first real request, as a copy right behind the summary or among the last
      user messages, unless those hold it and are too large (agents/llm_compressor.go:359-362, 457):
      then no message returned is a request, and a copy of it can only be an older one of the window. */
  lemma {:induction false} TaskSurvivesIff(msgs: seq<Message>, cfg: CompactConfig, md: Text, us: int, ue: int, a: int,
                                           out: seq<Message>)
    requires LastRun(msgs, us, ue) && FirstRequest(msgs, a) && a >= 0 && LaidOut(msgs, cfg, md, us, ue, a, out)
    ensures var copy := SystemMessage([Lit("Original task (preserved verbatim):\n")] + RealText(msgs[a].content));
            if a < us then
              var summary := if HasPrompt(msgs) then 1 else 0;
              summary + 1 < |out| && out[summary + 1] == copy
            else if !TooLarge(msgs[us..ue + 1], cfg) then
              |out| > ue + 1 - a && out[|out| - (ue + 1 - a)] == msgs[a]
            else
              (forall m | m in out :: !IsRequest(m)) && (copy in out ==> copy in msgs[..us])
  {
    hide Fitted, Contiguous, FirstRequest;
    var win: seq<int>, kept: seq<int> :|
      FullWindow(msgs, us, cfg.keepRecent, win) && Fitted(msgs, us, cfg.contextWindow, win, kept) &&
      Layout(msgs, cfg, md, us, ue, a, kept, out);
    RequestBeforeRun(msgs, us, ue, a);
    if us <= a && TooLarge(msgs[us..ue + 1], cfg) {
      forall m | m in out ensures !IsRequest(m) && (m == AnchorMessage(msgs[a]) ==> m in msgs[..us]) {
        var q :| 0 <= q < |out| && out[q] == m;
        SourceOf(msgs, cfg, md, us, ue, a, kept, out, q);
        NoRequestBefore(msgs, us, a);
      }
    } else if us <= a {
      assert out[|out| - (ue + 1 - us)..][a - us] == msgs[us..ue + 1][a - us];
    }
  }

  lemma {:induction false} NoRequestBefore(msgs: seq<Message>, us: int, a: int)
    requires FirstRequest(msgs, a) && us <= a
    ensures forall i | 0 <= i < us :: !IsRequest(msgs[i])
  {
  }

  /** A context that is one request, and too large: nothing of it is left but the summary. */
  lemma {:induction false} TaskCanBeLost(md: Text, out: seq<Message>)
    ensures var msgs, cfg := [UserMessage([Lit("fix the bug in parser.go")])], CompactConfig(0, 0, 1);
            && Compressible(msgs, cfg)
            && (IsCompacted(msgs, cfg, md, out) ==> out == [Message(System, [Block(SummaryBlock, md)], [], [], [], "")])
  {
    var text := "fix the bug in parser.go";
    var task := UserMessage([Lit(text)]);
    var msgs, cfg := [task], CompactConfig(0, 0, 1);
    assert HasRealText(task) by {
      assert task.content[0] in task.content && task.content[0].text[0] in task.content[0].text;
      assert text[0] in text;
    }
    LoneTaskTokens(text);
    assert LastRun(msgs, 0, 0) && msgs[0..1] == msgs && TooLarge(msgs[0..0 + 1], cfg);
    assert FirstRequest(msgs, 0);
    if IsCompacted(msgs, cfg, md, out) {
      assert LaidOut(msgs, cfg, md, 0, 0, 0, out);
      var win: seq<int>, kept: seq<int> :| FullWindow(msgs, 0, 0, win) && Layout(msgs, cfg, md, 0, 0, 0, kept, out);
      assert |out| == 1;
    }
  }
}
