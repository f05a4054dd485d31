/** Removing old screenshots from the context (agents/slim_image.go). */
module SlimImages {
  import opened Messages
  import opened Context
  import Strings
  import opened Slim

  const DEFAULT_IMAGE_KEEP := 4
  const DEFAULT_IMAGE_MAX_ROUNDS := 30

  /** A tool message that still shows an image. */
  predicate ShowsImage(m: Message) {
    m.role == Tool && exists c | c in m.content :: c.kind == ImageBlock && c.text != []
  }

  function Keep(cfg: ImageConfig): int { if cfg.keep == 0 then DEFAULT_IMAGE_KEEP else cfg.keep }

  function MaxRounds(cfg: ImageConfig): int {
    if cfg.maxRounds == 0 then DEFAULT_IMAGE_MAX_ROUNDS else cfg.maxRounds
  }

  function ImageCutoff(starts: seq<nat>, maxRounds: int): nat {
    var k := |starts| - 1 - maxRounds;
    if |starts| > 0 && 0 <= k < |starts| then starts[k] else 0
  }

  /** How many tool results, or image results, stand behind position i. */
  function Behind(msgs: seq<Message>, i: nat, images: bool): (n: nat)
    decreases |msgs| - i
  {
    if i + 1 >= |msgs| then 0
    else (if (if images then ShowsImage(msgs[i + 1]) else msgs[i + 1].role == Tool) then 1
          else 0) + Behind(msgs, i + 1, images)
  }

  /** The reference rule: an image result goes when at least `keep` newer image results exist and,
      unless ages are off, it lies before the age cutoff or has maxRounds newer tool results. */
  predicate ImageGoes(msgs: seq<Message>, starts: seq<nat>, cfg: ImageConfig, i: nat)
    requires i < |msgs|
  {
    && ShowsImage(msgs[i])
    && Keep(cfg) >= 0 && Behind(msgs, i, true) >= Keep(cfg)
    && (MaxRounds(cfg) <= 0 || i < ImageCutoff(starts, MaxRounds(cfg)) || Behind(msgs, i, false) >= MaxRounds(cfg))
  }

  function ImageAge(msgs: seq<Message>, starts: seq<nat>, cfg: ImageConfig, i: nat): nat {
    var rounds := MaxRounds(cfg);
    if rounds <= 0 then 0
    else if i < ImageCutoff(starts, rounds) then rounds
    else Behind(msgs, i, false)
  }

  /** The name of the tool the result belongs to: the last assistant that made the call. */
  function ToolName(msgs: seq<Message>, id: string): string {
    if msgs == [] then "tool"
    else
      var m := msgs[|msgs| - 1];
      if m.role == Assistant && id in Ids(m.calls) then CallName(m.calls, id)
      else ToolName(msgs[..|msgs| - 1], id)
  }

  function CallName(calls: seq<Call>, id: string): string
    requires id in Ids(calls)
  {
    if calls[0].id == id then calls[0].name
    else
      assert Ids(calls)[0] != id;
      assert Ids(calls[1..]) == Ids(calls)[1..];
      CallName(calls[1..], id)
  }

  function RemovedNote(tool: string, i: nat, keep: nat, age: nat): Text {
    [Lit(SLIM_PREFIX + "image older screenshot removed from context (message "), Ref(i),
     Lit(", " + tool + ", " + Strings.Decimal(age) + " rounds old; kept the most recent " + Strings.Decimal(keep) +
         "). Re-capture it.]")]
  }

  function WithoutImages(content: seq<Block>): (out: seq<Block>)
    ensures forall c | c in out :: c in content && c.kind != ImageBlock
  {
    if content == [] then []
    else WithoutImages(content[..|content| - 1]) +
         (if content[|content| - 1].kind == ImageBlock then [] else [content[|content| - 1]])
  }

  /** Texts stay, images go, a note follows the last text (or stands alone). */
  function Stripped(content: seq<Block>, note: Text): (out: seq<Block>)
    ensures out != [] && forall c | c in out :: c.kind != ImageBlock
  {
    var left := WithoutImages(content);
    if exists c | c in left :: !IsBlank(c.text) then
      left[|left| - 1 := left[|left| - 1].(text := left[|left| - 1].text + [Lit("\n")] + note)]
    else left + [Block(TextBlock, note)]
  }

  method StripImages(content: seq<Block>, note: Text) returns (out: seq<Block>)
    ensures out == Stripped(content, note)
  {
    out := [];
    var hadText := false;
    for i := 0 to |content|
      invariant out == WithoutImages(content[..i])
      invariant hadText <==> exists c | c in out :: !IsBlank(c.text)
    {
      assert content[..i + 1][..i] == content[..i];
      var c := content[i];
      if c.kind == ImageBlock {
        continue;
      }
      ghost var before := out;
      out := out + [c];
      assert forall b :: b in out <==> b in before || b == c;
      if !IsBlank(c.text) {
        hadText := true;
      }
    }
    assert content[..|content|] == content;
    if hadText {
      out := out[|out| - 1 := out[|out| - 1].(text := out[|out| - 1].text + [Lit("\n")] + note)];
    } else {
      out := out + [Block(TextBlock, note)];
    }
  }

  /** Message i after the pass over `msgs`. Tool names are looked up in the context at hand. */
  function Slimmed(msgs: seq<Message>, starts: seq<nat>, cfg: ImageConfig, i: nat): Message
    requires i < |msgs|
  {
    if ImageGoes(msgs, starts, cfg, i) then
      msgs[i].(content := Stripped(msgs[i].content,
                                   RemovedNote(ToolName(msgs, msgs[i].toolId), i, Keep(cfg),
                                               ImageAge(msgs, starts, cfg, i))))
    else msgs[i]
  }

  /** Positions of the tool results (or image results) in [lo, hi), in order. */
  function Positions(msgs: seq<Message>, lo: nat, hi: nat, images: bool): (ps: seq<nat>)
    requires lo <= hi <= |msgs|
    ensures forall n | 0 <= n < |ps| ::
            lo <= ps[n] < hi && msgs[ps[n]].role == Tool && (images ==> ShowsImage(msgs[ps[n]]))
    decreases hi
  {
    if lo == hi then []
    else Positions(msgs, lo, hi - 1, images) +
         (if (if images then ShowsImage(msgs[hi - 1]) else msgs[hi - 1].role == Tool) then [hi - 1] else [])
  }

  /** The n-th position has exactly the later ones behind it. */
  lemma {:induction false} PositionRank(msgs: seq<Message>, lo: nat, hi: nat, images: bool, n: nat)
    requires lo <= hi <= |msgs| && n < |Positions(msgs, lo, hi, images)|
    ensures Behind(msgs, Positions(msgs, lo, hi, images)[n], images) ==
            |Positions(msgs, lo, hi, images)| - n - 1 + (if hi == 0 then 0 else Behind(msgs, hi - 1, images))
    decreases hi
  {
    var before := Positions(msgs, lo, hi - 1, images);
    if n < |before| { PositionRank(msgs, lo, hi - 1, images, n); }
  }

  lemma {:induction false} EveryPositionListed(msgs: seq<Message>, lo: nat, hi: nat, images: bool, i: nat)
    requires lo <= i < hi <= |msgs|
    requires if images then ShowsImage(msgs[i]) else msgs[i].role == Tool
    ensures i in Positions(msgs, lo, hi, images)
    decreases hi
  {
    if i < hi - 1 { EveryPositionListed(msgs, lo, hi - 1, images, i); }
  }

  lemma {:induction false} ToolNameDependsOnCalls(a: seq<Message>, b: seq<Message>, id: string)
    requires |a| == |b| && forall i | 0 <= i < |a| :: a[i].role == b[i].role && a[i].calls == b[i].calls
    ensures ToolName(a, id) == ToolName(b, id)
  {
    if a != [] { ToolNameDependsOnCalls(a[..|a| - 1], b[..|b| - 1], id); }
  }

  /** Ages as the pass computes them: from the list of tool results behind the cutoff. */
  method Ages(msgs: seq<Message>, starts: seq<nat>, cfg: ImageConfig) returns (age: map<nat, nat>)
    requires RoundsOk(msgs, starts) && MaxRounds(cfg) > 0
    ensures forall i | 0 <= i < |msgs| && msgs[i].role == Tool :: i in age && age[i] == ImageAge(msgs, starts, cfg, i)
  {
    var maxRounds := MaxRounds(cfg);
    var cutoff := 0;
    if |starts| > 0 {
      var k := |starts| - 1 - maxRounds;
      if 0 <= k < |starts| {
        cutoff := starts[k];
      }
    }
    var order: seq<nat> := [];
    for i := cutoff to |msgs|
      invariant order == Positions(msgs, cutoff, i, false)
    {
      if msgs[i].role == Tool {
        order := order + [i];
      }
    }
    age := map[];
    for n := 0 to |order|
      invariant forall m | 0 <= m < n :: order[m] in age && age[order[m]] == Behind(msgs, order[m], false)
    {
      PositionRank(msgs, cutoff, |msgs|, false, n);
      age := age[order[n] := |order| - n - 1];
    }
    for i := 0 to cutoff
      invariant forall m | 0 <= m < |order| :: order[m] in age && age[order[m]] == Behind(msgs, order[m], false)
      invariant forall j | 0 <= j < i && msgs[j].role == Tool :: j in age && age[j] == maxRounds
    {
      if msgs[i].role == Tool {
        age := age[i := maxRounds];
      }
    }
    forall i | 0 <= i < |msgs| && msgs[i].role == Tool ensures i in age && age[i] == ImageAge(msgs, starts, cfg, i) {
      if i >= cutoff { EveryPositionListed(msgs, cutoff, |msgs|, false, i); }
    }
  }

  /** How many of the listed messages the pass rewrites. */
  ghost function Going(msgs: seq<Message>, starts: seq<nat>, cfg: ImageConfig, ps: seq<nat>): nat
    requires forall n | 0 <= n < |ps| :: ps[n] < |msgs|
  {
    if ps == [] then 0
    else Going(msgs, starts, cfg, ps[..|ps| - 1]) + if ImageGoes(msgs, starts, cfg, ps[|ps| - 1]) then 1 else 0
  }

  /** applyImageSlim as a whole, by the reference rule. */
  ghost predicate ImagesSlimmed(was: seq<Message>, now: seq<Message>, starts: seq<nat>, cfg: ImageConfig) {
    |was| == |now| && forall i | 0 <= i < |was| :: now[i] == Slimmed(was, starts, cfg, i)
  }

  method ApplyImageSlim(ac: AgentContext)
    requires ac.slim != null && SlimOk(ac.messages, ac.slim)
    modifies ac, ac.slim`imagesRemoved
    ensures SlimOk(ac.messages, ac.slim)
    ensures ac.slim.cfg.images.None? ==> ac.messages == old(ac.messages)
    ensures ac.slim.cfg.images.Some? ==>
              var cfg := ac.slim.cfg.images.value;
              && ImagesSlimmed(old(ac.messages), ac.messages, ac.slim.roundStart, cfg)
              && ac.slim.imagesRemoved == old(ac.slim.imagesRemoved) +
                 Going(old(ac.messages), ac.slim.roundStart, cfg,
                       Positions(old(ac.messages), 0, |old(ac.messages)|, true))
    ensures SameShapes(old(ac.messages), ac.messages)
  {
    var s := ac.slim;
    if s.cfg.images.None? {
      return;
    }
    var cfg := s.cfg.images.value;
    var keep := cfg.keep;
    if keep < 0 {
      NothingGoes(ac.messages, s.roundStart, cfg, Positions(ac.messages, 0, |ac.messages|, true));
      return;
    }
    if keep == 0 {
      keep := DEFAULT_IMAGE_KEEP;
    }
    var maxRounds := MaxRounds(cfg);
    ghost var msgs := ac.messages;
    var age: map<nat, nat> := map[];
    if maxRounds > 0 {
      age := Ages(ac.messages, s.roundStart, cfg);
    }
    var imgIdx: seq<nat> := [];
    for i := 0 to |ac.messages|
      invariant ac.messages == msgs && imgIdx == Positions(msgs, 0, i, true)
    {
      if !ShowsImage(ac.messages[i]) {
        continue;
      }
      imgIdx := imgIdx + [i];
    }
    var protectedFrom := |imgIdx| - keep;
    if protectedFrom < 0 {
      protectedFrom := 0;
    }
    RemoveImages(ac, imgIdx, protectedFrom, age, keep, maxRounds, msgs, cfg);
    SlimmedShapes(msgs, ac.messages, s.roundStart, cfg);
    SameShapesKeepSlim(msgs, ac.messages, s);
  }

  lemma {:induction false} SlimmedShapes(was: seq<Message>, now: seq<Message>, starts: seq<nat>, cfg: ImageConfig)
    requires ImagesSlimmed(was, now, starts, cfg)
    ensures SameShapes(was, now)
  {
    forall i | 0 <= i < |was| ensures OnlyTextChanged(was[i], now[i]) {
      SlimmedShape(was, starts, cfg, i);
    }
  }

  lemma {:induction false} SlimmedShape(msgs: seq<Message>, starts: seq<nat>, cfg: ImageConfig, i: nat)
    requires i < |msgs|
    ensures SameShape(msgs[i], Slimmed(msgs, starts, cfg, i))
    ensures WellFormed(msgs[i]) ==> WellFormed(Slimmed(msgs, starts, cfg, i))
  {
  }

  /** The loop over the image results: the last `keep` are never touched. */
  method RemoveImages(ac: AgentContext, imgIdx: seq<nat>, protectedFrom: nat, age: map<nat, nat>, keep: nat,
                      maxRounds: int,
                      ghost msgs: seq<Message>, ghost cfg: ImageConfig)
    requires ac.slim != null && ac.messages == msgs && imgIdx == Positions(msgs, 0, |msgs|, true)
    requires keep == Keep(cfg) && maxRounds == MaxRounds(cfg)
    requires protectedFrom == if |imgIdx| >= keep then |imgIdx| - keep else 0
    requires maxRounds > 0 ==> forall i | 0 <= i < |msgs| && msgs[i].role == Tool ::
                                 i in age && age[i] == ImageAge(msgs, ac.slim.roundStart, cfg, i)
    requires maxRounds <= 0 ==> age == map[]
    modifies ac, ac.slim`imagesRemoved
    ensures ImagesSlimmed(msgs, ac.messages, ac.slim.roundStart, cfg)
    ensures ac.slim.imagesRemoved == old(ac.slim.imagesRemoved) + Going(msgs, ac.slim.roundStart, cfg, imgIdx)
  {
    hide ImageGoes, Slimmed, Positions, ImagesSlimmed, Keep, MaxRounds;
    var removed := 0;
    for n := 0 to |imgIdx|
      invariant ac.messages == SlimmedAt(msgs, ac.slim.roundStart, cfg, imgIdx[..n])
      invariant ac.slim.imagesRemoved == old(ac.slim.imagesRemoved)
      invariant removed == Going(msgs, ac.slim.roundStart, cfg, imgIdx[..n])
    {
      var i := imgIdx[n];
      GoesByRank(msgs, ac.slim.roundStart, cfg, n);
      PositionsDistinct(msgs, 0, |msgs|, true);
      SlimmedAtPointwise(msgs, ac.slim.roundStart, cfg, imgIdx[..n]);
      assert i !in imgIdx[..n];
      assert imgIdx[..n + 1][..n] == imgIdx[..n];
      if n >= protectedFrom {
        continue;
      }
      if maxRounds > 0 && age[i] < maxRounds {
        continue;
      }
      StripMessage(ac, i, keep, if i in age then age[i] else 0, msgs, cfg);
      removed := removed + 1;
    }
    assert imgIdx[..|imgIdx|] == imgIdx;
    SlimmedAtAll(msgs, ac.slim.roundStart, cfg);
    if removed > 0 {
      ac.slim.imagesRemoved := ac.slim.imagesRemoved + removed;
    }
  }

  /** The n-th image result goes when it is outside the kept tail and old enough. */
  lemma {:induction false} GoesByRank(msgs: seq<Message>, starts: seq<nat>, cfg: ImageConfig, n: nat)
    requires Keep(cfg) >= 0 && n < |Positions(msgs, 0, |msgs|, true)|
    ensures var i := Positions(msgs, 0, |msgs|, true)[n];
            ImageGoes(msgs, starts, cfg, i) <==>
              |Positions(msgs, 0, |msgs|, true)| - n - 1 >= Keep(cfg) &&
              (MaxRounds(cfg) <= 0 || ImageAge(msgs, starts, cfg, i) >= MaxRounds(cfg))
  {
    PositionRank(msgs, 0, |msgs|, true, n);
  }

  /** The messages once the listed positions were looked at. */
  ghost function SlimmedAt(msgs: seq<Message>, starts: seq<nat>, cfg: ImageConfig, ps: seq<nat>): (out: seq<Message>)
    requires forall n | 0 <= n < |ps| :: ps[n] < |msgs|
    ensures |out| == |msgs|
  {
    if ps == [] then msgs
    else
      var before := SlimmedAt(msgs, starts, cfg, ps[..|ps| - 1]);
      var i := ps[|ps| - 1];
      if ImageGoes(msgs, starts, cfg, i) then before[i := Slimmed(msgs, starts, cfg, i)] else before
  }

  lemma {:induction false} SlimmedAtPointwise(msgs: seq<Message>, starts: seq<nat>, cfg: ImageConfig, ps: seq<nat>)
    requires forall n | 0 <= n < |ps| :: ps[n] < |msgs|
    ensures forall i | 0 <= i < |msgs| :: SlimmedAt(msgs, starts, cfg, ps)[i] ==
              if i in ps then Slimmed(msgs, starts, cfg, i) else msgs[i]
  {
    if ps != [] {
      SlimmedAtPointwise(msgs, starts, cfg, ps[..|ps| - 1]);
      assert ps == ps[..|ps| - 1] + [ps[|ps| - 1]];
    }
  }

  lemma {:induction false} SlimmedAtAll(msgs: seq<Message>, starts: seq<nat>, cfg: ImageConfig)
    ensures ImagesSlimmed(msgs, SlimmedAt(msgs, starts, cfg, Positions(msgs, 0, |msgs|, true)), starts, cfg)
  {
    var ps := Positions(msgs, 0, |msgs|, true);
    SlimmedAtPointwise(msgs, starts, cfg, ps);
    forall i | 0 <= i < |msgs| ensures SlimmedAt(msgs, starts, cfg, ps)[i] == Slimmed(msgs, starts, cfg, i) {
      if ShowsImage(msgs[i]) { EveryPositionListed(msgs, 0, |msgs|, true, i); }
    }
  }

  method StripMessage(ac: AgentContext, i: nat, keep: nat, age: nat, ghost msgs: seq<Message>, ghost cfg: ImageConfig)
    requires ac.slim != null && i < |msgs| && |ac.messages| == |msgs|
    requires ac.messages[i] == msgs[i] && keep == Keep(cfg) && age == ImageAge(msgs, ac.slim.roundStart, cfg, i)
    requires ImageGoes(msgs, ac.slim.roundStart, cfg, i)
    requires forall j | 0 <= j < |msgs| ::
             ac.messages[j] == msgs[j] || ac.messages[j] == Slimmed(msgs, ac.slim.roundStart, cfg, j)
    modifies ac
    ensures ac.messages == old(ac.messages)[i := Slimmed(msgs, ac.slim.roundStart, cfg, i)]
  {
    var m := ac.messages[i];
    SlimmedCalls(msgs, ac.messages, ac.slim.roundStart, cfg);
    ToolNameDependsOnCalls(msgs, ac.messages, m.toolId);
    var content := StripImages(m.content, RemovedNote(ToolName(ac.messages, m.toolId), i, keep, age));
    ac.messages := ac.messages[i := m.(content := content)];
  }

  lemma {:induction false} NothingGoes(msgs: seq<Message>, starts: seq<nat>, cfg: ImageConfig, ps: seq<nat>)
    requires Keep(cfg) < 0 && forall n | 0 <= n < |ps| :: ps[n] < |msgs|
    ensures Going(msgs, starts, cfg, ps) == 0
  {
    if ps != [] { NothingGoes(msgs, starts, cfg, ps[..|ps| - 1]); }
  }

  lemma {:induction false} SlimmedCalls(was: seq<Message>, now: seq<Message>, starts: seq<nat>, cfg: ImageConfig)
    requires |was| == |now| && forall i | 0 <= i < |was| :: now[i] == was[i] || now[i] == Slimmed(was, starts, cfg, i)
    ensures forall i | 0 <= i < |was| :: now[i].role == was[i].role && now[i].calls == was[i].calls
  {
  }

  lemma {:induction false} PositionsDistinct(msgs: seq<Message>, lo: nat, hi: nat, images: bool)
    requires lo <= hi <= |msgs|
    ensures forall m, n | 0 <= m < n < |Positions(msgs, lo, hi, images)| ::
              Positions(msgs, lo, hi, images)[m] < Positions(msgs, lo, hi, images)[n]
    decreases hi
  {
    if lo < hi { PositionsDistinct(msgs, lo, hi - 1, images); }
  }

  /** What the pass promises the model: the newest `keep` screenshots stay as they are, and a
      message it rewrites no longer shows an image. */
  lemma {:induction false} NewestImagesStay(msgs: seq<Message>, starts: seq<nat>, cfg: ImageConfig, i: nat)
    requires i < |msgs| && Keep(cfg) >= 0
    ensures Behind(msgs, i, true) < Keep(cfg) ==> Slimmed(msgs, starts, cfg, i) == msgs[i]
    ensures Slimmed(msgs, starts, cfg, i) != msgs[i] ==> !ShowsImage(Slimmed(msgs, starts, cfg, i))
    ensures msgs[i].role == User ==> Slimmed(msgs, starts, cfg, i) == msgs[i]
  {
  }
}
