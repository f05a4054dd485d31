/** Slimming of tool results in place (agents/slim.go and agents/slim_text.go): duplicate reads and
    reruns are replaced by references, superseded reads are folded, old large results are blanked. */
module Slim {
  import opened Messages
  import opened Context
  import opened References
  import Strings

  predicate IsRead(r: Result) {
    r.call.name == "read_file" && r.argPath != ""
  }

  predicate Folds(cfg: SlimConfig, r: Result) {
    r.call.name == "read_file" && cfg.readFold && FoldPath(r) != ""
  }

  predicate Edits(r: Result) {
    (r.call.name == "write_file" || r.call.name == "edit_file") && r.argPath != ""
  }

  predicate Reruns(cfg: SlimConfig, r: Result) {
    (r.call.name == "bash" && cfg.bashRerunDedup) ||
    ((r.call.name == "grep" || r.call.name == "glob") && cfg.searchRerunDedup)
  }

  function RerunKey(r: Result): Key { (r.call.name, r.call.args) }

  function FoldPath(r: Result): string {
    if r.headerPath == "" then r.argPath else r.headerPath
  }

  function FoldRange(r: Result): Option<Range> {
    if r.headerPath == "" then None else r.range
  }

  // ---- what the history of results says --------------------------------------------------------

  /** The last read of the path, found by scanning back. */
  ghost function LastRead(log: seq<Entry>, path: string): Option<SlimRead> {
    if log == [] then None
    else
      var e := log[|log| - 1];
      if IsRead(e.result) && e.result.argPath == path then Some(SlimRead(e.index, e.result.text))
      else LastRead(log[..|log| - 1], path)
  }

  /** The last run of the call, found by scanning back. */
  ghost function LastRerun(cfg: SlimConfig, log: seq<Entry>, key: Key): Option<RerunRef> {
    if log == [] then None
    else
      var e := log[|log| - 1];
      if Reruns(cfg, e.result) && RerunKey(e.result) == key then Some(RerunRef(e.index, e.result.text))
      else LastRerun(cfg, log[..|log| - 1], key)
  }

  /** How often the file was edited. */
  ghost function EditsOf(log: seq<Entry>, path: string): nat {
    if log == [] then 0
    else
      var r := log[|log| - 1].result;
      EditsOf(log[..|log| - 1], path) + if Edits(r) && r.argPath == path then 1 else 0
  }

  function Counted(st: EditStat, stats: Option<(nat, nat)>): EditStat {
    match stats
    case Some(n) => EditStat(st.count + 1, st.added + n.0, st.removed + n.1, true)
    case None => st.(count := st.count + 1)
  }

  /** The edits of the file, added up. */
  ghost function StatOf(log: seq<Entry>, path: string): EditStat {
    if log == [] then EditStat(0, 0, 0, false)
    else
      var r := log[|log| - 1].result;
      var before := StatOf(log[..|log| - 1], path);
      if Edits(r) && r.argPath == path then Counted(before, r.stats) else before
  }

  /** The reads of the file, oldest first, each folded by those behind it. */
  ghost function AnchorsOf(cfg: SlimConfig, log: seq<Entry>, path: string): seq<ReadAnchor> {
    if log == [] then []
    else
      var e := log[|log| - 1];
      var before := AnchorsOf(cfg, log[..|log| - 1], path);
      if Folds(cfg, e.result) && FoldPath(e.result) == path then
        ReadAgain(before, FoldRange(e.result), EditsOf(log[..|log| - 1], path), e.index)
      else before
  }

  // ---- the invariant between resets -------------------------------------------------------

  /** Every entry names the tool message its result became. */
  ghost predicate NamesMessages(msgs: seq<Message>, log: seq<Entry>) {
    && (forall i | 0 <= i < |log| :: log[i].index < |msgs| && msgs[log[i].index].role == Tool &&
                                     msgs[log[i].index].toolId == log[i].result.call.id)
    && Increasing(log)
  }

  ghost predicate Increasing(log: seq<Entry>) {
    forall i, j | 0 <= i < j < |log| :: log[i].index < log[j].index
  }

  function Anchors(anchors: map<string, seq<ReadAnchor>>, path: string): seq<ReadAnchor> {
    if path in anchors then anchors[path] else []
  }

  function Gen(editGen: map<string, nat>, path: string): nat {
    if path in editGen then editGen[path] else 0
  }

  function Stat(edits: map<string, EditStat>, path: string): EditStat {
    if path in edits then edits[path] else EditStat(0, 0, 0, false)
  }

  ghost predicate ReadsScanBack(readIndex: map<string, SlimRead>, log: seq<Entry>) {
    forall p {:trigger p in readIndex} {:trigger LastRead(log, p)} ::
      LastRead(log, p) == if p in readIndex then Some(readIndex[p]) else None
  }

  ghost predicate RerunsScanBack(cfg: SlimConfig, rerunIndex: map<Key, RerunRef>, log: seq<Entry>) {
    forall k {:trigger k in rerunIndex} {:trigger LastRerun(cfg, log, k)} ::
      LastRerun(cfg, log, k) == if k in rerunIndex then Some(rerunIndex[k]) else None
  }

  ghost predicate AnchorsScanBack(cfg: SlimConfig, readAnchors: map<string, seq<ReadAnchor>>, log: seq<Entry>) {
    forall p :: Anchors(readAnchors, p) == AnchorsOf(cfg, log, p)
  }

  ghost predicate EditsScanBack(editGen: map<string, nat>, edits: map<string, EditStat>, log: seq<Entry>) {
    forall p :: Gen(editGen, p) == EditsOf(log, p) && Stat(edits, p) == StatOf(log, p)
  }

  /** The index maps are what scanning the history back would find. */
  ghost predicate ScansBack(s: SlimState, log: seq<Entry>)
    reads s
  {
    && ReadsScanBack(s.readIndex, log) && RerunsScanBack(s.cfg, s.rerunIndex, log)
    && AnchorsScanBack(s.cfg, s.readAnchors, log) && EditsScanBack(s.editGen, s.edits, log)
  }

  predicate Covers(newer: Option<Range>, older: Option<Range>) {
    newer.Some? && older.Some? && newer.value.start <= older.value.start && newer.value.end >= older.value.end
  }

  /** A folded anchor whose file was not edited since is covered by a later unfolded one. */
  ghost predicate CoveredLater(anchors: seq<ReadAnchor>, i: nat)
    requires i < |anchors|
  {
    exists j :: i < j < |anchors| && !anchors[j].folded && Covers(anchors[j].rng, anchors[i].rng)
  }

  ghost predicate NoLiveRangeLost(anchors: seq<ReadAnchor>, gen: nat) {
    forall i | 0 <= i < |anchors| && anchors[i].folded && anchors[i].gen == gen :: CoveredLater(anchors, i)
  }

  ghost predicate AnchorsOrdered(anchors: seq<ReadAnchor>, gen: nat) {
    && (forall i, j | 0 <= i < j < |anchors| :: anchors[i].index < anchors[j].index && anchors[i].gen <= anchors[j].gen)
    && (forall i | 0 <= i < |anchors| :: anchors[i].gen <= gen)
  }

  ghost predicate RoundsOk(msgs: seq<Message>, starts: seq<nat>) {
    && (forall i, j | 0 <= i < j < |starts| :: starts[i] <= starts[j])
    && (forall i | 0 <= i < |starts| :: starts[i] <= |msgs|)
  }

  ghost predicate SlimOk(msgs: seq<Message>, s: SlimState)
    reads s
  {
    NamesMessages(msgs, s.log) && ScansBack(s, s.log) && RoundsOk(msgs, s.roundStart)
  }

  lemma {:induction false} LastReadIsEntry(log: seq<Entry>, path: string)
    requires LastRead(log, path).Some?
    ensures exists i :: 0 <= i < |log| && log[i].index == LastRead(log, path).value.index
  {
    var n := |log| - 1;
    if !(IsRead(log[n].result) && log[n].result.argPath == path) {
      LastReadIsEntry(log[..n], path);
      var i :| 0 <= i < n && log[..n][i].index == LastRead(log, path).value.index;
      assert log[i] == log[..n][i];
    }
  }

  lemma {:induction false} LastRerunIsEntry(cfg: SlimConfig, log: seq<Entry>, key: Key)
    requires LastRerun(cfg, log, key).Some?
    ensures exists i :: 0 <= i < |log| && log[i].index == LastRerun(cfg, log, key).value.index
  {
    var n := |log| - 1;
    if !(Reruns(cfg, log[n].result) && RerunKey(log[n].result) == key) {
      LastRerunIsEntry(cfg, log[..n], key);
      var i :| 0 <= i < n && log[..n][i].index == LastRerun(cfg, log, key).value.index;
      assert log[i] == log[..n][i];
    }
  }

  lemma {:induction false} AnchorIsEntry(cfg: SlimConfig, log: seq<Entry>, path: string, i: nat)
    requires i < |AnchorsOf(cfg, log, path)|
    ensures exists k :: 0 <= k < |log| && log[k].index == AnchorsOf(cfg, log, path)[i].index
  {
    var n := |log| - 1;
    var before := AnchorsOf(cfg, log[..n], path);
    if i < |before| {
      AnchorIsEntry(cfg, log[..n], path, i);
      var k :| 0 <= k < n && log[..n][k].index == before[i].index;
      assert log[k] == log[..n][k];
    }
  }

  /** What holds of the anchors of a file after any history: they stand in reading order, and no
      live range is lost. */
  lemma {:induction false} FoldingLosesNothing(cfg: SlimConfig, log: seq<Entry>, path: string)
    requires Increasing(log)
    ensures AnchorsOrdered(AnchorsOf(cfg, log, path), EditsOf(log, path))
    ensures NoLiveRangeLost(AnchorsOf(cfg, log, path), EditsOf(log, path))
  {
    if log != [] {
      var n := |log| - 1;
      var before := AnchorsOf(cfg, log[..n], path);
      FoldingLosesNothing(cfg, log[..n], path);
      forall i | 0 <= i < |before| ensures before[i].index < log[n].index {
        AnchorIsEntry(cfg, log[..n], path, i);
      }
      FoldLosesNothing(before, FoldRange(log[n].result), EditsOf(log[..n], path), log[n].index);
    }
  }

  // ---- what stays visible of a file, line by line ---------------------------------------------------

  predicate Shows(rng: Option<Range>, n: int) { rng.Some? && rng.value.start <= n <= rng.value.end }

  /** Both say which lines they show, and every line of the older is one of the newer. */
  ghost predicate ShowsAll(newer: Option<Range>, older: Option<Range>) {
    newer.Some? && older.Some? && forall n :: Shows(older, n) ==> Shows(newer, n)
  }

  /** The range is unknown, or it has a line. */
  predicate Proper(rng: Option<Range>) { rng.Some? ==> rng.value.start <= rng.value.end }

  lemma {:induction false} CoversLines(newer: Option<Range>, older: Option<Range>)
    ensures Covers(newer, older) ==> ShowsAll(newer, older)
    ensures Proper(older) ==> (Covers(newer, older) <==> ShowsAll(newer, older))
  {
    if Proper(older) && ShowsAll(newer, older) {
      assert Shows(older, older.value.start) && Shows(older, older.value.end);
    }
  }

  ghost predicate LinesStay(anchors: seq<ReadAnchor>, i: nat)
    requires i < |anchors|
  {
    exists j :: i < j < |anchors| && !anchors[j].folded && ShowsAll(anchors[j].rng, anchors[i].rng)
  }

  /** Every line of a folded read whose file was not edited since is shown by a later read that stands. */
  lemma {:induction false} FoldedLinesStay(cfg: SlimConfig, log: seq<Entry>, path: string)
    requires Increasing(log)
    ensures var anchors := AnchorsOf(cfg, log, path);
            forall i | 0 <= i < |anchors| && anchors[i].folded && anchors[i].gen == EditsOf(log, path) ::
              LinesStay(anchors, i)
  {
    FoldingLosesNothing(cfg, log, path);
    var anchors := AnchorsOf(cfg, log, path);
    forall i | 0 <= i < |anchors| && anchors[i].folded && anchors[i].gen == EditsOf(log, path)
      ensures LinesStay(anchors, i)
    {
      assert CoveredLater(anchors, i);
      var j :| i < j < |anchors| && !anchors[j].folded && Covers(anchors[j].rng, anchors[i].rng);
      CoversLines(anchors[j].rng, anchors[i].rng);
    }
  }

  /** One more read adds its anchor and folds those whose file was edited since or whose lines it all shows. */
  ghost predicate FoldsShown(was: seq<ReadAnchor>, now: seq<ReadAnchor>, rng: Option<Range>, gen: nat, newIdx: nat) {
    && |now| == |was| + 1 && now[|was|] == ReadAnchor(newIdx, rng, gen, false)
    && (forall i | 0 <= i < |was| :: now[i].(folded := was[i].folded) == was[i])
    && (forall i | 0 <= i < |was| && was[i].index != newIdx && Proper(was[i].rng) ::
          now[i].folded <==> was[i].folded || was[i].gen < gen || ShowsAll(rng, was[i].rng))
  }

  lemma {:induction false} ReadFoldsShown(was: seq<ReadAnchor>, rng: Option<Range>, gen: nat, newIdx: nat)
    ensures FoldsShown(was, ReadAgain(was, rng, gen, newIdx), rng, gen, newIdx)
  {
    hide Covers, ShowsAll;
    forall i | 0 <= i < |was| && Proper(was[i].rng) ensures Covers(rng, was[i].rng) <==> ShowsAll(rng, was[i].rng) {
      CoversLines(rng, was[i].rng);
    }
  }

  /** A slimming pass may rewrite what a tool result says, and nothing else. */
  ghost predicate OnlyTextChanged(m: Message, n: Message) {
    SameShape(m, n) && (WellFormed(m) ==> WellFormed(n)) && (m.role != Tool ==> m == n)
  }

  ghost predicate SameShapes(a: seq<Message>, b: seq<Message>) {
    |a| == |b| && forall i | 0 <= i < |a| :: OnlyTextChanged(a[i], b[i])
  }

  lemma {:induction false} SameShapesKeepSlim(a: seq<Message>, b: seq<Message>, s: SlimState)
    requires SlimOk(a, s) && SameShapes(a, b)
    ensures SlimOk(b, s)
  {
    NamesKept(a, b, s.log);
  }

  /** Appending keeps them too: indices never move between resets. */
  lemma {:induction false} AppendKeepsSlim(a: seq<Message>, b: seq<Message>, s: SlimState)
    requires SlimOk(a, s)
    ensures SlimOk(a + b, s)
  {
  }

  // ---- duplicate results ----------------------------------------------------------------------

  function DuplicateReadText(newIdx: nat): Text {
    [Lit(SLIM_PREFIX + "same content as message "), Ref(newIdx), Lit(", deduplicated]")]
  }

  function RerunText(newIdx: nat): Text {
    [Lit(SLIM_PREFIX + "repeated call, result identical to message "), Ref(newIdx), Lit("]")]
  }

  function Replaced(msgs: seq<Message>, i: nat, t: Text): seq<Message>
    requires i < |msgs|
  {
    msgs[i := ToolMessage(msgs[i].toolId, t)]
  }

  /** What recordRead makes of the earlier messages, said by scanning the history back. */
  ghost function DedupedReads(msgs: seq<Message>, log: seq<Entry>, cfg: SlimConfig, r: Result,
                              newIdx: nat): (out: seq<Message>)
    ensures |out| == |msgs|
  {
    match LastRead(log, r.argPath)
    case Some(prev) =>
      if prev.text == r.text && Length(r.text) >= cfg.dedupMinBytes && prev.index < |msgs| then
        Replaced(msgs, prev.index, DuplicateReadText(newIdx))
      else msgs
    case None => msgs
  }

  /** recordRead: an earlier result of the same path with the same text becomes a reference. */
  method RecordRead(ac: AgentContext, r: Result, newIdx: nat)
    requires ac.slim != null && ReadsScanBack(ac.slim.readIndex, ac.slim.log)
    requires forall p | p in ac.slim.readIndex :: ac.slim.readIndex[p].index < |ac.messages|
    modifies ac, ac.slim`readIndex
    ensures ac.slim.readIndex == if IsRead(r) then old(ac.slim.readIndex)[r.argPath := SlimRead(newIdx, r.text)]
            else old(ac.slim.readIndex)
    ensures ac.messages == if IsRead(r) then DedupedReads(old(ac.messages), ac.slim.log, ac.slim.cfg, r, newIdx)
            else old(ac.messages)
  {
    if r.call.name != "read_file" {
      return;
    }
    var path := r.argPath;
    if path == "" {
      return;
    }
    var s := ac.slim;
    if path in s.readIndex && s.readIndex[path].text == r.text && Length(r.text) >= s.cfg.dedupMinBytes {
      ac.messages := Replaced(ac.messages, s.readIndex[path].index, DuplicateReadText(newIdx));
    }
    s.readIndex := s.readIndex[path := SlimRead(newIdx, r.text)];
  }

  /** What dedupRerun makes of the earlier messages, said by scanning the history back. */
  ghost function DedupedReruns(msgs: seq<Message>, cfg: SlimConfig, log: seq<Entry>, r: Result,
                               newIdx: nat): (out: seq<Message>)
    ensures |out| == |msgs|
  {
    match LastRerun(cfg, log, RerunKey(r))
    case Some(prev) =>
      if prev.index != newIdx && prev.text == r.text && prev.index < |msgs| && msgs[prev.index].role == Tool then
        Replaced(msgs, prev.index, RerunText(newIdx))
      else msgs
    case None => msgs
  }

  /** dedupRerun: an earlier run of the same call with the same output becomes a reference. */
  method DedupRerun(ac: AgentContext, r: Result, newIdx: nat)
    requires ac.slim != null && RerunsScanBack(ac.slim.cfg, ac.slim.rerunIndex, ac.slim.log)
    modifies ac, ac.slim`rerunIndex
    ensures ac.slim.rerunIndex == old(ac.slim.rerunIndex)[RerunKey(r) := RerunRef(newIdx, r.text)]
    ensures ac.messages == DedupedReruns(old(ac.messages), ac.slim.cfg, ac.slim.log, r, newIdx)
  {
    var s := ac.slim;
    var key := RerunKey(r);
    var known := key in s.rerunIndex;
    var prev := if known then s.rerunIndex[key] else RerunRef(0, []);
    s.rerunIndex := s.rerunIndex[key := RerunRef(newIdx, r.text)];
    if !known || prev.index == newIdx {
      return;
    }
    if prev.text != r.text {
      return;
    }
    if 0 <= prev.index < |ac.messages| && ac.messages[prev.index].role == Tool {
      ac.messages := Replaced(ac.messages, prev.index, RerunText(newIdx));
    }
  }

  // ---- folding superseded reads -----------------------------------------------------------------

  function RangeText(r: Option<Range>): string {
    if r.None? then "" else " L" + Int(r.value.start) + "-L" + Int(r.value.end)
  }

  function Int(n: int): string { if n < 0 then "-" + Strings.Decimal(-n) else Strings.Decimal(n) }

  function FoldText(path: string, rng: Option<Range>, st: EditStat, newIdx: nat, superseded: bool): Text {
    var edits := if st.count == 0 then "" else
                   ": edited " + Strings.Decimal(st.count) + " times" +
                   if st.statsKnown then " (+" + Strings.Decimal(st.added) + " -" + Strings.Decimal(st.removed) + ")"
                      else "";
    [Lit(SLIM_PREFIX + "read_file ")] + Cut(path) +
    [Lit(RangeText(rng) + " folded" + edits + (if superseded then ", covered by the newest read"
                                               else "") + ", see message "),
     Ref(newIdx), Lit("]")]
  }

  /** The anchor gives way to the read at newIdx: it is covered, or its file was edited since. */
  predicate GivesWay(a: ReadAnchor, newer: Option<Range>, gen: nat, newIdx: nat) {
    a.index != newIdx && !a.folded && (Covers(newer, a.rng) || a.gen < gen)
  }

  function FoldAnchor(a: ReadAnchor, newer: Option<Range>, gen: nat, newIdx: nat): ReadAnchor {
    if GivesWay(a, newer, gen, newIdx) then a.(folded := true) else a
  }

  function Marked(anchors: seq<ReadAnchor>, index: nat): seq<ReadAnchor> {
    if anchors == [] then []
    else if anchors[0].index == index then [anchors[0].(folded := true)] + anchors[1..]
    else [anchors[0]] + Marked(anchors[1..], index)
  }

  lemma {:induction false} MarkedFirst(anchors: seq<ReadAnchor>, i: nat)
    requires i < |anchors| && forall j | 0 <= j < i :: anchors[j].index != anchors[i].index
    ensures Marked(anchors, anchors[i].index) == anchors[i := anchors[i].(folded := true)]
  {
    if i == 0 {
      assert anchors == [anchors[0]] + anchors[1..];
    } else {
      MarkedFirst(anchors[1..], i - 1);
      assert anchors[i := anchors[i].(folded := true)] ==
             [anchors[0]] + anchors[1..][i - 1 := anchors[i].(folded := true)];
    }
  }

  lemma {:induction false} MarkedNone(anchors: seq<ReadAnchor>, index: nat)
    requires forall j | 0 <= j < |anchors| :: anchors[j].index != index
    ensures Marked(anchors, index) == anchors
  {
    if anchors != [] { MarkedNone(anchors[1..], index); }
  }

  /** markFolded: the first anchor of that index. */
  method MarkFolded(s: SlimState, path: string, index: nat)
    requires path in s.readAnchors
    modifies s`readAnchors
    ensures s.readAnchors == old(s.readAnchors)[path := Marked(old(s.readAnchors)[path], index)]
  {
    var anchors := s.readAnchors[path];
    for i := 0 to |anchors|
      invariant s.readAnchors == old(s.readAnchors)
      invariant forall j | 0 <= j < i :: anchors[j].index != index
    {
      if anchors[i].index == index {
        s.readAnchors := s.readAnchors[path := anchors[i := anchors[i].(folded := true)]];
        MarkedFirst(anchors, i);
        return;
      }
    }
    MarkedNone(anchors, index);
    assert s.readAnchors == s.readAnchors[path := anchors];
  }

  /** The message of a folded anchor after the read at newIdx. */
  function FoldedMessage(m: Message, r: Result, a: ReadAnchor, st: EditStat, newIdx: nat): Message {
    ToolMessage(m.toolId, FoldText(FoldPath(r), a.rng, st, newIdx, Covers(FoldRange(r), a.rng)))
  }

  ghost predicate AnchorsName(msgs: seq<Message>, anchors: seq<ReadAnchor>) {
    && (forall i | 0 <= i < |anchors| :: anchors[i].index < |msgs| && msgs[anchors[i].index].role == Tool)
    && (forall i, j | 0 <= i < j < |anchors| :: anchors[i].index < anchors[j].index)
  }

  /** The messages once the first n anchors were looked at. */
  ghost function FoldMessages(msgs: seq<Message>, r: Result, anchors: seq<ReadAnchor>, gen: nat, st: EditStat,
                              newIdx: nat, n: nat): (out: seq<Message>)
    requires n <= |anchors|
    ensures |out| == |msgs|
  {
    if n == 0 then msgs
    else
      var before := FoldMessages(msgs, r, anchors, gen, st, newIdx, n - 1);
      var a := anchors[n - 1];
      if GivesWay(a, FoldRange(r), gen, newIdx) && a.index < |before| && before[a.index].role == Tool then
        before[a.index := FoldedMessage(before[a.index], r, a, st, newIdx)]
      else before
  }

  /** Exactly the messages of the anchors that give way are rewritten. */
  lemma {:induction false} FoldedExactly(msgs: seq<Message>, r: Result, anchors: seq<ReadAnchor>, gen: nat,
                                         st: EditStat, newIdx: nat, n: nat, k: nat)
    requires AnchorsName(msgs, anchors) && n <= |anchors| && k < |msgs|
    ensures var out := FoldMessages(msgs, r, anchors, gen, st, newIdx, n);
            && ((forall i | 0 <= i < n && GivesWay(anchors[i], FoldRange(r), gen, newIdx) :: anchors[i].index != k) ==>
                out[k] == msgs[k])
            && (forall i | 0 <= i < n && GivesWay(anchors[i], FoldRange(r), gen, newIdx) && anchors[i].index == k ::
                  out[k] == FoldedMessage(msgs[k], r, anchors[i], st, newIdx))
  {
    hide GivesWay, FoldedMessage;
    if n > 0 { FoldedExactly(msgs, r, anchors, gen, st, newIdx, n - 1, k); }
  }

  ghost function FoldAnchors(anchors: seq<ReadAnchor>, rng: Option<Range>, gen: nat, newIdx: nat,
                             n: nat): (out: seq<ReadAnchor>)
    requires n <= |anchors|
    ensures |out| == |anchors|
    ensures forall i | 0 <= i < |anchors| :: out[i] == if i < n then FoldAnchor(anchors[i], rng, gen, newIdx)
            else anchors[i]
  {
    seq(|anchors|, i requires 0 <= i < |anchors| => if i < n then FoldAnchor(anchors[i], rng, gen, newIdx)
        else anchors[i])
  }

  /** The anchors of a file after one more read of it. */
  ghost function ReadAgain(anchors: seq<ReadAnchor>, rng: Option<Range>, gen: nat, newIdx: nat): seq<ReadAnchor> {
    FoldAnchors(anchors, rng, gen, newIdx, |anchors|) + [ReadAnchor(newIdx, rng, gen, false)]
  }

  /** foldRead: earlier reads of the file that the new one covers, or that an edit outdated,
      become a summary pointing to the new message; the new read is recorded as an anchor. */
  method FoldRead(ac: AgentContext, r: Result, newIdx: nat)
    requires ac.slim != null
    requires AnchorsName(ac.messages, Anchors(ac.slim.readAnchors, FoldPath(r)))
    modifies ac, ac.slim`readAnchors
    ensures FoldPath(r) == "" ==> ac.messages == old(ac.messages) && ac.slim.readAnchors == old(ac.slim.readAnchors)
    ensures FoldPath(r) != "" ==>
              var path, rng := FoldPath(r), FoldRange(r);
              var gen := Gen(ac.slim.editGen, path);
              var was := Anchors(old(ac.slim.readAnchors), path);
              && (forall p | p != path :: Anchors(ac.slim.readAnchors, p) == Anchors(old(ac.slim.readAnchors), p))
              && Anchors(ac.slim.readAnchors, path) == ReadAgain(was, rng, gen, newIdx)
              && FoldsShown(was, Anchors(ac.slim.readAnchors, path), rng, gen, newIdx)
              && ac.messages == FoldMessages(old(ac.messages), r, was, gen, Stat(ac.slim.edits, path), newIdx, |was|)
  {
    hide FoldsShown;
    var path, rng := FoldPath(r), FoldRange(r);
    if path == "" {
      return;
    }
    var s := ac.slim;
    var gen := Gen(s.editGen, path);
    var st := Stat(s.edits, path);
    if path !in s.readAnchors {
      s.readAnchors := s.readAnchors[path := []];
    }
    ghost var was := s.readAnchors[path];
    ghost var msgs := ac.messages;
    assert was == Anchors(old(ac.slim.readAnchors), path);
    for i := 0 to |s.readAnchors[path]|
      invariant path in s.readAnchors && s.readAnchors[path] == FoldAnchors(was, rng, gen, newIdx, i)
      invariant forall p | p != path :: Anchors(s.readAnchors, p) == Anchors(old(ac.slim.readAnchors), p)
      invariant ac.messages == FoldMessages(msgs, r, was, gen, st, newIdx, i)
    {
      FoldOne(ac, r, path, gen, st, newIdx, i, was, msgs);
    }
    s.readAnchors := s.readAnchors[path := s.readAnchors[path] + [ReadAnchor(newIdx, rng, gen, false)]];
    ReadFoldsShown(was, rng, gen, newIdx);
  }

  /** One turn of foldRead's loop. */
  method FoldOne(ac: AgentContext, r: Result, path: string, gen: nat, st: EditStat, newIdx: nat, i: nat,
                 ghost was: seq<ReadAnchor>, ghost msgs: seq<Message>)
    requires ac.slim != null && path == FoldPath(r) && path in ac.slim.readAnchors && AnchorsName(msgs, was) &&
             i < |was|
    requires ac.slim.readAnchors[path] == FoldAnchors(was, FoldRange(r), gen, newIdx, i)
    requires ac.messages == FoldMessages(msgs, r, was, gen, st, newIdx, i)
    modifies ac, ac.slim`readAnchors
    ensures path in ac.slim.readAnchors &&
            ac.slim.readAnchors[path] == FoldAnchors(was, FoldRange(r), gen, newIdx, i + 1)
    ensures forall p | p != path :: Anchors(ac.slim.readAnchors, p) == Anchors(old(ac.slim.readAnchors), p)
    ensures ac.messages == FoldMessages(msgs, r, was, gen, st, newIdx, i + 1)
  {
    var s := ac.slim;
    var a := s.readAnchors[path][i];
    ghost var done := s.readAnchors[path];
    FoldedExactly(msgs, r, was, gen, st, newIdx, i, was[i].index);
    assert a == was[i] && ac.messages[a.index] == msgs[a.index];
    assert FoldAnchors(was, FoldRange(r), gen, newIdx, i + 1) == done[i := FoldAnchor(a, FoldRange(r), gen, newIdx)];
    if a.index == newIdx || a.folded {
      return;
    }
    var superseded := Covers(FoldRange(r), a.rng);
    var invalidated := a.gen < gen;
    if !superseded && !invalidated {
      return;
    }
    if 0 <= a.index < |ac.messages| {
      var m := ac.messages[a.index];
      if m.role == Tool {
        ac.messages := ac.messages[a.index := ToolMessage(m.toolId, FoldText(path, a.rng, st, newIdx, superseded))];
        MarkedFirst(done, i);
        MarkFolded(s, path, a.index);
      }
    }
  }

  /** noteEdit: one more edit of the file; reads taken before it are outdated from now on. */
  method NoteEdit(s: SlimState, path: string, stats: Option<(nat, nat)>)
    modifies s`edits, s`editGen
    ensures path == "" ==> s.edits == old(s.edits) && s.editGen == old(s.editGen)
    ensures path != "" ==>
              && s.editGen == old(s.editGen)[path := Gen(old(s.editGen), path) + 1]
              && s.edits == old(s.edits)[path := Counted(Stat(old(s.edits), path), stats)]
  {
    if path == "" {
      return;
    }
    var st := Stat(s.edits, path);
    st := st.(count := st.count + 1);
    if stats.Some? {
      st := st.(added := st.added + stats.value.0, removed := st.removed + stats.value.1, statsKnown := true);
    }
    s.editGen := s.editGen[path := Gen(s.editGen, path) + 1];
    s.edits := s.edits[path := st];
  }

  // ---- one result enters the context -----------------------------------------------------------

  /** The fold or rerun replacement one result causes. */
  ghost function FoldedBy(msgs: seq<Message>, cfg: SlimConfig, log: seq<Entry>, r: Result): (out: seq<Message>)
    ensures |out| == |msgs|
  {
    var anchors := AnchorsOf(cfg, log, FoldPath(r));
    if Folds(cfg, r) then
      FoldMessages(msgs, r, anchors, EditsOf(log, FoldPath(r)), StatOf(log, FoldPath(r)), |msgs|, |anchors|)
    else if Reruns(cfg, r) then DedupedReruns(msgs, cfg, log, r, |msgs|)
    else msgs
  }

  /** What one result makes of the messages before it, from their history alone: fold or rerun
      replacement, then duplicate reads. */
  ghost function SlimmedBy(msgs: seq<Message>, cfg: SlimConfig, log: seq<Entry>, r: Result): (out: seq<Message>)
    ensures |out| == |msgs|
  {
    var folded := FoldedBy(msgs, cfg, log, r);
    if IsRead(r) then DedupedReads(folded, log, cfg, r, |msgs|) else folded
  }

  lemma {:induction false} AnchorsNameMessages(msgs: seq<Message>, cfg: SlimConfig, log: seq<Entry>, path: string)
    requires NamesMessages(msgs, log)
    ensures AnchorsName(msgs, AnchorsOf(cfg, log, path))
  {
    var anchors := AnchorsOf(cfg, log, path);
    FoldingLosesNothing(cfg, log, path);
    forall i | 0 <= i < |anchors| ensures anchors[i].index < |msgs| && msgs[anchors[i].index].role == Tool {
      AnchorIsEntry(cfg, log, path, i);
    }
  }

  lemma {:induction false} IndicesInRange(msgs: seq<Message>, s: SlimState)
    requires NamesMessages(msgs, s.log) && ScansBack(s, s.log)
    ensures forall p | p in s.readIndex :: s.readIndex[p].index < |msgs| && msgs[s.readIndex[p].index].role == Tool
    ensures forall k | k in s.rerunIndex :: s.rerunIndex[k].index < |msgs| && msgs[s.rerunIndex[k].index].role == Tool
  {
    forall p | p in s.readIndex ensures s.readIndex[p].index < |msgs| && msgs[s.readIndex[p].index].role == Tool {
      LastReadIsEntry(s.log, p);
    }
    forall k | k in s.rerunIndex ensures s.rerunIndex[k].index < |msgs| && msgs[s.rerunIndex[k].index].role == Tool {
      LastRerunIsEntry(s.cfg, s.log, k);
    }
  }

  lemma {:induction false} SameAsItself(msgs: seq<Message>)
    ensures SameShapes(msgs, msgs)
  {
  }

  lemma {:induction false} ReplacedKeepsShapes(msgs: seq<Message>, i: nat, t: Text)
    requires i < |msgs| && msgs[i].role == Tool
    ensures SameShapes(msgs, Replaced(msgs, i, t))
  {
  }

  lemma {:induction false} SameShapesCompose(a: seq<Message>, b: seq<Message>, c: seq<Message>)
    requires SameShapes(a, b) && SameShapes(b, c)
    ensures SameShapes(a, c)
  {
    forall i | 0 <= i < |a| ensures OnlyTextChanged(a[i], c[i]) {
      assert OnlyTextChanged(a[i], b[i]) && OnlyTextChanged(b[i], c[i]);
    }
  }

  lemma {:induction false} DedupedReadsKeepShapes(msgs: seq<Message>, log: seq<Entry>, cfg: SlimConfig, r: Result,
                                                  newIdx: nat)
    requires NamesMessages(msgs, log)
    ensures SameShapes(msgs, DedupedReads(msgs, log, cfg, r, newIdx))
  {
    if LastRead(log, r.argPath).Some? {
      LastReadIsEntry(log, r.argPath);
      ReplacedKeepsShapes(msgs, LastRead(log, r.argPath).value.index, DuplicateReadText(newIdx));
    }
  }

  lemma {:induction false} DedupedRerunsKeepShapes(msgs: seq<Message>, cfg: SlimConfig, log: seq<Entry>, r: Result,
                                                   newIdx: nat)
    requires NamesMessages(msgs, log)
    ensures SameShapes(msgs, DedupedReruns(msgs, cfg, log, r, newIdx))
  {
    if LastRerun(cfg, log, RerunKey(r)).Some? {
      LastRerunIsEntry(cfg, log, RerunKey(r));
      ReplacedKeepsShapes(msgs, LastRerun(cfg, log, RerunKey(r)).value.index, RerunText(newIdx));
    }
  }

  lemma {:induction false} NamesKept(a: seq<Message>, b: seq<Message>, log: seq<Entry>)
    requires NamesMessages(a, log) && SameShapes(a, b)
    ensures NamesMessages(b, log)
  {
    forall i | 0 <= i < |log|
      ensures log[i].index < |b| && b[log[i].index].role == Tool && b[log[i].index].toolId == log[i].result.call.id
    {
      assert OnlyTextChanged(a[log[i].index], b[log[i].index]);
    }
  }

  /** No replacement changes a role, a call or a result id. */
  lemma {:induction false} SlimmedKeepsShapes(msgs: seq<Message>, cfg: SlimConfig, log: seq<Entry>, r: Result)
    requires NamesMessages(msgs, log)
    ensures SameShapes(msgs, SlimmedBy(msgs, cfg, log, r))
  {
    var folded := FoldedBy(msgs, cfg, log, r);
    if Folds(cfg, r) {
      var anchors := AnchorsOf(cfg, log, FoldPath(r));
      FoldKeepsShapes(msgs, r, anchors, EditsOf(log, FoldPath(r)), StatOf(log, FoldPath(r)), |msgs|, |anchors|);
    } else if Reruns(cfg, r) {
      DedupedRerunsKeepShapes(msgs, cfg, log, r, |msgs|);
    }
    if IsRead(r) {
      NamesKept(msgs, folded, log);
      DedupedReadsKeepShapes(folded, log, cfg, r, |msgs|);
      SameShapesCompose(msgs, folded, DedupedReads(folded, log, cfg, r, |msgs|));
    }
  }

  lemma {:induction false} FoldKeepsShapes(msgs: seq<Message>, r: Result, anchors: seq<ReadAnchor>, gen: nat,
                                           st: EditStat, newIdx: nat, n: nat)
    requires n <= |anchors|
    ensures SameShapes(msgs, FoldMessages(msgs, r, anchors, gen, st, newIdx, n))
  {
    hide FoldText, GivesWay, SameShapes, Covers;
    if n > 0 {
      FoldKeepsShapes(msgs, r, anchors, gen, st, newIdx, n - 1);
      var before := FoldMessages(msgs, r, anchors, gen, st, newIdx, n - 1);
      var a := anchors[n - 1];
      if GivesWay(a, FoldRange(r), gen, newIdx) && a.index < |before| && before[a.index].role == Tool {
        var t := FoldText(FoldPath(r), a.rng, st, newIdx, Covers(FoldRange(r), a.rng));
        assert FoldMessages(msgs, r, anchors, gen, st, newIdx, n) == Replaced(before, a.index, t);
        ReplacedKeepsShapes(before, a.index, t);
        SameShapesCompose(msgs, before, Replaced(before, a.index, t));
      }
    } else {
      SameAsItself(msgs);
    }
  }

  /** Folding loses no live range: what covered a folded anchor may itself be folded, but then the
      new read covers both, or the file was edited since. */
  lemma {:induction false} FoldLosesNothing(was: seq<ReadAnchor>, rng: Option<Range>, gen: nat, newIdx: nat)
    requires AnchorsOrdered(was, gen) && NoLiveRangeLost(was, gen)
    requires forall i | 0 <= i < |was| :: was[i].index < newIdx
    ensures AnchorsOrdered(ReadAgain(was, rng, gen, newIdx), gen) &&
            NoLiveRangeLost(ReadAgain(was, rng, gen, newIdx), gen)
  {
    var now := ReadAgain(was, rng, gen, newIdx);
    forall i | 0 <= i < |now| && now[i].folded && now[i].gen == gen ensures CoveredLater(now, i) {
      if !was[i].folded {
        assert Covers(now[|was|].rng, now[i].rng);
      } else {
        assert CoveredLater(was, i);
        var j :| i < j < |was| && !was[j].folded && Covers(was[j].rng, was[i].rng);
        if GivesWay(was[j], rng, gen, newIdx) {
          assert was[i].gen <= was[j].gen;
          assert Covers(now[|was|].rng, now[i].rng);
        } else {
          assert !now[j].folded && Covers(now[j].rng, now[i].rng);
        }
      }
    }
  }

  lemma {:induction false} ReadsGrow(readIndex: map<string, SlimRead>, log: seq<Entry>, e: Entry)
    requires ReadsScanBack(readIndex, log)
    ensures ReadsScanBack(if IsRead(e.result) then readIndex[e.result.argPath := SlimRead(e.index, e.result.text)]
                          else readIndex, log + [e])
  {
    assert (log + [e])[..|log|] == log;
  }

  lemma {:induction false} RerunsGrow(cfg: SlimConfig, rerunIndex: map<Key, RerunRef>, log: seq<Entry>, e: Entry)
    requires RerunsScanBack(cfg, rerunIndex, log)
    ensures RerunsScanBack(cfg, if Reruns(cfg, e.result)
                           then rerunIndex[RerunKey(e.result) := RerunRef(e.index, e.result.text)]
                                else rerunIndex, log + [e])
  {
    assert (log + [e])[..|log|] == log;
  }

  lemma {:induction false} AnchorsGrow(cfg: SlimConfig, before: map<string, seq<ReadAnchor>>,
                                       after: map<string, seq<ReadAnchor>>,
                                       log: seq<Entry>, e: Entry)
    requires AnchorsScanBack(cfg, before, log)
    requires forall p :: Anchors(after, p) == AnchorsBehind(cfg, before, log, e, p)
    ensures AnchorsScanBack(cfg, after, log + [e])
  {
    hide ReadAgain;
    assert (log + [e])[..|log|] == log;
    forall p ensures Anchors(after, p) == AnchorsOf(cfg, log + [e], p) {
      assert Anchors(before, p) == AnchorsOf(cfg, log, p);
    }
  }

  lemma {:induction false} EditsGrow(editGen: map<string, nat>, edits: map<string, EditStat>, log: seq<Entry>, e: Entry)
    requires EditsScanBack(editGen, edits, log)
    ensures var path := e.result.argPath;
            if Edits(e.result) then
              EditsScanBack(editGen[path := Gen(editGen, path) + 1],
                            edits[path := Counted(Stat(edits, path), e.result.stats)], log + [e])
            else EditsScanBack(editGen, edits, log + [e])
  {
    hide Counted, Edits;
    assert (log + [e])[..|log|] == log;
    var path := e.result.argPath;
    var gens, stats := editGen[path := Gen(editGen, path) + 1],
      edits[path := Counted(Stat(edits, path), e.result.stats)];
    forall p
      ensures if Edits(e.result) then Gen(gens, p) == EditsOf(log + [e], p) && Stat(stats, p) == StatOf(log + [e], p)
              else Gen(editGen, p) == EditsOf(log + [e], p) && Stat(edits, p) == StatOf(log + [e], p)
    {
      assert Gen(editGen, p) == EditsOf(log, p) && Stat(edits, p) == StatOf(log, p);
    }
  }

  ghost function AnchorsBehind(cfg: SlimConfig, readAnchors: map<string, seq<ReadAnchor>>, log: seq<Entry>, e: Entry,
                               path: string): seq<ReadAnchor> {
    if Folds(cfg, e.result) && FoldPath(e.result) == path then
      ReadAgain(Anchors(readAnchors, path), FoldRange(e.result), EditsOf(log, path), e.index)
    else Anchors(readAnchors, path)
  }

  // ---- the two methods -------------------------------------------------------------------------

  /** slimToolResult: fold, note the edit, or look for a repeated run. */
  method SlimToolResult(ac: AgentContext, r: Result)
    requires ac.slim != null && SlimOk(ac.messages, ac.slim)
    modifies ac, ac.slim`readAnchors, ac.slim`editGen, ac.slim`edits, ac.slim`rerunIndex
    ensures ac.messages == FoldedBy(old(ac.messages), ac.slim.cfg, ac.slim.log, r)
    ensures var log := ac.slim.log + [Entry(|old(ac.messages)|, r)];
            && RerunsScanBack(ac.slim.cfg, ac.slim.rerunIndex, log) &&
               AnchorsScanBack(ac.slim.cfg, ac.slim.readAnchors, log)
            && EditsScanBack(ac.slim.editGen, ac.slim.edits, log)
  {
    hide NamesMessages, RoundsOk, AnchorsOf, FoldMessages, ReadAgain, EditsOf, StatOf, Counted, AnchorsName,
         RerunsScanBack, EditsScanBack;
    ghost var s, e := ac.slim, Entry(|ac.messages|, r);
    ghost var before := s.readAnchors;
    RerunsGrow(s.cfg, s.rerunIndex, s.log, e);
    EditsGrow(s.editGen, s.edits, s.log, e);
    if r.call.name == "read_file" {
      if ac.slim.cfg.readFold {
        FoldKnown(ac, r);
      }
    } else if r.call.name == "write_file" || r.call.name == "edit_file" {
      NoteEdit(ac.slim, r.argPath, r.stats);
    } else if (r.call.name == "bash" && ac.slim.cfg.bashRerunDedup) ||
              ((r.call.name == "grep" || r.call.name == "glob") && ac.slim.cfg.searchRerunDedup) {
      DedupRerun(ac, r, |ac.messages|);
    }
    AnchorsGrow(s.cfg, before, s.readAnchors, s.log, e);
  }

  /** foldRead in a state whose anchors are those of the history. */
  method FoldKnown(ac: AgentContext, r: Result)
    requires ac.slim != null && SlimOk(ac.messages, ac.slim) && ac.slim.cfg.readFold && r.call.name == "read_file"
    modifies ac, ac.slim`readAnchors
    ensures ac.messages == FoldedBy(old(ac.messages), ac.slim.cfg, ac.slim.log, r)
    ensures forall p :: Anchors(ac.slim.readAnchors, p) ==
              AnchorsBehind(ac.slim.cfg, old(ac.slim.readAnchors), ac.slim.log, Entry(|old(ac.messages)|, r), p)
  {
    hide NamesMessages, RoundsOk, AnchorsOf, FoldMessages, ReadAgain, EditsOf, StatOf, AnchorsName, ReadsScanBack,
         RerunsScanBack;
    AnchorsNameMessages(ac.messages, ac.slim.cfg, ac.slim.log, FoldPath(r));
    assert Anchors(ac.slim.readAnchors, FoldPath(r)) == AnchorsOf(ac.slim.cfg, ac.slim.log, FoldPath(r));
    FoldRead(ac, r, |ac.messages|);
  }

  /** The message a result becomes. */
  function ResultMessage(r: Result): Message {
    ToolMessageWithImages(r.call.id, r.text, r.images)
  }

  lemma {:induction false} NewNames(slimmed: seq<Message>, log: seq<Entry>, r: Result)
    requires NamesMessages(slimmed, log)
    ensures NamesMessages(slimmed + [ResultMessage(r)], log + [Entry(|slimmed|, r)])
  {
  }

  /** A result enters the context (agents/agent_loop.go:1325-1370): slim what it makes redundant,
      record it, append it. */
  method AppendResult(ac: AgentContext, r: Result)
    requires ac.slim != null ==> SlimOk(ac.messages, ac.slim)
    modifies ac, ac.slim
    ensures ac.slim == null ==> ac.messages == old(ac.messages) + [ResultMessage(r)]
    ensures ac.slim != null ==>
              && SlimOk(ac.messages, ac.slim)
              && ac.slim.log == old(ac.slim.log) + [Entry(|old(ac.messages)|, r)]
              && ac.messages == SlimmedBy(old(ac.messages), ac.slim.cfg, old(ac.slim.log), r) + [ResultMessage(r)]
              && SameShapes(old(ac.messages), ac.messages[..|old(ac.messages)|])
  {
    if ac.slim == null {
      ac.messages := ac.messages + [ResultMessage(r)];
      return;
    }
    ghost var msgs, log := ac.messages, ac.slim.log;
    ghost var slimmed := SlimmedBy(msgs, ac.slim.cfg, log, r);
    SlimmedKeepsShapes(msgs, ac.slim.cfg, log, r);
    SlimAndRecord(ac, r);
    NamesKept(msgs, slimmed, log);
    NewNames(slimmed, log, r);
    ac.messages := ac.messages + [ResultMessage(r)];
    assert ac.messages[..|msgs|] == slimmed;
  }

  method SlimAndRecord(ac: AgentContext, r: Result)
    requires ac.slim != null && SlimOk(ac.messages, ac.slim)
    modifies ac, ac.slim
    ensures ScansBack(ac.slim, ac.slim.log)
    ensures ac.slim.roundStart == old(ac.slim.roundStart)
    ensures ac.slim.log == old(ac.slim.log) + [Entry(|old(ac.messages)|, r)]
    ensures ac.messages == SlimmedBy(old(ac.messages), ac.slim.cfg, old(ac.slim.log), r)
  {
    hide NamesMessages, RoundsOk, FoldedBy, DedupedReads, ReadsScanBack, RerunsScanBack, AnchorsScanBack, EditsScanBack;
    IndicesInRange(ac.messages, ac.slim);
    ghost var e := Entry(|ac.messages|, r);
    ReadsGrow(ac.slim.readIndex, ac.slim.log, e);
    SlimToolResult(ac, r);
    RecordRead(ac, r, |ac.messages|);
    ac.slim.log := ac.slim.log + [e];
  }

  // ---- blanking old results ---------------------------------------------------------------------

  function StaleText(rounds: nat): Text {
    [Lit(SLIM_PREFIX + "old tool result removed (over " + Strings.Decimal(rounds) + " rounds)]")]
  }

  function Blanked(m: Message, cfg: SlimConfig): Message {
    if m.role == Tool && m.content != [] && Length(m.content[0].text) > cfg.staleMinBytes then
      m.(content := m.content[0 := m.content[0].(text := StaleText(cfg.staleRounds))])
    else m
  }

  /** Where the messages older than the threshold end. */
  function Cutoff(starts: seq<nat>, rounds: nat): nat {
    if |starts| <= rounds then 0 else starts[|starts| - 1 - rounds]
  }

  /** applyStale: note where the round starts; blank large results over staleRounds rounds old. */
  method ApplyStale(ac: AgentContext)
    requires ac.slim != null && SlimOk(ac.messages, ac.slim)
    modifies ac, ac.slim`roundStart
    ensures SlimOk(ac.messages, ac.slim)
    ensures ac.slim.roundStart == old(ac.slim.roundStart) + [|old(ac.messages)|]
    ensures |ac.messages| == |old(ac.messages)|
    ensures forall i | 0 <= i < |ac.messages| :: ac.messages[i] ==
              if i < Cutoff(ac.slim.roundStart, ac.slim.cfg.staleRounds) then Blanked(old(ac.messages)[i], ac.slim.cfg)
              else old(ac.messages)[i]
    ensures SameShapes(old(ac.messages), ac.messages)
  {
    hide ReadsScanBack, RerunsScanBack, AnchorsScanBack, EditsScanBack, NamesMessages, StaleText;
    var s := ac.slim;
    s.roundStart := s.roundStart + [|ac.messages|];
    assert SlimOk(ac.messages, s);
    if |s.roundStart| <= s.cfg.staleRounds {
      return;
    }
    var cutoff := s.roundStart[|s.roundStart| - 1 - s.cfg.staleRounds];
    ghost var msgs := ac.messages;
    for i := 0 to cutoff
      invariant |ac.messages| == |msgs| && s.roundStart == old(ac.slim.roundStart) + [|msgs|]
      invariant forall j | 0 <= j < |msgs| :: ac.messages[j] == if j < i then Blanked(msgs[j], s.cfg) else msgs[j]
    {
      var m := ac.messages[i];
      if m.role != Tool || m.content == [] {
        continue;
      }
      if Length(m.content[0].text) > s.cfg.staleMinBytes {
        var first := m.content[0].(text := StaleText(s.cfg.staleRounds));
        ac.messages := ac.messages[i := m.(content := m.content[0 := first])];
      }
    }
    SameShapesKeepSlim(msgs, ac.messages, s);
  }
}
