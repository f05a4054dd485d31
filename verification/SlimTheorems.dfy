/** What slimming keeps, said of the results themselves: which reads are folded, and that no result
    loses its text without a reason. */
module SlimTheorems {
  import opened Messages
  import opened Context
  import opened Slim

  // ---- the history of a file -----------------------------------------------------------------------

  /** The entry is an edit of the file. */
  predicate EditAt(log: seq<Entry>, m: int, path: string)
    requires 0 <= m < |log|
  {
    var r := log[m].result;
    (r.call.name == "write_file" || r.call.name == "edit_file") && r.argPath == path && path != ""
  }

  /** The generation of a file counts its edits. */
  lemma {:induction false} EditsCounted(log: seq<Entry>, path: string)
    ensures EditsOf(log, path) == |EditPlaces(log, path)|
  {
    if log != [] {
      var n := |log| - 1;
      EditsCounted(log[..n], path);
      MoreEdits(log, path);
    }
  }

  ghost function EditPlaces(log: seq<Entry>, path: string): set<int> {
    set m | 0 <= m < |log| && EditAt(log, m, path)
  }

  lemma {:induction false} MoreEdits(log: seq<Entry>, path: string)
    requires log != []
    ensures var n := |log| - 1;
            |EditPlaces(log, path)| == |EditPlaces(log[..n], path)| + if EditAt(log, n, path) then 1 else 0
  {
    var n := |log| - 1;
    assert forall m | 0 <= m < n :: EditAt(log, m, path) == EditAt(log[..n], m, path);
    hide EditAt;
    var before := EditPlaces(log[..n], path);
    assert EditPlaces(log, path) == if EditAt(log, n, path) then before + {n} else before;
  }

  lemma {:induction false} EditsBetween(log: seq<Entry>, k: nat, path: string)
    requires k <= |log|
    ensures EditsOf(log[..k], path) <= EditsOf(log, path)
    ensures EditsOf(log[..k], path) < EditsOf(log, path) <==> exists m | k <= m < |log| :: EditAt(log, m, path)
    decreases |log|
  {
    var n := |log| - 1;
    if k == |log| {
      assert log[..k] == log;
    } else {
      assert log[..n][..k] == log[..k];
      EditsBetween(log[..n], k, path);
      if m :| k <= m < n && EditAt(log[..n], m, path) { assert EditAt(log, m, path); }
      if m :| k <= m < n && EditAt(log, m, path) { assert EditAt(log[..n], m, path); }
      if EditAt(log, n, path) { assert k <= n < |log| && EditAt(log, n, path); }
    }
  }

  /** The entry is a read of the file that folding looks at. */
  predicate ReadAt(cfg: SlimConfig, log: seq<Entry>, k: int, path: string)
    requires 0 <= k < |log|
  {
    cfg.readFold && log[k].result.call.name == "read_file" && path == PathOf(log[k].result) != ""
  }

  /** The file a read is of: the one its header names, else the one asked for. */
  function PathOf(r: Result): string { if r.headerPath == "" then r.argPath else r.headerPath }

  /** The lines a result shows, unknown without a header. */
  function Lines(r: Result): Option<Range> { if r.headerPath == "" then None else r.range }

  /** Anchor a stands for the read at k. */
  ghost predicate AnchorOf(cfg: SlimConfig, log: seq<Entry>, path: string, a: ReadAnchor, k: int) {
    && 0 <= k < |log| && ReadAt(cfg, log, k, path)
    && a.index == log[k].index && a.rng == Lines(log[k].result) && a.gen == EditsOf(log[..k], path)
  }

  /** An edit or a read that shows the same lines came behind the read at k, the edit before a read at m. */
  ghost predicate OutdoneAt(cfg: SlimConfig, log: seq<Entry>, path: string, k: int, m: int) {
    && 0 <= k < m < |log| && ReadAt(cfg, log, m, path)
    && ((exists e | k < e < m :: EditAt(log, e, path)) || ShowsAll(Lines(log[m].result), Lines(log[k].result)))
  }

  ghost predicate Outdone(cfg: SlimConfig, log: seq<Entry>, path: string, k: int) {
    exists m :: OutdoneAt(cfg, log, path, k, m)
  }

  ghost predicate Records(cfg: SlimConfig, log: seq<Entry>, path: string, anchors: seq<ReadAnchor>, at: seq<nat>) {
    && |at| == |anchors| && (forall i, j | 0 <= i < j < |at| :: at[i] < at[j])
    && (forall i | 0 <= i < |at| :: AnchorOf(cfg, log, path, anchors[i], at[i]))
    && (forall k | 0 <= k < |log| && ReadAt(cfg, log, k, path) :: k in at)
  }

  ghost predicate FoldedIfOutdone(cfg: SlimConfig, log: seq<Entry>, path: string, anchors: seq<ReadAnchor>,
                                  at: seq<nat>)
    requires |at| == |anchors|
  {
    forall i | 0 <= i < |at| && Proper(anchors[i].rng) :: anchors[i].folded <==> Outdone(cfg, log, path, at[i])
  }

  lemma {:induction false} SamePrefix(cfg: SlimConfig, log: seq<Entry>, path: string, n: nat, m: nat)
    requires m < n <= |log|
    ensures EditAt(log[..n], m, path) == EditAt(log, m, path)
    ensures ReadAt(cfg, log[..n], m, path) == ReadAt(cfg, log, m, path)
    ensures log[..n][..m] == log[..m] && log[..n][m] == log[m]
  {
  }

  lemma {:induction false} ReadIsFold(cfg: SlimConfig, log: seq<Entry>, k: nat, path: string)
    requires k < |log|
    ensures ReadAt(cfg, log, k, path) <==> path != "" && Folds(cfg, log[k].result) && FoldPath(log[k].result) == path
    ensures Lines(log[k].result) == FoldRange(log[k].result)
    ensures ReadAt(cfg, log, k, path) ==> !EditAt(log, k, path)
  {
  }

  lemma {:induction false} AnchorKept(cfg: SlimConfig, log: seq<Entry>, path: string, n: nat, was: ReadAnchor,
                                      now: ReadAnchor, k: nat)
    requires n <= |log| && AnchorOf(cfg, log[..n], path, was, k) && now.(folded := was.folded) == was
    ensures k < n && AnchorOf(cfg, log, path, now, k)
  {
    SamePrefix(cfg, log, path, n, k);
    hide ReadAt, Lines, EditsOf;
  }

  lemma {:induction false} NewAnchor(cfg: SlimConfig, log: seq<Entry>, path: string)
    requires log != [] && path != "" && ReadAt(cfg, log, |log| - 1, path)
    ensures var n := |log| - 1;
            && FoldsShown(AnchorsOf(cfg, log[..n], path), AnchorsOf(cfg, log, path), Lines(log[n].result),
                          EditsOf(log[..n], path), log[n].index)
            && AnchorOf(cfg, log, path,
                        ReadAnchor(log[n].index, Lines(log[n].result), EditsOf(log[..n], path), false), n)
  {
    var n := |log| - 1;
    ReadIsFold(cfg, log, n, path);
    ReadFoldsShown(AnchorsOf(cfg, log[..n], path), FoldRange(log[n].result), EditsOf(log[..n], path), log[n].index);
    hide FoldsShown, ReadAgain;
  }

  lemma {:induction false} NoNewAnchor(cfg: SlimConfig, log: seq<Entry>, path: string)
    requires log != [] && path != "" && !ReadAt(cfg, log, |log| - 1, path)
    ensures AnchorsOf(cfg, log, path) == AnchorsOf(cfg, log[..|log| - 1], path)
  {
    ReadIsFold(cfg, log, |log| - 1, path);
  }

  lemma {:induction false} RecordsKept(cfg: SlimConfig, log: seq<Entry>, path: string, at: seq<nat>, n: nat,
                                       before: seq<ReadAnchor>, anchors: seq<ReadAnchor>)
    requires n <= |log| && Records(cfg, log[..n], path, before, at) && |before| <= |anchors|
    requires forall i | 0 <= i < |before| :: anchors[i].(folded := before[i].folded) == before[i]
    ensures forall i | 0 <= i < |at| :: at[i] < n && AnchorOf(cfg, log, path, anchors[i], at[i])
    ensures forall k | 0 <= k < n && ReadAt(cfg, log, k, path) :: k in at
  {
    hide ReadAt, AnchorOf;
    forall i | 0 <= i < |at| ensures at[i] < n && AnchorOf(cfg, log, path, anchors[i], at[i]) {
      AnchorKept(cfg, log, path, n, before[i], anchors[i], at[i]);
    }
    forall k | 0 <= k < n && ReadAt(cfg, log, k, path) ensures k in at {
      SamePrefix(cfg, log, path, n, k);
    }
  }

  lemma {:induction false} RecordsGrow(cfg: SlimConfig, log: seq<Entry>, path: string, at: seq<nat>)
    requires log != [] && path != ""
    requires Records(cfg, log[..|log| - 1], path, AnchorsOf(cfg, log[..|log| - 1], path), at)
    ensures Records(cfg, log, path, AnchorsOf(cfg, log, path),
                    if ReadAt(cfg, log, |log| - 1, path) then at + [|log| - 1] else at)
  {
    var n := |log| - 1;
    hide ReadAt, AnchorsOf, AnchorOf, EditsOf, Lines;
    if ReadAt(cfg, log, n, path) { NewAnchor(cfg, log, path); } else { NoNewAnchor(cfg, log, path); }
    RecordsKept(cfg, log, path, at, n, AnchorsOf(cfg, log[..n], path), AnchorsOf(cfg, log, path));
  }

  lemma {:induction false} OutdoneGrows(cfg: SlimConfig, log: seq<Entry>, path: string, k: nat)
    requires log != [] && k < |log|
    ensures Outdone(cfg, log, path, k) <==>
            (k < |log| - 1 && Outdone(cfg, log[..|log| - 1], path, k)) || OutdoneAt(cfg, log, path, k, |log| - 1)
  {
    var n := |log| - 1;
    hide ReadAt, EditAt, Lines, ShowsAll;
    forall m | k < m < n ensures OutdoneAt(cfg, log, path, k, m) <==> OutdoneAt(cfg, log[..n], path, k, m) {
      SamePrefix(cfg, log, path, n, m);
      SamePrefix(cfg, log, path, n, k);
      forall e | k < e < m ensures EditAt(log, e, path) == EditAt(log[..n], e, path) {
        SamePrefix(cfg, log, path, n, e);
      }
    }
  }

  /** Read k gives way to the read that comes last exactly when that one outdoes it. */
  lemma {:induction false} OutdoneByLast(cfg: SlimConfig, log: seq<Entry>, path: string, k: nat)
    requires k < |log| - 1 && ReadAt(cfg, log, k, path) && ReadAt(cfg, log, |log| - 1, path)
    ensures var n := |log| - 1;
            OutdoneAt(cfg, log, path, k, n) <==>
              EditsOf(log[..k], path) < EditsOf(log[..n], path) || ShowsAll(Lines(log[n].result), Lines(log[k].result))
  {
    var n := |log| - 1;
    ReadIsFold(cfg, log, k, path);
    SamePrefix(cfg, log, path, n, k);
    EditsBetween(log[..n], k, path);
    hide ReadAt, EditAt, Lines, ShowsAll, EditsOf;
    forall e | k <= e < n ensures EditAt(log, e, path) == EditAt(log[..n], e, path) {
      SamePrefix(cfg, log, path, n, e);
    }
  }

  lemma {:induction false} FoldedGrows(cfg: SlimConfig, log: seq<Entry>, path: string, at: seq<nat>)
    requires log != [] && path != "" && Increasing(log)
    requires Records(cfg, log[..|log| - 1], path, AnchorsOf(cfg, log[..|log| - 1], path), at)
    requires FoldedIfOutdone(cfg, log[..|log| - 1], path, AnchorsOf(cfg, log[..|log| - 1], path), at)
    ensures var now := if ReadAt(cfg, log, |log| - 1, path) then at + [|log| - 1] else at;
            |now| == |AnchorsOf(cfg, log, path)| && FoldedIfOutdone(cfg, log, path, AnchorsOf(cfg, log, path), now)
  {
    var n := |log| - 1;
    var before, anchors := AnchorsOf(cfg, log[..n], path), AnchorsOf(cfg, log, path);
    var now := if ReadAt(cfg, log, n, path) then at + [n] else at;
    RecordsGrow(cfg, log, path, at);
    ReadIsFold(cfg, log, n, path);
    if ReadAt(cfg, log, n, path) {
      ReadFoldsShown(before, FoldRange(log[n].result), EditsOf(log[..n], path), log[n].index);
    }
    hide ReadAt, EditAt, AnchorsOf, EditsOf, Lines, ShowsAll, Folds, Outdone, OutdoneAt, Proper;
    forall i | 0 <= i < |now| && Proper(anchors[i].rng) ensures anchors[i].folded <==> Outdone(cfg, log, path, now[i]) {
      assert AnchorOf(cfg, log, path, anchors[i], now[i]);
      OutdoneGrows(cfg, log, path, now[i]);
      if i < |at| {
        assert AnchorOf(cfg, log[..n], path, before[i], at[i]);
        FoldedStep(cfg, log, path, before[i], anchors[i], at[i]);
      } else {
        NotOutdoneByItself(cfg, log, path, n);
      }
    }
  }

  lemma {:induction false} NotOutdoneByItself(cfg: SlimConfig, log: seq<Entry>, path: string, k: nat)
    ensures !OutdoneAt(cfg, log, path, k, k)
  {
  }

  /** What the last entry does to one anchor. */
  lemma {:induction false} FoldedStep(cfg: SlimConfig, log: seq<Entry>, path: string, was: ReadAnchor, now: ReadAnchor,
                                      k: nat)
    requires k < |log| - 1 && Increasing(log) && AnchorOf(cfg, log, path, now, k)
    requires was.gen == now.gen && was.rng == now.rng
    requires var n := |log| - 1;
             now.folded <==> was.folded || (ReadAt(cfg, log, n, path) &&
                                            (was.gen < EditsOf(log[..n], path) ||
                                             ShowsAll(FoldRange(log[n].result), was.rng)))
    ensures now.folded <==> was.folded || OutdoneAt(cfg, log, path, k, |log| - 1)
  {
    var n := |log| - 1;
    ReadIsFold(cfg, log, n, path);
    if ReadAt(cfg, log, n, path) { OutdoneByLast(cfg, log, path, k); }
    hide ReadAt, ShowsAll, EditsOf, Lines, EditAt;
  }

  /** The anchors of a file are its reads in order, and a read is folded exactly when a later one shows
      all its lines or found the file edited. */
  lemma {:induction false} FoldedIff(cfg: SlimConfig, log: seq<Entry>, path: string) returns (at: seq<nat>)
    requires Increasing(log) && path != ""
    ensures Records(cfg, log, path, AnchorsOf(cfg, log, path), at)
    ensures FoldedIfOutdone(cfg, log, path, AnchorsOf(cfg, log, path), at)
  {
    at := [];
    if log != [] {
      var n := |log| - 1;
      at := FoldedIff(cfg, log[..n], path);
      RecordsGrow(cfg, log, path, at);
      FoldedGrows(cfg, log, path, at);
      hide Records, FoldedIfOutdone;
      if ReadAt(cfg, log, n, path) {
        at := at + [n];
      }
    }
  }

  // ---- a result keeps its text unless it is redundant ------------------------------------------------

  /** The same command or search once more, while such repetitions are looked for. */
  predicate SameRerun(cfg: SlimConfig, e: Result, r: Result) {
    && e.call.name == r.call.name && e.call.args == r.call.args
    && ((r.call.name == "bash" && cfg.bashRerunDedup) ||
        ((r.call.name == "grep" || r.call.name == "glob") && cfg.searchRerunDedup))
  }

  predicate SameRead(e: Result, r: Result) {
    e.call.name == r.call.name == "read_file" && e.argPath == r.argPath != ""
  }

  /** Entry i is a read of the file r reads, and since then the file was edited or r shows all its lines. */
  ghost predicate GoneStale(cfg: SlimConfig, log: seq<Entry>, i: int, r: Result)
    requires 0 <= i < |log|
  {
    && r.call.name == "read_file" && ReadAt(cfg, log, i, PathOf(r))
    && ((exists m | i < m < |log| :: EditAt(log, m, PathOf(r))) || ShowsAll(Lines(r), Lines(log[i].result)))
  }

  /** What entry i said is said again by r or out of date. */
  ghost predicate Redundant(cfg: SlimConfig, log: seq<Entry>, i: int, r: Result)
    requires 0 <= i < |log|
  {
    var e := log[i].result;
    || (SameRerun(cfg, e, r) && e.text == r.text)
    || (SameRead(e, r) && e.text == r.text && Length(r.text) >= cfg.dedupMinBytes)
    || GoneStale(cfg, log, i, r)
  }

  /** A placeholder that points to the message at `newIdx`, in an answer to the same call. */
  predicate PointsTo(m: Message, was: Message, newIdx: nat) {
    && m.content != [] && m == ToolMessage(was.toolId, m.content[0].text)
    && IsSlimPlaceholder(m.content[0].text) && Ref(newIdx) in m.content[0].text
  }

  lemma {:induction false} TextsPoint(m: Message, path: string, rng: Option<Range>, st: EditStat, newIdx: nat,
                                      superseded: bool)
    ensures PointsTo(ToolMessage(m.toolId, DuplicateReadText(newIdx)), m, newIdx)
    ensures PointsTo(ToolMessage(m.toolId, RerunText(newIdx)), m, newIdx)
    ensures PointsTo(ToolMessage(m.toolId, FoldText(path, rng, st, newIdx, superseded)), m, newIdx)
  {
    assert DuplicateReadText(newIdx)[1] == Ref(newIdx) && RerunText(newIdx)[1] == Ref(newIdx);
    var t := FoldText(path, rng, st, newIdx, superseded);
    assert t[|t| - 2] == Ref(newIdx);
  }

  /** LastRead is the newest read of the path. */
  lemma {:induction false} LastReadIsNewest(log: seq<Entry>, path: string, i: nat)
    requires i < |log| && path != ""
    requires log[i].result.call.name == "read_file" && log[i].result.argPath == path
    requires forall j | i < j < |log| :: !(log[j].result.call.name == "read_file" && log[j].result.argPath == path)
    ensures LastRead(log, path) == Some(SlimRead(log[i].index, log[i].result.text))
    decreases |log|
  {
    var n := |log| - 1;
    if i < n {
      assert forall j | 0 <= j < n :: log[..n][j] == log[j];
      LastReadIsNewest(log[..n], path, i);
    }
  }

  lemma {:induction false} LastReadSource(log: seq<Entry>, path: string) returns (i: nat)
    requires LastRead(log, path).Some?
    ensures i < |log| && LastRead(log, path).value == SlimRead(log[i].index, log[i].result.text)
    ensures log[i].result.call.name == "read_file" && log[i].result.argPath == path != ""
  {
    i := |log| - 1;
    if !(IsRead(log[i].result) && log[i].result.argPath == path) {
      i := LastReadSource(log[..i], path);
    }
  }

  lemma {:induction false} LastRerunIsNewest(cfg: SlimConfig, log: seq<Entry>, r: Result, i: nat)
    requires i < |log| && SameRerun(cfg, log[i].result, r)
    requires forall j | i < j < |log| :: !SameRerun(cfg, log[j].result, r)
    ensures LastRerun(cfg, log, RerunKey(r)) == Some(RerunRef(log[i].index, log[i].result.text))
    decreases |log|
  {
    var n := |log| - 1;
    if i < n {
      assert forall j | 0 <= j < n :: log[..n][j] == log[j];
      assert !SameRerun(cfg, log[n].result, r);
      LastRerunIsNewest(cfg, log[..n], r, i);
    }
  }

  lemma {:induction false} LastRerunSource(cfg: SlimConfig, log: seq<Entry>, r: Result) returns (i: nat)
    requires Reruns(cfg, r) && LastRerun(cfg, log, RerunKey(r)).Some?
    ensures i < |log| && LastRerun(cfg, log, RerunKey(r)).value == RerunRef(log[i].index, log[i].result.text)
    ensures SameRerun(cfg, log[i].result, r)
  {
    i := |log| - 1;
    if !(Reruns(cfg, log[i].result) && RerunKey(log[i].result) == RerunKey(r)) {
      i := LastRerunSource(cfg, log[..i], r);
    }
  }

  /** An anchor that gives way stands for a read gone stale. */
  lemma {:induction false} GivesWayIsStale(cfg: SlimConfig, log: seq<Entry>, r: Result, a: ReadAnchor, k: nat,
                                           newIdx: nat)
    requires Folds(cfg, r) && AnchorOf(cfg, log, FoldPath(r), a, k) && a.index != newIdx && !a.folded
    ensures GivesWay(a, FoldRange(r), EditsOf(log, FoldPath(r)), newIdx) ==> GoneStale(cfg, log, k, r)
    ensures Proper(a.rng) && GoneStale(cfg, log, k, r) ==> GivesWay(a, FoldRange(r), EditsOf(log, FoldPath(r)), newIdx)
  {
    var path := FoldPath(r);
    EditsBetween(log, k, path);
    ReadIsFold(cfg, log, k, path);
    CoversLines(FoldRange(r), a.rng);
    hide EditsOf, EditAt, ReadAt, Covers, ShowsAll;
    if m :| k <= m < |log| && EditAt(log, m, path) { assert k < m; }
  }

  lemma {:induction false} FoldingIsExcused(msgs: seq<Message>, cfg: SlimConfig, log: seq<Entry>, r: Result, k: nat)
    requires NamesMessages(msgs, log) && Folds(cfg, r) && k < |msgs| && FoldedBy(msgs, cfg, log, r)[k] != msgs[k]
    ensures PointsTo(FoldedBy(msgs, cfg, log, r)[k], msgs[k], |msgs|)
    ensures exists i | 0 <= i < |log| :: log[i].index == k && GoneStale(cfg, log, i, r)
  {
    var path := FoldPath(r);
    var anchors, gen, st := AnchorsOf(cfg, log, path), EditsOf(log, path), StatOf(log, path);
    AnchorsNameMessages(msgs, cfg, log, path);
    FoldedExactly(msgs, r, anchors, gen, st, |msgs|, |anchors|, k);
    var at := FoldedIff(cfg, log, path);
    hide AnchorsOf, EditsOf, StatOf, FoldMessages, GoneStale, AnchorOf, PointsTo, FoldText, FoldedIfOutdone,
         AnchorsName;
    var i :| 0 <= i < |anchors| && GivesWay(anchors[i], FoldRange(r), gen, |msgs|) && anchors[i].index == k;
    GivesWayIsStale(cfg, log, r, anchors[i], at[i], |msgs|);
    TextsPoint(msgs[k], path, anchors[i].rng, st, |msgs|, Covers(FoldRange(r), anchors[i].rng));
    assert AnchorOf(cfg, log, path, anchors[i], at[i]);
    AnchorIndexIs(cfg, log, path, anchors[i], at[i]);
  }

  lemma {:induction false} AnchorIndexIs(cfg: SlimConfig, log: seq<Entry>, path: string, a: ReadAnchor, k: nat)
    requires AnchorOf(cfg, log, path, a, k)
    ensures k < |log| && log[k].index == a.index
  {
  }

  /** A result already in the context changes only when the new one repeats it or it is out of date,
      and then into a pointer to the new one. */
  lemma {:induction false} OnlyRedundantChanges(msgs: seq<Message>, cfg: SlimConfig, log: seq<Entry>, r: Result, k: nat)
    requires NamesMessages(msgs, log) && k < |msgs| && SlimmedBy(msgs, cfg, log, r)[k] != msgs[k]
    ensures PointsTo(SlimmedBy(msgs, cfg, log, r)[k], msgs[k], |msgs|)
    ensures exists i | 0 <= i < |log| :: log[i].index == k && Redundant(cfg, log, i, r)
  {
    var folded := FoldedBy(msgs, cfg, log, r);
    SlimmedIds(msgs, cfg, log, r, k);
    TextsPoint(msgs[k], "", None, EditStat(0, 0, 0, false), |msgs|, false);
    hide PointsTo, GoneStale, SameRerun, FoldMessages, DuplicateReadText, RerunText, NamesMessages;
    if SlimmedBy(msgs, cfg, log, r)[k] != folded[k] {
      var i := LastReadSource(log, r.argPath);
      assert log[i].index == k && Redundant(cfg, log, i, r);
    } else if Folds(cfg, r) {
      FoldingIsExcused(msgs, cfg, log, r, k);
      var i :| 0 <= i < |log| && log[i].index == k && GoneStale(cfg, log, i, r);
      assert Redundant(cfg, log, i, r);
    } else {
      var i := LastRerunSource(cfg, log, r);
      assert log[i].index == k && Redundant(cfg, log, i, r);
    }
  }

  lemma {:induction false} SlimmedIds(msgs: seq<Message>, cfg: SlimConfig, log: seq<Entry>, r: Result, k: nat)
    requires NamesMessages(msgs, log) && k < |msgs|
    ensures FoldedBy(msgs, cfg, log, r)[k].toolId == msgs[k].toolId
  {
    hide FoldMessages, DedupedReruns;
    if Folds(cfg, r) {
      var anchors := AnchorsOf(cfg, log, FoldPath(r));
      FoldKeepsShapes(msgs, r, anchors, EditsOf(log, FoldPath(r)), StatOf(log, FoldPath(r)), |msgs|, |anchors|);
      assert OnlyTextChanged(msgs[k], FoldedBy(msgs, cfg, log, r)[k]);
    } else if Reruns(cfg, r) {
      DedupedRerunsKeepShapes(msgs, cfg, log, r, |msgs|);
      assert OnlyTextChanged(msgs[k], FoldedBy(msgs, cfg, log, r)[k]);
    }
  }

  /** A repeated command or search with the same output takes the place of the one before. */
  lemma {:induction false} RepeatedRunChanges(msgs: seq<Message>, cfg: SlimConfig, log: seq<Entry>, r: Result, i: nat)
    requires NamesMessages(msgs, log) && i < |log| && SameRerun(cfg, log[i].result, r) && log[i].result.text == r.text
    requires forall j | i < j < |log| :: !SameRerun(cfg, log[j].result, r)
    ensures PointsTo(SlimmedBy(msgs, cfg, log, r)[log[i].index], msgs[log[i].index], |msgs|)
  {
    LastRerunIsNewest(cfg, log, r, i);
    TextsPoint(msgs[log[i].index], "", None, EditStat(0, 0, 0, false), |msgs|, false);
    hide PointsTo, LastRerun, RerunText;
  }

  /** A repeated read with the same long text takes the place of the one before. */
  lemma {:induction false} RepeatedReadChanges(msgs: seq<Message>, cfg: SlimConfig, log: seq<Entry>, r: Result, i: nat)
    requires NamesMessages(msgs, log) && i < |log| && SameRead(log[i].result, r) && log[i].result.text == r.text
    requires Length(r.text) >= cfg.dedupMinBytes && forall j | i < j < |log| :: !SameRead(log[j].result, r)
    ensures PointsTo(SlimmedBy(msgs, cfg, log, r)[log[i].index], msgs[log[i].index], |msgs|)
  {
    hide PointsTo, LastRead, DuplicateReadText, FoldedBy;
    forall j | i < j < |log|
      ensures !(log[j].result.call.name == "read_file" && log[j].result.argPath == r.argPath)
    {
      assert !SameRead(log[j].result, r);
    }
    LastReadIsNewest(log, r.argPath, i);
    TextsPoint(msgs[log[i].index], "", None, EditStat(0, 0, 0, false), |msgs|, false);
    SlimmedIds(msgs, cfg, log, r, log[i].index);
  }

  /** A read goes when the file was edited since or the new read shows all its lines; one that no
      earlier read has taken the place of still stands until then. */
  lemma {:induction false} StaleReadChanges(msgs: seq<Message>, cfg: SlimConfig, log: seq<Entry>, r: Result, i: nat)
    requires NamesMessages(msgs, log) && i < |log| && GoneStale(cfg, log, i, r)
    requires Proper(Lines(log[i].result)) && !Outdone(cfg, log, PathOf(r), i)
    ensures PointsTo(SlimmedBy(msgs, cfg, log, r)[log[i].index], msgs[log[i].index], |msgs|)
  {
    var k := log[i].index;
    StaleReadFolds(msgs, cfg, log, r, i);
    TextsPoint(msgs[k], "", None, EditStat(0, 0, 0, false), |msgs|, false);
    SlimmedIds(msgs, cfg, log, r, k);
    hide PointsTo, LastRead, DuplicateReadText, FoldedBy, GoneStale, Outdone;
  }

  lemma {:induction false} StaleReadFolds(msgs: seq<Message>, cfg: SlimConfig, log: seq<Entry>, r: Result, i: nat)
    requires NamesMessages(msgs, log) && i < |log| && GoneStale(cfg, log, i, r)
    requires Proper(Lines(log[i].result)) && !Outdone(cfg, log, PathOf(r), i)
    ensures PointsTo(FoldedBy(msgs, cfg, log, r)[log[i].index], msgs[log[i].index], |msgs|)
  {
    var path, k := PathOf(r), log[i].index;
    assert Folds(cfg, r) && FoldPath(r) == path;
    var anchors, gen, st := AnchorsOf(cfg, log, path), EditsOf(log, path), StatOf(log, path);
    AnchorsNameMessages(msgs, cfg, log, path);
    FoldedExactly(msgs, r, anchors, gen, st, |msgs|, |anchors|, k);
    var at := FoldedIff(cfg, log, path);
    hide AnchorsOf, EditsOf, StatOf, FoldMessages, PointsTo, FoldText, Outdone, AnchorsName, ReadAt, EditAt, ShowsAll;
    var j :| 0 <= j < |at| && at[j] == i;
    assert AnchorOf(cfg, log, path, anchors[j], at[j]);
    GivesWayIsStale(cfg, log, r, anchors[j], i, |msgs|);
    TextsPoint(msgs[k], path, anchors[j].rng, st, |msgs|, Covers(FoldRange(r), anchors[j].rng));
  }
}
