/** Folding of command output lines (agents/slim_text.go): runs of equal lines, and the middle of a
    long block of search hits. */
module LineFolding {
  import opened Messages
  import opened Strings

  const THRESHOLD := 4

  /** The line that stands for n further copies of the line before it. */
  function Marker(n: nat): string { "[the same line repeated " + Decimal(n) + " times, folded]" }

  function RunEnd(lines: seq<string>, i: nat, j: nat): (e: nat)
    requires i < j <= |lines| && forall k | i <= k < j :: lines[k] == lines[i]
    ensures j <= e <= |lines| && forall k | i <= k < e :: lines[k] == lines[i]
    decreases |lines| - j
  {
    if j == |lines| || lines[j] != lines[i] then j else RunEnd(lines, i, j + 1)
  }

  function Run(lines: seq<string>, i: nat, e: nat): seq<string>
    requires i < e <= |lines|
  {
    if e - i >= THRESHOLD && TrimSpace(lines[i]) != "" then [lines[i], Marker(e - i - 1)] else lines[i..e]
  }

  function Folded(lines: seq<string>, i: nat): seq<string>
    requires i <= |lines|
    decreases |lines| - i
  {
    if i == |lines| then [] else Run(lines, i, RunEnd(lines, i, i + 1)) + Folded(lines, RunEnd(lines, i, i + 1))
  }

  lemma {:induction false} FoldStep(lines: seq<string>, i: nat, kept: seq<string>)
    requires i < |lines|
    ensures var j := RunEnd(lines, i, i + 1);
            kept + Folded(lines, i) == (kept + Run(lines, i, j)) + Folded(lines, j)
  {
  }

  lemma {:induction false} FoldDone(lines: seq<string>)
    ensures Folded(lines, |lines|) == []
  {
  }

  method FoldRun(lines: seq<string>, i: nat, j: nat) returns (run: seq<string>)
    requires i < j <= |lines|
    ensures run == Run(lines, i, j)
  {
    var n := j - i;
    if n >= THRESHOLD && TrimSpace(lines[i]) != "" {
      run := [lines[i], Marker(n - 1)];
    } else {
      run := lines[i..j];
    }
  }

  method FoldLines(lines: seq<string>) returns (kept: seq<string>)
    ensures kept == Folded(lines, 0)
  {
    hide Folded, Run;
    kept := [];
    var i := 0;
    while i < |lines|
      invariant i <= |lines| && Folded(lines, 0) == kept + Folded(lines, i)
    {
      var j := i + 1;
      while j < |lines| && lines[j] == lines[i]
        invariant i < j <= |lines| && forall k | i <= k < j :: lines[k] == lines[i]
        invariant RunEnd(lines, i, i + 1) == RunEnd(lines, i, j)
      {
        j := j + 1;
      }
      FoldStep(lines, i, kept);
      var run := FoldRun(lines, i, j);
      kept := kept + run;
      i := j;
    }
    FoldDone(lines);
    assert kept + [] == kept;
  }

  method FoldRepeatedLines(s: string) returns (out: string)
    ensures out == Join(Folded(Split(s, '\n'), 0), '\n')
  {
    if '\n' !in s {
      NoIndex(s, '\n');
      OneLineFolds(s);
      return s;
    }
    var kept := FoldLines(Split(s, '\n'));
    return Join(kept, '\n');
  }

  lemma {:induction false} OneLineFolds(s: string)
    ensures Join(Folded([s], 0), '\n') == s
  {
    assert RunEnd([s], 0, 1) == 1;
    assert Folded([s], 1) == [];
    assert [s][0..1] == [s];
    assert Folded([s], 0) == [s] + Folded([s], 1) == [s];
  }

  // ---- nothing is lost ---------------------------------------------------------------------------------

  ghost predicate IsMarker(line: string) { exists n :: line == Marker(n) }

  ghost function CountOf(line: string): nat
    requires IsMarker(line)
  {
    var n :| line == Marker(n); n
  }

  function Copies(line: string, n: nat): seq<string> { seq(n, i => line) }

  /** Reading the folded lines back: a marker stands for copies of the line before it. */
  ghost function Unfolded(out: seq<string>, prev: Option<string>): seq<string> {
    if out == [] then []
    else if IsMarker(out[0]) && prev.Some? then Copies(prev.value, CountOf(out[0])) + Unfolded(out[1..], prev)
    else [out[0]] + Unfolded(out[1..], Some(out[0]))
  }

  lemma {:induction false} MarkerCount(n: nat)
    ensures IsMarker(Marker(n)) && CountOf(Marker(n)) == n
  {
    var m := CountOf(Marker(n));
    var head, tail := "[the same line repeated ", " times, folded]";
    assert head + Decimal(m) + tail == head + Decimal(n) + tail;
    assert |Decimal(m)| == |Decimal(n)|;
    assert (head + Decimal(m) + tail)[|head|..|head| + |Decimal(m)|] == Decimal(m);
    assert (head + Decimal(n) + tail)[|head|..|head| + |Decimal(n)|] == Decimal(n);
    assert Value(Decimal(m)) == Value(Decimal(n));
  }

  lemma {:induction false} NothingUnfolds(prev: Option<string>)
    ensures Unfolded([], prev) == []
  {
  }

  lemma {:induction false} PlainUnfolds(lines: seq<string>, rest: seq<string>, prev: Option<string>)
    requires lines != [] && forall i | 0 <= i < |lines| :: !IsMarker(lines[i])
    ensures Unfolded(lines + rest, prev) == lines + Unfolded(rest, Some(lines[|lines| - 1]))
    decreases |lines|
  {
    hide IsMarker, CountOf;
    assert (lines + rest)[0] == lines[0] && (lines + rest)[1..] == lines[1..] + rest;
    if |lines| == 1 {
      assert lines[1..] + rest == rest;
    } else {
      PlainUnfolds(lines[1..], rest, Some(lines[0]));
    }
  }

  lemma {:induction false} FoldedRun(line: string, n: nat, rest: seq<string>, prev: Option<string>)
    requires !IsMarker(line) && IsMarker(Marker(n)) && CountOf(Marker(n)) == n
    ensures Unfolded([line, Marker(n)] + rest, prev) == [line] + (Copies(line, n) + Unfolded(rest, Some(line)))
  {
    var out := [line, Marker(n)] + rest;
    assert out[1..] == [Marker(n)] + rest && out[1..][1..] == rest;
  }

  /** One run read back, given that what follows it is. */
  lemma {:induction false} RunUnfolds(lines: seq<string>, i: nat, e: nat, rest: seq<string>, prev: Option<string>)
    requires i < e <= |lines| && (forall k | 0 <= k < |lines| :: !IsMarker(lines[k])) && forall k | i <= k < e ::
             lines[k] == lines[i]
    requires Unfolded(rest, Some(lines[i])) == lines[e..]
    ensures Unfolded(Run(lines, i, e) + rest, prev) == lines[i..]
  {
    hide Marker, IsMarker, CountOf, TrimSpace, Unfolded;
    assert lines[i..] == lines[i..e] + lines[e..];
    if e - i >= THRESHOLD && TrimSpace(lines[i]) != "" {
      MarkerCount(e - i - 1);
      FoldedRun(lines[i], e - i - 1, rest, prev);
      assert [lines[i]] + Copies(lines[i], e - i - 1) == lines[i..e];
    } else {
      PlainUnfolds(lines[i..e], rest, prev);
    }
  }

  /** If no line looks like a marker, the folded lines stand for exactly the original ones. */
  lemma {:induction false} FoldingIsLossless(lines: seq<string>, i: nat, prev: Option<string>)
    requires i <= |lines| && forall k | 0 <= k < |lines| :: !IsMarker(lines[k])
    ensures Unfolded(Folded(lines, i), prev) == lines[i..]
    decreases |lines| - i
  {
    hide Marker, IsMarker, Run, Unfolded;
    if i == |lines| {
      NothingUnfolds(prev);
    } else {
      var e := RunEnd(lines, i, i + 1);
      FoldingIsLossless(lines, e, Some(lines[i]));
      RunUnfolds(lines, i, e, Folded(lines, e), prev);
    }
  }

  // ---- search hits ----------------------------------------------------------------------------------------

  const SEPARATOR := "--"

  datatype GrepConfig = GrepConfig(max: int, head: nat, tail: nat)

  /** The end of the block that starts at i. */
  function BlockEnd(lines: seq<string>, i: nat): (j: nat)
    requires i <= |lines|
    ensures i <= j <= |lines| && (j < |lines| ==> lines[j] == SEPARATOR) && SEPARATOR !in lines[i..j]
    decreases |lines| - i
  {
    if i == |lines| || lines[i] == SEPARATOR then i
    else
      assert lines[i..BlockEnd(lines, i + 1)] == [lines[i]] + lines[i + 1..BlockEnd(lines, i + 1)];
      BlockEnd(lines, i + 1)
  }

  /** Where the loop stands after k rounds: it goes on from the end of the block. */
  function After(lines: seq<string>, i: nat, k: nat): (j: nat)
    requires i <= |lines|
    ensures i <= j <= |lines|
  {
    if k == 0 then i else BlockEnd(lines, After(lines, i, k - 1))
  }

  ghost predicate Ends(lines: seq<string>, i: nat)
    requires i <= |lines|
  {
    exists k :: After(lines, i, k) == |lines|
  }

  lemma {:induction false} StuckAt(lines: seq<string>, i: nat, k: nat)
    requires i <= |lines| && BlockEnd(lines, i) < |lines|
    ensures After(lines, i, k) <= BlockEnd(lines, i)
  {
    if k > 0 {
      StuckAt(lines, i, k - 1);
      var at := After(lines, i, k - 1);
      EndWithin(lines, i, at);
    }
  }

  lemma {:induction false} EndWithin(lines: seq<string>, i: nat, at: nat)
    requires i <= |lines| && i <= at <= BlockEnd(lines, i)
    ensures BlockEnd(lines, at) == BlockEnd(lines, i)
    decreases at - i
  {
    if i < at { EndWithin(lines, i + 1, at); }
  }

  /** The loop over the blocks ends if and only if it never meets a "--" line (it does not step over
      the separator, agents/slim_text.go:464-484). */
  lemma {:induction false} EndsIff(lines: seq<string>, i: nat)
    requires i <= |lines|
    ensures Ends(lines, i) <==> SEPARATOR !in lines[i..]
  {
    var j := BlockEnd(lines, i);
    if j == |lines| {
      assert lines[i..j] == lines[i..];
      assert After(lines, i, 1) == BlockEnd(lines, After(lines, i, 0));
      assert After(lines, i, 1) == |lines|;
    } else {
      assert lines[i..][j - i] == SEPARATOR;
      forall k ensures After(lines, i, k) != |lines| { StuckAt(lines, i, k); }
    }
  }

  function OmittedNote(n: nat): string {
    "[" + Decimal(n) + " more matches of this file folded: narrow the pattern or the path]"
  }

  function FoldedBlock(block: seq<string>, cfg: GrepConfig): seq<string> {
    if |block| > cfg.max && cfg.head + cfg.tail < |block| then
      block[..cfg.head] + [OmittedNote(|block| - cfg.head - cfg.tail)] + block[|block| - cfg.tail..]
    else block
  }

  method FoldBlock(block: seq<string>, cfg: GrepConfig) returns (kept: seq<string>)
    ensures kept == FoldedBlock(block, cfg)
  {
    hide OmittedNote;
    kept := [];
    var n := |block|;
    if n > cfg.max {
      if cfg.head + cfg.tail >= n {
        kept := kept + block;
      } else {
        kept := kept + block[..cfg.head];
        kept := kept + [OmittedNote(n - cfg.head - cfg.tail)];
        kept := kept + block[n - cfg.tail..];
      }
    } else {
      kept := kept + block;
    }
  }

  /** The loop over the blocks, from the first hit on; None stands for a loop that never ends. */
  method FoldBlocks(lines: seq<string>, start: nat, cfg: GrepConfig) returns (out: Option<seq<string>>)
    requires start <= |lines|
    ensures out == if SEPARATOR in lines[start..] then None
                   else Some(if start < |lines| then FoldedBlock(lines[start..], cfg) else [])
  {
    hide FoldedBlock;
    var kept: seq<string> := [];
    var i := start;
    while i < |lines|
      invariant start <= i <= |lines|
      invariant i < |lines| ==> i == start && kept == []
      invariant i == |lines| ==>
                SEPARATOR !in lines[start..] && kept == if start < |lines| then FoldedBlock(lines[start..], cfg) else []
    {
      var j := i;
      while j < |lines| && lines[j] != SEPARATOR
        invariant i <= j <= |lines| && SEPARATOR !in lines[i..j]
      {
        assert lines[i..j + 1] == lines[i..j] + [lines[j]];
        j := j + 1;
      }
      if j < |lines| {
        // the next round starts at the separator, finds an empty block, and starts there again
        assert lines[start..][j - start] == SEPARATOR;
        return None;
      }
      assert lines[i..j] == lines[start..];
      var block := FoldBlock(lines[i..j], cfg);
      kept := kept + block;
      i := j;
    }
    return Some(kept);
  }

  /** The hits of one search result; `header` is whether its first line is a statistics header.
      None stands for a call that never returns. */
  method FoldPerFileMatches(s: string, cfg: GrepConfig, header: bool) returns (out: Option<string>)
    ensures cfg.max <= 0 ==> out == Some(s)
    ensures cfg.max > 0 ==>
              var (lines, start) := ContentLines(s, header);
              && (out.Some? <==> Ends(lines, start))
              && (out.Some? ==>
                    out.value == Join(lines[..start] +
                                      (if start < |lines| then FoldedBlock(lines[start..], cfg) else []) +
                                      (if TrailingNewline(s) then [""] else []), '\n'))
  {
    if cfg.max <= 0 {
      return Some(s);
    }
    hide Ends, FoldedBlock, Join, Split;
    var lines := Split(s, '\n');
    var trailing := lines[|lines| - 1] == "";
    if trailing {
      lines := lines[..|lines| - 1];
    }
    var start := 0;
    if |lines| > 0 && header {
      start := 1;
    }
    EndsIff(lines, start);
    var hits := FoldBlocks(lines, start, cfg);
    if hits.None? {
      return None;
    }
    var kept := lines[..start] + hits.value;
    if trailing {
      kept := kept + [""];
    } else {
      assert kept + [] == kept;
    }
    return Some(Join(kept, '\n'));
  }

  /** Two hits in different groups, and the call never returns. */
  lemma {:induction false} SeparatedHitsNeverEnd(first: string, second: string, header: bool)
    requires '\n' !in first && '\n' !in second && second != ""
    ensures var (lines, start) := ContentLines(first + "\n--\n" + second, header);
            lines == [first, SEPARATOR, second] && !Ends(lines, start)
  {
    var lines := [first, SEPARATOR, second];
    SplitHits(first, second);
    hide Split;
    var start := ContentLines(first + "\n--\n" + second, header).1;
    EndsIff(lines, start);
    assert lines[start..][1 - start] == SEPARATOR;
  }

  lemma {:induction false} SplitHits(first: string, second: string)
    requires '\n' !in first && '\n' !in second
    ensures Split(first + "\n--\n" + second, '\n') == [first, SEPARATOR, second]
  {
    SplitFirst(first, "--\n" + second);
    SplitFirst("--", second);
    assert first + "\n--\n" + second == first + "\n" + ("--\n" + second);
    assert "--\n" + second == "--" + "\n" + second;
    assert IndexOf(second, '\n').None?;
  }

  lemma {:induction false} SplitFirst(line: string, rest: string)
    requires '\n' !in line
    ensures Split(line + "\n" + rest, '\n') == [line] + Split(rest, '\n')
  {
    var s := line + "\n" + rest;
    IndexIs(s, '\n', |line|);
    assert s[..|line|] == line && s[|line| + 1..] == rest;
  }

  predicate TrailingNewline(s: string) {
    var parts := Split(s, '\n'); parts[|parts| - 1] == ""
  }

  /** The lines of a result without the empty one behind a final newline, and where its hits start. */
  function ContentLines(s: string, header: bool): (r: (seq<string>, nat))
    ensures r.1 <= |r.0|
  {
    var parts := Split(s, '\n');
    var lines := if TrailingNewline(s) then parts[..|parts| - 1] else parts;
    (lines, if |lines| > 0 && header then 1 else 0)
  }
}
