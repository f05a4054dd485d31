/** The line editor that stamps a field into a memory file's frontmatter (memory/stamp.go). */
module Frontmatter {
  import opened Messages
  import opened Strings

  const BOM := '\U{FEFF}'

  predicate IsBlankByte(c: char) { c == ' ' || c == '\t' || c == '\r' }

  /** strings.TrimRight(line, " \t\r"). */
  function TrimEnd(line: string): (t: string)
    ensures t <= line && (t != "" ==> !IsBlankByte(t[|t| - 1]))
  {
    if line != "" && IsBlankByte(line[|line| - 1]) then TrimEnd(line[..|line| - 1]) else line
  }

  function IndentOf(line: string): (indent: string)
    ensures indent <= line
  {
    if line != "" && (line[0] == ' ' || line[0] == '\t') then [line[0]] + IndentOf(line[1..]) else ""
  }

  predicate IsDelimiter(line: string) {
    TrimSpace(line) == "---" || TrimSpace(line) == "..."
  }

  predicate IsBlankLine(line: string) { TrimSpace(line) == "" }

  /** strings.Trim(k, `"'`). */
  function TrimQuotes(k: string): string
    decreases |k|
  {
    if k != "" && (k[0] == '"' || k[0] == '\'') then TrimQuotes(k[1..])
    else if k != "" && (k[|k| - 1] == '"' || k[|k| - 1] == '\'') then TrimQuotes(k[..|k| - 1])
    else k
  }

  predicate IsQuoted(k: string) {
    |k| >= 2 && ((k[0] == '"' && k[|k| - 1] == '"') || (k[0] == '\'' && k[|k| - 1] == '\''))
  }

  /** The scalar key of a line, "" if it has none. */
  function KeyOf(line: string): string {
    var t := TrimSpace(line);
    if t == "" || t[0] == '#' then ""
    else match IndexOf(t, ':')
         case None => ""
         case Some(i) =>
           var k := TrimSpace(t[..i]);
           if i == 0 || k == "" || ((' ' in k || '\t' in k) && !IsQuoted(k)) then "" else TrimQuotes(k)
  }

  datatype Region = Region(open: nat, close: nat)

  function FirstContent(lines: seq<string>, i: nat): (k: nat)
    requires i <= |lines|
    ensures i <= k <= |lines| && (k < |lines| ==> !IsBlankLine(lines[k]))
    ensures forall j | i <= j < k :: IsBlankLine(lines[j])
    decreases |lines| - i
  {
    if i == |lines| || !IsBlankLine(lines[i]) then i else FirstContent(lines, i + 1)
  }

  function NextDelimiter(lines: seq<string>, i: nat): (k: nat)
    requires i <= |lines|
    ensures i <= k <= |lines| && (k < |lines| ==> IsDelimiter(lines[k]))
    ensures forall j | i <= j < k :: !IsDelimiter(lines[j])
    decreases |lines| - i
  {
    if i == |lines| || IsDelimiter(lines[i]) then i else NextDelimiter(lines, i + 1)
  }

  /** Where the frontmatter opens and closes; None unless it does both. */
  function BlockOf(lines: seq<string>): (b: Option<Region>)
    ensures b.Some? ==> b.value.open < b.value.close < |lines|
  {
    var open := FirstContent(lines, 0);
    if open == |lines| || TrimSpace(lines[open]) != "---" then None
    else
      var close := NextDelimiter(lines, open + 1);
      if close == |lines| then None else Some(Region(open, close))
  }

  function WithoutBOM(raw: string): string { if raw != "" && raw[0] == BOM then raw[1..] else raw }
  function BOMOf(raw: string): string { if raw != "" && raw[0] == BOM then [BOM] else "" }

  method FindFrontmatter(raw: string) returns (b: Option<Region>)
    ensures b == BlockOf(Split(WithoutBOM(raw), '\n'))
  {
    var lines := Split(WithoutBOM(raw), '\n');
    var i := 0;
    while i < |lines|
      invariant i <= |lines| && FirstContent(lines, 0) == FirstContent(lines, i)
    {
      if IsBlankLine(lines[i]) {
        i := i + 1;
        continue;
      }
      if TrimSpace(lines[i]) != "---" {
        return None;
      }
      break;
    }
    if i >= |lines| {
      return None;
    }
    var j := i + 1;
    while j < |lines|
      invariant i < j <= |lines| && NextDelimiter(lines, i + 1) == NextDelimiter(lines, j)
    {
      if IsDelimiter(lines[j]) {
        return Some(Region(i, j));
      }
      j := j + 1;
    }
    return None;
  }

  /** Line i is the first of those with the shortest indentation among the lines that are not blank. */
  ghost predicate FirstShortest(lines: seq<string>, i: int) {
    && 0 <= i < |lines| && !IsBlankLine(lines[i])
    && forall j | 0 <= j < |lines| && !IsBlankLine(lines[j]) ::
         |IndentOf(lines[i])| <= |IndentOf(lines[j])| && (j < i ==> |IndentOf(lines[i])| < |IndentOf(lines[j])|)
  }

  /** The indentation of the top-level keys: the shortest, the first of that length. */
  function TopIndent(lines: seq<string>): (indent: Option<string>) {
    if lines == [] then None
    else
      var before, last := TopIndent(lines[..|lines| - 1]), lines[|lines| - 1];
      if IsBlankLine(last) then before
      else if before.None? || |IndentOf(last)| < |before.value| then Some(IndentOf(last))
      else before
  }

  /** `indent` is the shortest indentation of the lines that are not blank, the first of that length;
      empty if all are blank. */
  ghost predicate ShortestIndent(lines: seq<string>, indent: string) {
    if forall i | 0 <= i < |lines| :: IsBlankLine(lines[i]) then indent == ""
    else exists i :: FirstShortest(lines, i) && indent == IndentOf(lines[i])
  }

  lemma {:induction false} IndentIsShortest(lines: seq<string>)
    ensures TopIndent(lines).None? <==> forall i | 0 <= i < |lines| :: IsBlankLine(lines[i])
    ensures TopIndent(lines).Some? ==>
            exists i :: FirstShortest(lines, i) && TopIndent(lines).value == IndentOf(lines[i])
    ensures ShortestIndent(lines, Indent(lines))
  {
    hide IsBlankLine, IndentOf;
    if lines != [] {
      var n := |lines| - 1;
      IndentIsShortest(lines[..n]);
      if !IsBlankLine(lines[n]) &&
         (TopIndent(lines[..n]).None? || |IndentOf(lines[n])| < |TopIndent(lines[..n]).value|) {
        forall j | 0 <= j < n && !IsBlankLine(lines[j]) ensures |IndentOf(lines[n])| < |IndentOf(lines[j])| {
          assert lines[..n][j] == lines[j];
        }
        assert FirstShortest(lines, n);
      } else if TopIndent(lines[..n]).Some? {
        var i :| FirstShortest(lines[..n], i) && TopIndent(lines[..n]).value == IndentOf(lines[..n][i]);
        forall j | 0 <= j < n && !IsBlankLine(lines[j])
          ensures |IndentOf(lines[i])| <= |IndentOf(lines[j])| &&
                  (j < i ==> |IndentOf(lines[i])| < |IndentOf(lines[j])|)
        {
          assert lines[..n][j] == lines[j];
        }
        assert FirstShortest(lines, i);
      }
    }
  }

  function Indent(lines: seq<string>): string {
    match TopIndent(lines) case None => "" case Some(s) => s
  }

  method FrontmatterIndent(lines: seq<string>) returns (indent: string)
    ensures indent == Indent(lines)
    ensures ShortestIndent(lines, indent)
  {
    hide ShortestIndent;
    IndentIsShortest(lines);
    indent := "";
    var found := false;
    for i := 0 to |lines|
      invariant TopIndent(lines[..i]) == if found then Some(indent) else None
      invariant !found ==> indent == ""
    {
      assert lines[..i + 1][..i] == lines[..i];
      if IsBlankLine(lines[i]) {
        continue;
      }
      var cur := IndentOf(lines[i]);
      if !found || |cur| < |indent| {
        indent, found := cur, true;
      }
    }
    assert lines[..|lines|] == lines;
  }

  predicate IsKeyLine(line: string, indent: string, key: string) {
    !IsBlankLine(line) && IndentOf(line) == indent && KeyOf(line) == key
  }

  /** The first top-level line with the key before `close`; `close` if there is none. */
  function KeyLine(lines: seq<string>, i: nat, close: nat, indent: string, key: string): (k: nat)
    requires i <= close <= |lines|
    ensures i <= k <= close && (k < close ==> IsKeyLine(lines[k], indent, key))
    ensures forall j | i <= j < k :: !IsKeyLine(lines[j], indent, key)
    decreases close - i
  {
    if i == close || IsKeyLine(lines[i], indent, key) then i else KeyLine(lines, i + 1, close, indent, key)
  }

  /** The edited lines, and whether anything changed. */
  function Edited(lines: seq<string>, b: Region, key: string, value: string): (seq<string>, bool)
    requires b.open < b.close < |lines|
  {
    var indent := Indent(lines[b.open + 1..b.close]);
    var line := indent + key + ": " + value;
    var k := KeyLine(lines, b.open + 1, b.close, indent, key);
    if k == b.close then (lines[..k] + [TrimEnd(line)] + lines[k..], true)
    else if TrimEnd(lines[k]) == TrimEnd(line) then (lines, false)
    else (lines[k := line], true)
  }

  function Stamped(raw: string, key: string, value: string): (string, bool) {
    var lines := Split(WithoutBOM(raw), '\n');
    match BlockOf(lines)
    case None => (raw, false)
    case Some(b) =>
      var (out, changed) := Edited(lines, b, key, value);
      if changed then (BOMOf(raw) + Join(out, '\n'), true) else (raw, false)
  }

  method SetFrontmatterField(raw: string, key: string, value: string) returns (out: string, changed: bool)
    ensures (out, changed) == Stamped(raw, key, value)
  {
    hide BlockOf, Indent, KeyOf, IndentOf, IsBlankLine, ShortestIndent, TrimEnd, Split, Join, WithoutBOM, BOMOf;
    var lines := Split(WithoutBOM(raw), '\n');
    var b := FindFrontmatter(raw);
    if b.None? {
      return raw, false;
    }
    var close := b.value.close;
    var indent := FrontmatterIndent(lines[b.value.open + 1..close]);
    var newLine := indent + key + ": " + value;
    var i := b.value.open + 1;
    while i < close
      invariant b.value.open < i <= close
      invariant KeyLine(lines, b.value.open + 1, close, indent, key) == KeyLine(lines, i, close, indent, key)
    {
      if IsBlankLine(lines[i]) {
        i := i + 1;
        continue;
      }
      if IndentOf(lines[i]) != indent {
        i := i + 1;
        continue;
      }
      if KeyOf(lines[i]) != key {
        i := i + 1;
        continue;
      }
      if TrimEnd(lines[i]) == TrimEnd(newLine) {
        return raw, false;
      }
      assert lines[..i] + [newLine] + lines[i + 1..] == lines[i := newLine];
      return BOMOf(raw) + Join(lines[..i] + [newLine] + lines[i + 1..], '\n'), true;
    }
    return BOMOf(raw) + Join(lines[..close] + [TrimEnd(newLine)] + lines[close..], '\n'), true;
  }
}
