/** Listing a memory file (memory/list.go frontmatterFields, listedFile), and the reader against the
    writer: what is stamped is what is listed. */
module MemoryList {
  import opened Messages
  import opened Strings
  import opened Frontmatter
  import opened FrontmatterTheorems

  predicate IsCut(c: char) { c == BOM || c == ' ' || c == '\t' || c == '\r' || c == '\n' }

  function TrimLeftCut(s: string): string { if s != "" && IsCut(s[0]) then TrimLeftCut(s[1..]) else s }

  /** strings.Index. */
  function IndexOfText(s: string, sub: string): (i: Option<nat>)
    ensures i.Some? ==> i.value <= |s|
  {
    if sub <= s then Some(0)
    else if s == "" then None
    else match IndexOfText(s[1..], sub) case None => None case Some(i) => Some(i + 1)
  }

  /** A flat `key: value` line; nested items and comments are passed over. */
  function FieldOf(line: string): Option<(string, string)> {
    var l := TrimEnd(line);
    if l != "" && (l[0] == ' ' || l[0] == '\t' || l[0] == '#') then None
    else match IndexOf(l, ':')
         case None => None
         case Some(i) =>
           var k := TrimSpace(l[..i]);
           if k == "" then None else Some((k, TrimQuotes(TrimSpace(l[i + 1..]))))
  }

  function FieldsIn(lines: seq<string>): seq<(string, string)> {
    if lines == [] then []
    else FieldsIn(lines[..|lines| - 1]) + match FieldOf(lines[|lines| - 1]) case Some(f) => [f] case None => []
  }

  /** The lines between the opening "---" and the first line that starts with "---". */
  function BlockLines(body: string): seq<string> {
    var s := TrimLeftCut(body);
    if !("---" <= s) then []
    else match IndexOfText(s[3..], "\n---")
         case None => []
         case Some(end) => Split(s[3..][..end], '\n')
  }

  method FrontmatterFields(body: string) returns (fields: seq<(string, string)>)
    ensures fields == FieldsIn(BlockLines(body))
  {
    hide TrimQuotes, TrimSpace, IndexOfText, TrimLeftCut, Split;
    fields := [];
    var s := TrimLeftCut(body);
    if !("---" <= s) {
      return;
    }
    var rest := s[3..];
    var end := IndexOfText(rest, "\n---");
    if end.None? {
      return;
    }
    var lines := Split(rest[..end.value], '\n');
    for i := 0 to |lines|
      invariant fields == FieldsIn(lines[..i])
    {
      assert lines[..i + 1][..i] == lines[..i];
      var line := TrimEnd(lines[i]);
      if " " <= line || "\t" <= line || "#" <= line {
        continue;
      }
      var at := IndexOf(line, ':');
      if at.None? {
        continue;
      }
      var k := TrimSpace(line[..at.value]);
      if k == "" {
        continue;
      }
      fields := fields + [(k, TrimQuotes(TrimSpace(line[at.value + 1..])))];
    }
    assert lines[..|lines|] == lines;
  }

  /** The first non-empty value of a key. */
  function FirstValue(fields: seq<(string, string)>, key: string): string {
    if fields == [] then ""
    else if fields[0].0 == key && fields[0].1 != "" then fields[0].1
    else FirstValue(fields[1..], key)
  }

  const MODIFIED := "modified"
  const TYPE := "type"

  method ListedFile(raw: string) returns (kind: string, modified: string)
    ensures kind == FirstValue(FieldsIn(BlockLines(raw)), TYPE)
    ensures modified == FirstValue(FieldsIn(BlockLines(raw)), MODIFIED)
  {
    var fields := FrontmatterFields(raw);
    kind, modified := "", "";
    for i := 0 to |fields|
      invariant FirstValue(fields, TYPE) == if kind != "" then kind else FirstValue(fields[i..], TYPE)
      invariant FirstValue(fields, MODIFIED) == if modified != "" then modified else FirstValue(fields[i..], MODIFIED)
    {
      assert fields[i..][0] == fields[i] && fields[i..][1..] == fields[i + 1..];
      if fields[i].0 == TYPE {
        if kind == "" { kind := fields[i].1; }
      } else if fields[i].0 == MODIFIED {
        if modified == "" { modified := fields[i].1; }
      }
    }
  }

  // ---- the reader finds the block the writer edits --------------------------------------------------

  predicate AllCut(s: string) { forall i | 0 <= i < |s| :: IsCut(s[i]) }

  /** A block both sides agree on: flush left between lines that start with "---". */
  predicate Flush(lines: seq<string>, r: Region) {
    && r.open < r.close < |lines|
    && (forall j | 0 <= j < r.open :: AllCut(lines[j]))
    && "---" <= lines[r.open] && "---" <= lines[r.close]
    && (forall j | r.open < j < r.close :: !("---" <= lines[j]))
    && Indent(lines[r.open + 1..r.close]) == ""
  }

  lemma {:induction false} CutPrefix(a: string, b: string)
    requires AllCut(a) && b != "" && !IsCut(b[0])
    ensures TrimLeftCut(a + b) == b
  {
    if a == "" {
      assert a + b == b;
    } else {
      assert (a + b)[1..] == a[1..] + b;
      CutPrefix(a[1..], b);
    }
  }

  lemma {:induction false} LeadingLinesCut(lines: seq<string>, open: nat, prefix: string)
    requires open < |lines| && AllCut(prefix) && (forall j | 0 <= j < open :: AllCut(lines[j]))
    requires lines[open] != "" && !IsCut(lines[open][0])
    ensures TrimLeftCut(prefix + Join(lines, '\n')) == Join(lines[open..], '\n')
    decreases open
  {
    if open == 0 {
      assert lines[0..] == lines;
      CutPrefix(prefix, Join(lines, '\n'));
    } else {
      var next := prefix + lines[0] + "\n";
      assert prefix + Join(lines, '\n') == next + Join(lines[1..], '\n');
      LeadingLinesCut(lines[1..], open - 1, next);
      assert lines[1..][open - 1..] == lines[open..];
    }
  }

  lemma {:induction false} SkipLine(line: string, rest: string)
    requires '\n' !in line
    ensures IndexOfText(line + rest, "\n---") ==
            match IndexOfText(rest, "\n---") case None => None case Some(i) => Some(|line| + i)
  {
    if line == "" {
      assert line + rest == rest;
    } else {
      assert (line + rest)[0] == line[0] && (line + rest)[1..] == line[1..] + rest;
      SkipLine(line[1..], rest);
    }
  }

  /** The first line that starts with "---" is where the reader stops. */
  lemma {:induction false} FirstMark(a: seq<string>, close: string)
    requires a != [] && "---" <= close
    requires forall i | 0 <= i < |a| :: '\n' !in a[i]
    requires forall i | 1 <= i < |a| :: !("---" <= a[i])
    ensures IndexOfText(Join(a, '\n') + "\n" + close, "\n---") == Some(|Join(a, '\n')|)
    decreases |a|
  {
    if |a| == 1 {
      assert "\n---" <= "\n" + close;
      SkipLine(a[0], "\n" + close);
      assert Join(a, '\n') + "\n" + close == a[0] + ("\n" + close);
    } else {
      var tail := Join(a[1..], '\n') + "\n" + close;
      FirstMark(a[1..], close);
      assert Join(a, '\n') + "\n" + close == a[0] + ("\n" + tail);
      SkipLine(a[0], "\n" + tail);
      NoMarkHere(a[1..], close);
      assert ("\n" + tail)[1..] == tail;
    }
  }

  lemma {:induction false} NoMarkHere(a: seq<string>, close: string)
    requires a != [] && !("---" <= a[0]) && '\n' !in a[0]
    ensures !("\n---" <= "\n" + (Join(a, '\n') + "\n" + close))
  {
    var tail := Join(a, '\n') + "\n" + close;
    var more := if |a| == 1 then close else Join(a[1..], '\n') + "\n" + close;
    assert tail == a[0] + ("\n" + more);
    var x, n := "\n" + tail, |a[0]|;
    if n < 3 {
      assert x[1 + n] == '\n' && "\n---"[1 + n] == '-';
    } else {
      assert x[1..4] == a[0][..3] && "\n---"[1..4] == "---";
    }
  }

  lemma {:induction false} JoinAppend(a: seq<string>, b: seq<string>)
    requires a != [] && b != []
    ensures Join(a + b, '\n') == Join(a, '\n') + "\n" + Join(b, '\n')
    decreases |a|
  {
    if |a| == 1 {
      assert (a + b)[1..] == b;
    } else {
      assert (a + b)[1..] == a[1..] + b;
      JoinAppend(a[1..], b);
    }
  }

  lemma {:induction false} ReaderSeesBlock(lines: seq<string>, r: Region, prefix: string)
    requires Flush(lines, r) && AllCut(prefix) && forall i | 0 <= i < |lines| :: '\n' !in lines[i]
    ensures BlockLines(prefix + Join(lines, '\n')) == [lines[r.open][3..]] + lines[r.open + 1..r.close]
  {
    LeadingLinesCut(lines, r.open, prefix);
    var from := lines[r.open..];
    var s := Join(from, '\n');
    var a := [lines[r.open][3..]] + lines[r.open + 1..r.close];
    var b := lines[r.close..];
    FirstThree(from, a + b);
    JoinAppend(a, b);
    StartsWith(b);
    forall i | 0 <= i < |a| ensures '\n' !in a[i] {
      if i == 0 { assert forall c | c in lines[r.open][3..] :: c in lines[r.open]; }
    }
    forall i | 1 <= i < |a| ensures !("---" <= a[i]) {
      assert a[i] == lines[r.open + i];
    }
    FirstMark(a, Join(b, '\n'));
    SplitJoin(a, '\n');
    assert s[3..] == Join(a, '\n') + "\n" + Join(b, '\n');
    assert s[3..][..|Join(a, '\n')|] == Join(a, '\n');
  }

  lemma {:induction false} FirstThree(from: seq<string>, cut: seq<string>)
    requires from != [] && "---" <= from[0] && |cut| == |from| && cut == [from[0][3..]] + from[1..]
    ensures "---" <= Join(from, '\n') && Join(from, '\n')[3..] == Join(cut, '\n')
  {
    if |from| > 1 {
      assert cut[1..] == from[1..];
      assert Join(from, '\n') == from[0] + (['\n'] + Join(from[1..], '\n'));
      assert Join(cut, '\n') == from[0][3..] + (['\n'] + Join(from[1..], '\n'));
    }
  }

  lemma {:induction false} StartsWith(lines: seq<string>)
    requires lines != [] && "---" <= lines[0]
    ensures "---" <= Join(lines, '\n')
  {
    assert lines[0] <= Join(lines, '\n');
  }

  // ---- what a line means to both sides ------------------------------------------------------------------

  predicate Digits(s: string, i: nat, j: nat)
    requires i <= j <= |s|
  {
    forall k | i <= k < j :: IsDigit(s[k])
  }

  /** A date-time as section 5.6 of RFC 3339 prints it, without fractions of a second. */
  predicate IsTimestamp(v: string) {
    && |v| >= 20 && Digits(v, 0, 4) && v[4] == '-' && Digits(v, 5, 7) && v[7] == '-' && Digits(v, 8, 10) && v[10] == 'T'
    && Digits(v, 11, 13) && v[13] == ':' && Digits(v, 14, 16) && v[16] == ':' && Digits(v, 17, 19)
    && ((|v| == 20 && v[19] == 'Z') ||
        (|v| == 25 && (v[19] == '+' || v[19] == '-') && Digits(v, 20, 22) && v[22] == ':' && Digits(v, 23, 25)))
  }

  predicate IsQuote(c: char) { c == '"' || c == '\'' }

  predicate PlainValue(v: string) {
    v != "" && OneLine(v) && !IsSpace(v[0]) && !IsSpace(v[|v| - 1]) && !IsQuote(v[0]) && !IsQuote(v[|v| - 1])
  }

  lemma {:induction false} TimestampIsPlain(v: string)
    requires IsTimestamp(v)
    ensures PlainValue(v)
  {
    forall i | 0 <= i < |v| ensures v[i] != '\n' {
      assert IsDigit(v[i]) || v[i] == '-' || v[i] == 'T' || v[i] == ':' || v[i] == 'Z' || v[i] == '+';
    }
  }

  lemma {:induction false} PlainStays(v: string)
    requires PlainValue(v)
    ensures TrimEnd(v) == v && TrimSpace(" " + v) == v && TrimQuotes(v) == v
  {
    TrimLeftStops(" ", v);
  }

  lemma {:induction false} TrimEndKeeps(line: string)
    requires line != "" && !IsBlankByte(line[|line| - 1])
    ensures TrimEnd(line) == line
  {
  }

  /** The reader takes key and value from the line the writer wrote. */
  lemma {:induction false} WrittenField(key: string, value: string, line: string)
    requires PlainKey(key) && PlainValue(value) && TrimEnd(line) == TrimEnd(key + ": " + value)
    ensures FieldOf(line) == Some((key, value))
  {
    var l := key + ": " + value;
    assert l[|l| - 1] == value[|value| - 1];
    TrimEndKeeps(l);
    assert l[..|key|] == key && l[|key|] == ':' && l[|key| + 1..] == " " + value;
    assert key[0] in key;
    IndexIs(l, ':', |key|);
    KeyIsBare(key);
    PlainStays(value);
  }

  lemma {:induction false} TrimLeftIsSuffix(s: string) returns (n: nat)
    ensures n <= |s| && TrimLeft(s) == s[n..] && (forall i | 0 <= i < n :: IsSpace(s[i])) &&
            (n < |s| ==> !IsSpace(s[n]))
  {
    if s != "" && IsSpace(s[0]) {
      var m := TrimLeftIsSuffix(s[1..]);
      n := m + 1;
      assert s[1..][m..] == s[n..];
      forall i | 0 <= i < n ensures IsSpace(s[i]) {
        if i > 0 { assert s[i] == s[1..][i - 1]; }
      }
    } else {
      n := 0;
      assert s[0..] == s;
    }
  }

  lemma {:induction false} TrimRightIsPrefix(s: string)
    ensures TrimRight(s) <= s
  {
    if s != "" && IsSpace(s[|s| - 1]) { TrimRightIsPrefix(s[..|s| - 1]); }
  }

  /** A line the reader takes for the key is a top-level line with that key to the writer. */
  lemma {:induction false} FieldIsKeyLine(line: string, key: string)
    requires PlainKey(key) && FieldOf(line).Some? && FieldOf(line).value.0 == key
    ensures IsKeyLine(line, "", key)
  {
    var l := TrimEnd(line);
    var i := IndexOf(l, ':').value;
    hide TrimQuotes, IndexOf;
    assert line[..i] == l[..i];
    var x := TrimmedHead(line, i, key);
    var t := TrimSpace(line);
    IndexIs(t, ':', |x|);
    KeyIsBare(key);
    assert ' ' !in key && '\t' !in key;
    assert key[0] in key && t[0] == key[0];
    assert line[0] == l[0];
  }

  /** The part in front of a colon, seen in the line as it is and in the trimmed line. */
  lemma {:induction false} TrimmedHead(line: string, i: nat, key: string) returns (x: string)
    requires i < |line| && line[i] == ':' && ':' !in line[..i] && PlainKey(key) && TrimSpace(line[..i]) == key
    ensures var t := TrimSpace(line);
            && |x| < |t| && t[..|x|] == x && t[|x|] == ':' && ':' !in x && x != "" && x[0] == key[0] &&
               TrimSpace(x) == key
  {
    var n := TrimLeftIsSuffix(line[..i]);
    x := line[..i][n..];
    TrimRightIsPrefix(x);
    assert key <= x && key[0] == x[0] == line[n] && key[0] in key;
    assert line == line[..n] + line[n..];
    TrimLeftStops(line[..n], line[n..]);
    assert line[n..][i - n] == line[i];
    TrimRightReaches(line[n..], i - n);
    var t := TrimSpace(line);
    assert t[..i - n] == line[n..][..i - n] == x;
    assert t[i - n] == line[n..][i - n];
    assert TrimLeft(x) == x;
  }

  lemma {:induction false} OpenerHasNoField(line: string)
    requires "---" <= line && TrimSpace(line) == "---"
    ensures FieldOf(line[3..]) == None
  {
    var rest := line[3..];
    if ':' in rest {
      var i :| 0 <= i < |rest| && rest[i] == ':';
      assert line[i + 3] == ':';
      TrimRightReaches(line, i + 3);
    }
    assert ':' !in TrimEnd(rest);
    NoIndex(TrimEnd(rest), ':');
  }

  lemma {:induction false} FirstValueConcat(a: seq<(string, string)>, b: seq<(string, string)>, key: string)
    ensures FirstValue(a + b, key) == if FirstValue(a, key) != "" then FirstValue(a, key) else FirstValue(b, key)
  {
    if a == [] {
      assert a + b == b;
    } else {
      assert (a + b)[1..] == a[1..] + b;
      FirstValueConcat(a[1..], b, key);
    }
  }

  lemma {:induction false} NoneBefore(lines: seq<string>, key: string)
    requires forall j | 0 <= j < |lines| :: FieldOf(lines[j]).Some? ==> FieldOf(lines[j]).value.0 != key
    ensures FirstValue(FieldsIn(lines), key) == ""
  {
    hide FieldOf;
    if lines != [] {
      var n := |lines| - 1;
      NoneBefore(lines[..n], key);
      var last := match FieldOf(lines[n]) case Some(f) => [f] case None => [];
      FirstValueConcat(FieldsIn(lines[..n]), last, key);
      assert last != [] ==> last[1..] == [];
    }
  }

  lemma {:induction false} FirstAt(lines: seq<string>, k: nat, key: string, value: string)
    requires k < |lines| && FieldOf(lines[k]) == Some((key, value)) && value != ""
    requires forall j | 0 <= j < k :: FieldOf(lines[j]).Some? ==> FieldOf(lines[j]).value.0 != key
    ensures FirstValue(FieldsIn(lines), key) == value
    decreases |lines|
  {
    hide FieldOf;
    var n := |lines| - 1;
    var last := match FieldOf(lines[n]) case Some(f) => [f] case None => [];
    assert FieldsIn(lines) == FieldsIn(lines[..n]) + last;
    assert last != [] ==> last[1..] == [];
    if k == n {
      NoneBefore(lines[..n], key);
    } else {
      FirstAt(lines[..n], k, key, value);
    }
    FirstValueConcat(FieldsIn(lines[..n]), last, key);
  }

  // ---- the round trip ------------------------------------------------------------------------------------

  lemma {:induction false} OpenerText(lines: seq<string>, r: Region)
    requires BlockOf(lines) == Some(r)
    ensures TrimSpace(lines[r.open]) == "---"
  {
  }

  /** A flush block whose key line is the written one lists the written value. */
  lemma {:induction false} ListedFromLines(lines: seq<string>, r: Region, prefix: string, key: string, value: string)
    requires Holds(lines, r, key, value) && AllCut(prefix) && PlainKey(key) && PlainValue(value)
    requires forall i | 0 <= i < |lines| :: '\n' !in lines[i]
    ensures FirstValue(FieldsIn(BlockLines(prefix + Join(lines, '\n'))), key) == value
  {
    hide IsDelimiter, IsBlankLine, KeyOf, IndentOf, FirstValue, TrimEnd, TrimQuotes, BlockOf, FieldOf, IsKeyLine,
         PlainKey;
    var k := KeyLine(lines, r.open + 1, r.close, "", key);
    ReaderSeesBlock(lines, r, prefix);
    var block := [lines[r.open][3..]] + lines[r.open + 1..r.close];
    WrittenField(key, value, lines[k]);
    OpenerText(lines, r);
    OpenerHasNoField(lines[r.open]);
    forall j | 0 <= j < k - r.open && FieldOf(block[j]).Some? ensures FieldOf(block[j]).value.0 != key {
      assert j > 0 && block[j] == lines[r.open + j] && !IsKeyLine(lines[r.open + j], "", key);
      if FieldOf(block[j]).value.0 == key { FieldIsKeyLine(block[j], key); }
    }
    assert block[k - r.open] == lines[k];
    FirstAt(block, k - r.open, key, value);
  }

  lemma {:induction false} NoDashes(line: string, key: string)
    requires key != "" && key[0] != '-' && line != "" && line[0] == key[0]
    ensures !("---" <= line)
  {
    assert "---"[0] == '-';
  }

  lemma {:induction false} InsertedFlush(lines: seq<string>, r: Region, line: string)
    requires Flush(lines, r) && !("---" <= line)
    requires var out := lines[..r.close] + [line] + lines[r.close..]; Indent(out[r.open + 1..r.close + 1]) == ""
    ensures Flush(lines[..r.close] + [line] + lines[r.close..], Region(r.open, r.close + 1))
  {
    hide Indent, AllCut;
    var out := lines[..r.close] + [line] + lines[r.close..];
    assert forall j | 0 <= j < r.close :: out[j] == lines[j];
    assert out[r.close + 1] == lines[r.close];
  }

  lemma {:induction false} ReplacedFlush(lines: seq<string>, r: Region, k: nat, line: string)
    requires Flush(lines, r) && !("---" <= line) && r.open < k < r.close &&
             Indent(lines[k := line][r.open + 1..r.close]) == ""
    ensures Flush(lines[k := line], r)
  {
    hide Indent, AllCut;
  }

  /** The key line of a flush block holds the value. */
  ghost predicate Holds(lines: seq<string>, r: Region, key: string, value: string) {
    && r.open < r.close < |lines| && BlockOf(lines) == Some(r) && Flush(lines, r)
    && var k := KeyLine(lines, r.open + 1, r.close, "", key);
       k < r.close && TrimEnd(lines[k]) == TrimEnd(key + ": " + value)
  }

  lemma {:induction false} FlushIndent(lines: seq<string>, r: Region)
    requires Flush(lines, r)
    ensures r.open < r.close < |lines| && Indent(lines[r.open + 1..r.close]) == ""
  {
  }

  lemma {:induction false} InsertedHolds(lines: seq<string>, r: Region, key: string, value: string)
    requires BlockOf(lines) == Some(r) && Flush(lines, r) && PlainKey(key) && key[0] != '-'
    requires KeyLine(lines, r.open + 1, r.close, "", key) == r.close
    ensures Holds(lines[..r.close] + [TrimEnd(key + ": " + value)] + lines[r.close..], Region(r.open, r.close + 1), key,
                  value)
  {
    FlushIndent(lines, r);
    hide IsDelimiter, IsBlankLine, KeyOf, IndentOf, BlockOf, Indent, TrimSpace, Flush, TrimEnd, IsKeyLine, PlainKey,
         KeyLine;
    var line := key + ": " + value;
    FlushLine(key, value);
    TrimEndAgain(line);
    NoDashes(TrimEnd(line), key);
    InsertedBlock(lines, r, TrimEnd(line), "", key);
    InsertedFlush(lines, r, TrimEnd(line));
    assert (lines[..r.close] + [TrimEnd(line)] + lines[r.close..])[r.close] == TrimEnd(line);
  }

  lemma {:induction false} ReplacedHolds(lines: seq<string>, r: Region, k: nat, key: string, value: string)
    requires BlockOf(lines) == Some(r) && Flush(lines, r) && PlainKey(key) && key[0] != '-'
    requires KeyLine(lines, r.open + 1, r.close, "", key) == k < r.close
    ensures Holds(lines[k := key + ": " + value], r, key, value)
  {
    var line := key + ": " + value;
    FlushLine(key, value);
    hide IsDelimiter, IsBlankLine, KeyOf, IndentOf, BlockOf, Indent, TrimSpace, Flush, TrimEnd, IsKeyLine;
    NoDashes(line, key);
    ReplacedBlock(lines, r, k, line, "", key);
    ReplacedFlush(lines, r, k, line);
  }

  lemma {:induction false} KeptHolds(lines: seq<string>, r: Region, key: string, value: string)
    requires BlockOf(lines) == Some(r) && Flush(lines, r)
    requires var k := KeyLine(lines, r.open + 1, r.close, "", key);
             k < r.close && TrimEnd(lines[k]) == TrimEnd(key + ": " + value)
    ensures Holds(lines, r, key, value)
  {
  }

  ghost predicate StampHolds(lines: seq<string>, r: Region, key: string, value: string)
    requires r.open < r.close < |lines|
  {
    var out := Edited(lines, r, key, value).0;
    |lines| <= |out| && Holds(out, Region(r.open, r.close + |out| - |lines|), key, value)
  }

  lemma {:induction false} StampAs(lines: seq<string>, r: Region, key: string, value: string, out: seq<string>,
                                   close: nat)
    requires r.open < r.close < |lines| && Edited(lines, r, key, value).0 == out &&
             close + |lines| == r.close + |out| && |lines| <= |out|
    requires Holds(out, Region(r.open, close), key, value)
    ensures StampHolds(lines, r, key, value)
  {
    hide Edited, Holds;
  }

  /** Stamping keeps a block flush. */
  lemma {:induction false} StampedIsFlush(lines: seq<string>, r: Region, key: string, value: string)
    requires BlockOf(lines) == Some(r) && Flush(lines, r) && PlainKey(key) && key[0] != '-'
    ensures StampHolds(lines, r, key, value)
  {
    hide Edited, BlockOf, Flush, PlainKey, TrimEnd, KeyLine, Holds, Indent, StampHolds;
    EditedFlushLeft(lines, r, key, value);
    var k := KeyLine(lines, r.open + 1, r.close, "", key);
    var line := key + ": " + value;
    if k == r.close {
      InsertedHolds(lines, r, key, value);
      StampAs(lines, r, key, value, lines[..k] + [TrimEnd(line)] + lines[k..], r.close + 1);
    } else if TrimEnd(lines[k]) != TrimEnd(line) {
      ReplacedHolds(lines, r, k, key, value);
      StampAs(lines, r, key, value, lines[k := line], r.close);
    } else {
      KeptHolds(lines, r, key, value);
      StampAs(lines, r, key, value, lines, r.close);
    }
  }

  lemma {:induction false} FlushLine(key: string, value: string)
    requires PlainKey(key)
    ensures var line := key + ": " + value;
            && line != "" && line[0] == key[0] && TrimEnd(line) != "" && TrimEnd(line)[0] == key[0] && key != ""
            && IsKeyLine(line, "", key) && !IsDelimiter(line)
            && IsKeyLine(TrimEnd(line), "", key) && !IsDelimiter(TrimEnd(line))
  {
    hide IsKeyLine, IsDelimiter, TrimEnd;
    TrimEndReaches(key + ": " + value, |key|);
    WrittenLine("", key, value);
    assert "" + key + ": " + value == key + ": " + value;
  }

  lemma {:induction false} EditedFlushLeft(lines: seq<string>, r: Region, key: string, value: string)
    requires r.open < r.close < |lines| && Flush(lines, r) && PlainKey(key)
    ensures var line := key + ": " + value;
            var k := KeyLine(lines, r.open + 1, r.close, "", key);
            && Edited(lines, r, key, value).0 ==
               if k == r.close then lines[..k] + [TrimEnd(line)] + lines[k..]
               else if TrimEnd(lines[k]) == TrimEnd(line) then lines else lines[k := line]
  {
    hide TrimEnd, KeyLine, Indent;
    var line := key + ": " + value;
    assert "" + key + ": " + value == line;
  }

  /** What is stamped into a flush block is what the listing shows. */
  lemma {:induction false} ListedIsStamped(raw: string, r: Region, stamp: string)
    requires BlockOf(Split(WithoutBOM(raw), '\n')) == Some(r) && Flush(Split(WithoutBOM(raw), '\n'), r) &&
             IsTimestamp(stamp)
    ensures FirstValue(FieldsIn(BlockLines(Stamped(raw, MODIFIED, stamp).0)), MODIFIED) == stamp
  {
    ModifiedIsPlain();
    TimestampIsPlain(stamp);
    ListedIsWritten(raw, r, MODIFIED, stamp);
  }

  lemma {:induction false} ModifiedIsPlain()
    ensures PlainKey(MODIFIED) && MODIFIED[0] != '-'
  {
  }

  lemma {:induction false} ListedIsWritten(raw: string, r: Region, key: string, stamp: string)
    requires BlockOf(Split(WithoutBOM(raw), '\n')) == Some(r) && Flush(Split(WithoutBOM(raw), '\n'), r)
    requires PlainValue(stamp) && PlainKey(key) && key[0] != '-'
    ensures FirstValue(FieldsIn(BlockLines(Stamped(raw, key, stamp).0)), key) == stamp
  {
    hide Split, BlockOf, Flush, Holds, Edited, FieldsIn, FirstValue, BlockLines, KeyLine, PlainKey, Join;
    var lines := Split(WithoutBOM(raw), '\n');
    StampedIsFlush(lines, r, key, stamp);
    SplitParts(WithoutBOM(raw), '\n');
    EditedHasNoNewline(lines, r, key, stamp);
    JoinSplit(WithoutBOM(raw), '\n');
    var edited := Edited(lines, r, key, stamp).0;
    ListedFromLines(edited, Region(r.open, r.close + |edited| - |lines|), BOMOf(raw), key, stamp);
    if !Stamped(raw, key, stamp).1 {
      UnchangedLines(lines, r, key, stamp);
      assert raw == BOMOf(raw) + Join(lines, '\n');
    }
  }

  // ---- lines and blocks of other hands -----------------------------------------------------------------

  /** White space around the colon and quotes around the value do not matter. */
  lemma {:induction false} FieldMeans(key: string, gap: string, space: string, quote: string, value: string)
    requires PlainKey(key) && PlainValue(value) && AllSpace(gap) && AllSpace(space)
    requires quote == "" || quote == "\"" || quote == "'"
    ensures FieldOf(key + gap + ":" + space + quote + value + quote) == Some((key, value))
  {
    hide TrimLeft, TrimRight, TrimQuotes, TrimEnd, IndexOf;
    var v := quote + value + quote;
    var head := key + gap;
    var line := key + gap + ":" + space + quote + value + quote;
    QuotedValue(quote, value);
    TrimEndKeeps(line);
    assert key[0] in key && key[|key| - 1] in key;
    assert line == head + ":" + (space + v) && ':' !in head;
    assert line[..|head|] == head && line[|head|] == ':' && line[|head| + 1..] == space + v;
    IndexIs(line, ':', |head|);
    assert "" + key + gap == head;
    TrimmedTo("", key, gap);
    assert space + v + "" == space + v;
    TrimmedTo(space, v, "");
    assert line[0] == key[0];
  }

  lemma {:induction false} QuotedValue(quote: string, value: string)
    requires PlainValue(value) && (quote == "" || quote == "\"" || quote == "'")
    ensures var v := quote + value + quote;
            TrimQuotes(v) == value && v != "" && !IsSpace(v[0]) && !IsSpace(v[|v| - 1])
  {
    var v := quote + value + quote;
    if quote == "" {
      assert v == value;
    } else {
      assert v[1..] == value + quote && (value + quote)[..|value|] == value;
      assert TrimQuotes(v) == TrimQuotes(value + quote) == TrimQuotes(value);
    }
  }

  lemma {:induction false} NoMarkInside(a: seq<string>)
    requires a != [] && !("---" <= a[0]) && '\n' !in a[0]
    ensures !("\n---" <= "\n" + Join(a, '\n'))
  {
    var more := if |a| == 1 then "" else "\n" + Join(a[1..], '\n');
    assert Join(a, '\n') == a[0] + more;
    var x, n := "\n" + Join(a, '\n'), |a[0]|;
    if n < 3 {
      if 1 + n < |x| { assert x[1 + n] == '\n' && "\n---"[1 + n] == '-'; }
    } else {
      assert x[1..4] == a[0][..3] && "\n---"[1..4] == "---";
    }
  }

  lemma {:induction false} NoMark(a: seq<string>)
    requires a != [] && forall i | 0 <= i < |a| :: '\n' !in a[i]
    requires forall i | 1 <= i < |a| :: !("---" <= a[i])
    ensures IndexOfText(Join(a, '\n'), "\n---") == None
    decreases |a|
  {
    if |a| == 1 {
      assert a[0] + "" == a[0];
      SkipLine(a[0], "");
    } else {
      var tail := "\n" + Join(a[1..], '\n');
      assert Join(a, '\n') == a[0] + tail;
      SkipLine(a[0], tail);
      NoMarkInside(a[1..]);
      NoMark(a[1..]);
      assert tail[1..] == Join(a[1..], '\n');
    }
  }

  /** A block that no later line closes, or a text that does not open one, lists nothing. */
  lemma {:induction false} NoBlockNoFields(lines: seq<string>, open: nat, prefix: string)
    requires open < |lines| && AllCut(prefix) && forall i | 0 <= i < |lines| :: '\n' !in lines[i]
    requires (forall j | 0 <= j < open :: AllCut(lines[j])) && lines[open] != "" && !IsCut(lines[open][0])
    requires "---" <= lines[open] ==> forall j | open < j < |lines| :: !("---" <= lines[j])
    ensures BlockLines(prefix + Join(lines, '\n')) == []
  {
    LeadingLinesCut(lines, open, prefix);
    var from := lines[open..];
    var s := Join(from, '\n');
    if "---" <= lines[open] {
      var a := [lines[open][3..]] + from[1..];
      FirstThree(from, a);
      forall i | 0 <= i < |a| ensures '\n' !in a[i] {
        if i == 0 { assert forall c | c in lines[open][3..] :: c in lines[open]; }
      }
      NoMark(a);
    } else if "---" <= s {
      ShortOpener(from);
    }
  }

  lemma {:induction false} ShortOpener(from: seq<string>)
    requires from != [] && "---" <= Join(from, '\n')
    ensures "---" <= from[0]
  {
    if |from| > 1 {
      assert Join(from, '\n') == from[0] + (['\n'] + Join(from[1..], '\n'));
      assert forall n | 0 <= n < 3 :: "---"[n] == '-' == Join(from, '\n')[n];
      assert Join(from, '\n')[|from[0]|] == '\n';
      assert Join(from, '\n')[..|from[0]|] == from[0];
    }
  }
}
