/** What stamping a field changes, and that stamping again changes nothing. */
module FrontmatterTheorems {
  import opened Messages
  import opened Strings
  import opened Frontmatter

  /** A key that needs no quoting, such as "modified". */
  predicate PlainKey(key: string) {
    && key != "" && key[0] != '#' && key[0] != '"' && key[0] != '\'' && key[|key| - 1] != '"' && key[|key| - 1] != '\''
    && forall c | c in key :: c != ':' && !IsSpace(c)
  }

  predicate OneLine(value: string) { '\n' !in value }

  predicate AllIndent(s: string) { forall i | 0 <= i < |s| :: s[i] == ' ' || s[i] == '\t' }

  lemma {:induction false} IndentIsIndent(line: string)
    ensures AllIndent(IndentOf(line))
  {
    if line != "" && (line[0] == ' ' || line[0] == '\t') { IndentIsIndent(line[1..]); }
  }

  lemma {:induction false} IndentStops(indent: string, s: string)
    requires AllIndent(indent) && s != "" && s[0] != ' ' && s[0] != '\t'
    ensures IndentOf(indent + s) == indent
  {
    if indent == "" {
      assert indent + s == s;
    } else {
      assert (indent + s)[1..] == indent[1..] + s;
      IndentStops(indent[1..], s);
    }
  }

  lemma {:induction false} TrimWord(word: string)
    requires word != "" && !IsSpace(word[0]) && !IsSpace(word[|word| - 1])
    ensures TrimSpace(word) == word
  {
  }

  lemma {:induction false} KeyIsBare(key: string)
    requires PlainKey(key)
    ensures TrimSpace(key) == key && TrimQuotes(key) == key
  {
    assert key[0] in key && key[|key| - 1] in key;
    TrimWord(key);
  }

  /** Every line of the form indentation, key, colon is a top-level line with that key. */
  lemma {:induction false} LineHasKey(indent: string, key: string, rest: string)
    requires AllIndent(indent) && PlainKey(key)
    ensures var line := indent + key + ":" + rest;
            IsKeyLine(line, indent, key) && !IsDelimiter(line)
  {
    var body := key + ":" + rest;
    var line := indent + key + ":" + rest;
    assert line == indent + body;
    assert key[0] in key;
    assert body[0] == key[0];
    IndentStops(indent, body);
    TrimLeftStops(indent, body);
    TrimRightReaches(body, |key|);
    var t := TrimSpace(line);
    assert t == TrimRight(body) && |key| < |t| && t <= body;
    assert t[..|key|] == key && t[|key|] == ':';
    IndexIs(t, ':', |key|);
    KeyIsBare(key);
    assert ' ' !in key && '\t' !in key;
    assert "---"[0] != ':' && "---"[1] != ':' && "---"[2] != ':';
    assert "..."[0] != ':' && "..."[1] != ':' && "..."[2] != ':';
  }

  lemma {:induction false} TrimEndReaches(line: string, n: nat)
    requires n < |line| && !IsBlankByte(line[n])
    ensures n < |TrimEnd(line)|
    decreases |line|
  {
    if IsBlankByte(line[|line| - 1]) { TrimEndReaches(line[..|line| - 1], n); }
  }

  lemma {:induction false} TrimEndAgain(line: string)
    ensures TrimEnd(TrimEnd(line)) == TrimEnd(line)
  {
  }

  /** The line that is written, trimmed or not, is such a line. */
  lemma {:induction false} WrittenLine(indent: string, key: string, value: string)
    requires AllIndent(indent) && PlainKey(key)
    ensures var line := indent + key + ": " + value;
            && IsKeyLine(line, indent, key) && !IsDelimiter(line)
            && IsKeyLine(TrimEnd(line), indent, key) && !IsDelimiter(TrimEnd(line))
  {
    var line := indent + key + ": " + value;
    var n := |indent| + |key|;
    assert line == indent + key + ":" + (" " + value);
    LineHasKey(indent, key, " " + value);
    assert line[n] == ':';
    TrimEndReaches(line, n);
    var t := TrimEnd(line);
    assert t == indent + key + ":" + t[n + 1..] by { assert t[..n + 1] == line[..n + 1] == indent + key + ":"; }
    LineHasKey(indent, key, t[n + 1..]);
  }

  // ---- the block after the edit -------------------------------------------------------------------

  lemma {:induction false} TopIndentIsIndent(lines: seq<string>)
    ensures AllIndent(Indent(lines))
    ensures TopIndent(lines).Some? ==> AllIndent(TopIndent(lines).value)
  {
    if lines != [] {
      TopIndentIsIndent(lines[..|lines| - 1]);
      IndentIsIndent(lines[|lines| - 1]);
    }
  }

  /** A line of the shortest indentation may be replaced by another one. */
  lemma {:induction false} IndentKept(lines: seq<string>, k: nat, line: string)
    requires k < |lines| && !IsBlankLine(lines[k]) && !IsBlankLine(line) && IndentOf(line) == IndentOf(lines[k])
    ensures TopIndent(lines[k := line]) == TopIndent(lines)
  {
    var n := |lines| - 1;
    if k < n {
      IndentKept(lines[..n], k, line);
      assert lines[k := line][..n] == lines[..n][k := line];
    } else {
      assert lines[k := line][..n] == lines[..n];
    }
  }

  lemma {:induction false} IndentAppended(lines: seq<string>, line: string)
    requires !IsBlankLine(line) && IndentOf(line) == Indent(lines)
    ensures Indent(lines + [line]) == Indent(lines)
  {
    assert (lines + [line])[..|lines|] == lines;
  }

  lemma {:induction false} FirstContentKept(a: seq<string>, b: seq<string>, i: nat)
    requires i <= |a| && FirstContent(a, i) < |a| && FirstContent(a, i) < |b| &&
             b[..FirstContent(a, i) + 1] == a[..FirstContent(a, i) + 1]
    ensures FirstContent(b, i) == FirstContent(a, i)
    decreases |a| - i
  {
    var k := FirstContent(a, i);
    assert b[i] == b[..k + 1][i] == a[i];
    if IsBlankLine(a[i]) { FirstContentKept(a, b, i + 1); }
  }

  lemma {:induction false} NextDelimiterIs(lines: seq<string>, i: nat, close: nat)
    requires i <= close < |lines| && IsDelimiter(lines[close]) && forall j | i <= j < close :: !IsDelimiter(lines[j])
    ensures NextDelimiter(lines, i) == close
    decreases close - i
  {
    if i < close { NextDelimiterIs(lines, i + 1, close); }
  }

  lemma {:induction false} BlockKept(a: seq<string>, b: seq<string>, r: Region, close: nat)
    requires BlockOf(a) == Some(r) && r.open < close < |b| && b[..r.open + 1] == a[..r.open + 1]
    requires IsDelimiter(b[close]) && forall j | r.open < j < close :: !IsDelimiter(b[j])
    ensures BlockOf(b) == Some(Region(r.open, close))
  {
    FirstContentKept(a, b, 0);
    assert b[r.open] == b[..r.open + 1][r.open] == a[r.open];
    NextDelimiterIs(b, r.open + 1, close);
  }

  lemma {:induction false} KeyLineIs(lines: seq<string>, i: nat, close: nat, indent: string, key: string, k: nat)
    requires i <= k < close <= |lines| && IsKeyLine(lines[k], indent, key)
    requires forall j | i <= j < k :: !IsKeyLine(lines[j], indent, key)
    ensures KeyLine(lines, i, close, indent, key) == k
    decreases k - i
  {
    if i < k { KeyLineIs(lines, i + 1, close, indent, key, k); }
  }

  /** The frontmatter stands where it stood, and a second edit finds its own line. */
  lemma {:induction false} EditedLines(lines: seq<string>, r: Region, key: string, value: string)
    requires BlockOf(lines) == Some(r) && PlainKey(key)
    ensures var (out, changed) := Edited(lines, r, key, value);
            var close := r.close + |out| - |lines|;
            && |lines| <= |out| <= |lines| + 1
            && BlockOf(out) == Some(Region(r.open, close))
            && Indent(out[r.open + 1..close]) == Indent(lines[r.open + 1..r.close])
            && !Edited(out, Region(r.open, close), key, value).1
  {
    hide IsDelimiter, IsBlankLine, KeyOf, IndentOf, BlockOf, Indent, TrimSpace, PlainKey, IsKeyLine;
    var inner := lines[r.open + 1..r.close];
    var indent := Indent(inner);
    var line := indent + key + ": " + value;
    var k := KeyLine(lines, r.open + 1, r.close, indent, key);
    TopIndentIsIndent(inner);
    WrittenLine(indent, key, value);
    TrimEndAgain(line);
    if k == r.close {
      var out := lines[..k] + [TrimEnd(line)] + lines[k..];
      InsertedBlock(lines, r, TrimEnd(line), indent, key);
      assert Edited(lines, r, key, value) == (out, true);
    } else if TrimEnd(lines[k]) != TrimEnd(line) {
      ReplacedBlock(lines, r, k, line, indent, key);
      assert Edited(lines, r, key, value) == (lines[k := line], true);
    }
  }

  lemma {:induction false} InsertedBlock(lines: seq<string>, r: Region, line: string, indent: string, key: string)
    requires BlockOf(lines) == Some(r) && indent == Indent(lines[r.open + 1..r.close]) &&
             IsKeyLine(line, indent, key) && !IsDelimiter(line)
    requires KeyLine(lines, r.open + 1, r.close, indent, key) == r.close
    ensures var out := lines[..r.close] + [line] + lines[r.close..];
            && BlockOf(out) == Some(Region(r.open, r.close + 1)) && Indent(out[r.open + 1..r.close + 1]) == indent
            && KeyLine(out, r.open + 1, r.close + 1, indent, key) == r.close
  {
    hide IsDelimiter, IsBlankLine, KeyOf, IndentOf, TopIndent, TrimSpace;
    var out := lines[..r.close] + [line] + lines[r.close..];
    var inner := lines[r.open + 1..r.close];
    assert out[r.open + 1..r.close + 1] == inner + [line];
    IndentAppended(inner, line);
    assert forall j | 0 <= j < r.close :: out[j] == lines[j];
    assert out[r.close + 1] == lines[r.close];
    BlockKept(lines, out, r, r.close + 1);
    KeyLineIs(out, r.open + 1, r.close + 1, indent, key, r.close);
  }

  lemma {:induction false} ReplacedBlock(lines: seq<string>, r: Region, k: nat, line: string, indent: string,
                                         key: string)
    requires BlockOf(lines) == Some(r) && indent == Indent(lines[r.open + 1..r.close]) &&
             IsKeyLine(line, indent, key) && !IsDelimiter(line)
    requires KeyLine(lines, r.open + 1, r.close, indent, key) == k < r.close
    ensures var out := lines[k := line];
            && BlockOf(out) == Some(r) && Indent(out[r.open + 1..r.close]) == indent
            && KeyLine(out, r.open + 1, r.close, indent, key) == k
  {
    hide IsDelimiter, IsBlankLine, KeyOf, IndentOf, TopIndent, TrimSpace;
    var out := lines[k := line];
    var inner := lines[r.open + 1..r.close];
    assert out[r.open + 1..r.close] == inner[k - r.open - 1 := line];
    IndentKept(inner, k - r.open - 1, line);
    BlockKept(lines, out, r, r.close);
    KeyLineIs(out, r.open + 1, r.close, indent, key, k);
  }

  // ---- the text -----------------------------------------------------------------------------------

  /** The lines of the stamped text are the edited lines; the byte order mark stays as it was. */
  lemma {:induction false} StampedText(raw: string, key: string, value: string)
    requires PlainKey(key) && OneLine(value) && Stamped(raw, key, value).1
    ensures var lines := Split(WithoutBOM(raw), '\n');
            var out := Stamped(raw, key, value).0;
            && BlockOf(lines).Some?
            && BOMOf(out) == BOMOf(raw)
            && Split(WithoutBOM(out), '\n') == Edited(lines, BlockOf(lines).value, key, value).0
  {
    hide Edited, BlockOf, Split, Join;
    var s := WithoutBOM(raw);
    var lines := Split(s, '\n');
    var r := BlockOf(lines).value;
    var edited := Edited(lines, r, key, value).0;
    SplitParts(s, '\n');
    EditedHasNoNewline(lines, r, key, value);
    SplitJoin(edited, '\n');
    JoinSplit(s, '\n');
    SameStart(lines, edited);
    MarkOf(raw, Join(edited, '\n'));
  }

  lemma {:induction false} MarkOf(raw: string, text: string)
    requires BOMOf(raw) == "" && text != "" ==> text[0] != BOM
    ensures BOMOf(BOMOf(raw) + text) == BOMOf(raw) && WithoutBOM(BOMOf(raw) + text) == text
  {
    if BOMOf(raw) == "" {
      assert "" + text == text;
    } else {
      assert ([BOM] + text)[1..] == text;
    }
  }

  lemma {:induction false} EditedHasNoNewline(lines: seq<string>, r: Region, key: string, value: string)
    requires BlockOf(lines) == Some(r) && PlainKey(key) && OneLine(value)
    requires forall i | 0 <= i < |lines| :: '\n' !in lines[i]
    ensures var edited := Edited(lines, r, key, value).0;
            && edited != [] && edited[0] == lines[0]
            && (forall i | 0 <= i < |edited| :: '\n' !in edited[i])
            && (|edited| > 1 <==> |lines| > 1)
  {
    hide Indent, KeyLine, IsKeyLine, BlockOf, IsDelimiter, IsBlankLine;
    var indent := Indent(lines[r.open + 1..r.close]);
    TopIndentIsIndent(lines[r.open + 1..r.close]);
    var line := indent + key + ": " + value;
    assert '\n' !in key && '\n' !in indent && '\n' !in ": ";
    assert '\n' !in line;
    assert '\n' !in TrimEnd(line);
  }

  lemma {:induction false} SameStart(a: seq<string>, b: seq<string>)
    requires a != [] && b != [] && a[0] == b[0] && (|a| > 1 <==> |b| > 1)
    ensures var x, y := Join(a, '\n'), Join(b, '\n');
            (x == "" <==> y == "") && (x != "" ==> x[0] == y[0])
  {
  }

  /** Stamping the same value again changes nothing. */
  lemma {:induction false} StampIsIdempotent(raw: string, key: string, value: string)
    requires PlainKey(key) && OneLine(value)
    ensures var out := Stamped(raw, key, value).0;
            Stamped(out, key, value) == (out, false)
  {
    var lines := Split(WithoutBOM(raw), '\n');
    if Stamped(raw, key, value).1 {
      StampedText(raw, key, value);
      EditedLines(lines, BlockOf(lines).value, key, value);
    }
  }

  /** Stamping changes one top-level line with the key, or adds one line right before the closing
      delimiter of a block that has none; it never creates a block. */
  lemma {:induction false} StampIsLocal(raw: string, key: string, value: string)
    requires PlainKey(key) && OneLine(value)
    ensures var lines := Split(WithoutBOM(raw), '\n');
            var out := Split(WithoutBOM(Stamped(raw, key, value).0), '\n');
            && (Stamped(raw, key, value).1 ==> BlockOf(lines).Some?)
            && (!Stamped(raw, key, value).1 ==> Stamped(raw, key, value).0 == raw)
            && (Stamped(raw, key, value).1 ==>
                  var r := BlockOf(lines).value;
                  var indent := Indent(lines[r.open + 1..r.close]);
                  if |out| == |lines| then
                    exists k :: r.open < k < r.close && out == lines[k := indent + key + ": " + value] &&
                      IsKeyLine(lines[k], indent, key) &&
                                forall j | r.open < j < k :: !IsKeyLine(lines[j], indent, key)
                  else
                    && out == lines[..r.close] + [TrimEnd(indent + key + ": " + value)] + lines[r.close..]
                    && forall j | r.open < j < r.close :: !IsKeyLine(lines[j], indent, key))
  {
    hide BlockOf, Indent, IsKeyLine, TrimEnd, Split, Join, WithoutBOM, BOMOf, PlainKey, KeyLine;
    if Stamped(raw, key, value).1 {
      StampedText(raw, key, value);
      var lines := Split(WithoutBOM(raw), '\n');
      var r := BlockOf(lines).value;
      var k := KeyLine(lines, r.open + 1, r.close, Indent(lines[r.open + 1..r.close]), key);
      assert k < r.close ==> IsKeyLine(lines[k], Indent(lines[r.open + 1..r.close]), key);
    }
  }

  lemma {:induction false} UnchangedLines(lines: seq<string>, r: Region, key: string, value: string)
    requires r.open < r.close < |lines| && !Edited(lines, r, key, value).1
    ensures Edited(lines, r, key, value).0 == lines
  {
  }

  /** A stamp takes effect wherever there is a block: its first top-level line with the key then holds
      the value. */
  lemma {:induction false} StampTakesEffect(raw: string, r: Region, key: string, value: string)
    requires PlainKey(key) && OneLine(value) && BlockOf(Split(WithoutBOM(raw), '\n')) == Some(r)
    ensures var lines := Split(WithoutBOM(raw), '\n');
            var out := Split(WithoutBOM(Stamped(raw, key, value).0), '\n');
            var indent := Indent(lines[r.open + 1..r.close]);
            exists k | r.open < k < |out| ::
              && TrimEnd(out[k]) == TrimEnd(indent + key + ": " + value) && IsKeyLine(out[k], indent, key)
              && forall j | r.open < j < k :: !IsKeyLine(out[j], indent, key) && !IsDelimiter(out[j])
  {
    hide Edited, BlockOf, Split, Join, IsKeyLine, TrimEnd, Indent, IsDelimiter, WithoutBOM, BOMOf, PlainKey;
    var lines := Split(WithoutBOM(raw), '\n');
    var (edited, changed) := Edited(lines, r, key, value);
    EditedLines(lines, r, key, value);
    if changed { StampedText(raw, key, value); } else { UnchangedLines(lines, r, key, value); }
    var close := r.close + |edited| - |lines|;
    HeldLine(edited, Region(r.open, close), key, value);
  }

  lemma {:induction false} HeldLine(lines: seq<string>, r: Region, key: string, value: string)
    requires BlockOf(lines) == Some(r) && !Edited(lines, r, key, value).1
    ensures var indent := Indent(lines[r.open + 1..r.close]);
            exists k | r.open < k < |lines| ::
              && TrimEnd(lines[k]) == TrimEnd(indent + key + ": " + value) && IsKeyLine(lines[k], indent, key)
              && forall j | r.open < j < k :: !IsKeyLine(lines[j], indent, key) && !IsDelimiter(lines[j])
  {
    hide IsDelimiter, IsKeyLine, TrimEnd, Indent, IsBlankLine, TrimSpace;
    var indent := Indent(lines[r.open + 1..r.close]);
    var k := KeyLine(lines, r.open + 1, r.close, indent, key);
    assert r.open < k < r.close;
  }

  // ---- delimiters and keys, character by character ------------------------------------------------------

  predicate Delimits(line: string) { TrimSpace(line) == "---" || TrimSpace(line) == "..." }

  /** The block is opened by the first line that is not blank, which has to be "---", and closed by the
      next line that is "---" or "...". */
  lemma {:induction false} BlockIff(lines: seq<string>, open: nat, close: nat)
    ensures BlockOf(lines) == Some(Region(open, close)) <==>
              && open < close < |lines| && TrimSpace(lines[open]) == "---" && Delimits(lines[close])
              && (forall j | 0 <= j < open :: TrimSpace(lines[j]) == "")
              && (forall j | open < j < close :: !Delimits(lines[j]))
  {
    hide TrimSpace;
    if open < close < |lines| && TrimSpace(lines[open]) == "---" && Delimits(lines[close]) &&
       (forall j | 0 <= j < open :: TrimSpace(lines[j]) == "") && (forall j | open < j < close :: !Delimits(lines[j]))
    {
      assert !IsBlankLine(lines[open]);
      assert FirstContent(lines, 0) == open;
      NextDelimiterIs(lines, open + 1, close);
    }
  }

  /** A key may be indented, stand in quotes and have white space in front of its colon. */
  lemma {:induction false} KeyMeans(indent: string, quote: string, key: string, gap: string, rest: string)
    requires AllIndent(indent) && PlainKey(key) && AllSpace(gap) && (quote == "" || quote == "\"" || quote == "'")
    ensures KeyOf(indent + quote + key + quote + gap + ":" + rest) == key
  {
    hide TrimQuotes, TrimLeft, TrimRight, IsQuoted;
    var k := quote + key + quote;
    var head := k + gap;
    var body := head + ":" + rest;
    var line := indent + quote + key + quote + gap + ":" + rest;
    assert key[0] in key && key[|key| - 1] in key;
    assert line == indent + body;
    QuotedKey(quote, key);
    TrimLeftStops(indent, body);
    assert body[|head|] == ':';
    TrimRightReaches(body, |head|);
    var t := TrimSpace(line);
    assert t == TrimRight(body) && t[..|head|] == body[..|head|] == head && t[|head|] == ':';
    assert ':' !in k && ':' !in gap;
    IndexIs(t, ':', |head|);
    assert "" + k + gap == head;
    TrimmedTo("", k, gap);
    assert ' ' !in k && '\t' !in k;
    assert t[0] == head[0] == k[0];
  }

  lemma {:induction false} QuotedKey(quote: string, key: string)
    requires PlainKey(key) && (quote == "" || quote == "\"" || quote == "'")
    ensures TrimQuotes(quote + key + quote) == key
    ensures var k := quote + key + quote; k != "" && k[0] != '#' && !IsSpace(k[0]) && !IsSpace(k[|k| - 1])
  {
    assert key[0] in key && key[|key| - 1] in key;
    KeyIsBare(key);
    var k := quote + key + quote;
    if quote == "" {
      assert k == key;
    } else {
      assert k[1..] == key + quote && (key + quote)[..|key|] == key;
      assert TrimQuotes(k) == TrimQuotes(key + quote) == TrimQuotes(key);
    }
  }

  /** A comment has no key, nor has a line without a colon. */
  lemma {:induction false} NoKey(indent: string, line: string)
    requires AllIndent(indent)
    ensures KeyOf(indent + "#" + line) == ""
    ensures ':' !in line ==> KeyOf(line) == ""
  {
    TrimLeftStops(indent, "#" + line);
    assert indent + "#" + line == indent + ("#" + line);
    TrimRightReaches("#" + line, 0);
    assert TrimSpace(indent + "#" + line)[0] == '#';
    if ':' !in line {
      TrimKeeps(line, ':');
      NoIndex(TrimSpace(line), ':');
    }
  }

  lemma {:induction false} TrimKeeps(s: string, c: char)
    requires c !in s
    ensures c !in TrimSpace(s)
  {
    TrimLeftKeeps(s, c);
    TrimRightKeeps(TrimLeft(s), c);
  }

  lemma {:induction false} TrimLeftKeeps(s: string, c: char)
    requires c !in s
    ensures c !in TrimLeft(s)
  {
    if s != "" && IsSpace(s[0]) { TrimLeftKeeps(s[1..], c); }
  }

  lemma {:induction false} TrimRightKeeps(s: string, c: char)
    requires c !in s
    ensures c !in TrimRight(s)
  {
    if s != "" && IsSpace(s[|s| - 1]) { TrimRightKeeps(s[..|s| - 1], c); }
  }
}
