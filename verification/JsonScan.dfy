/** Cutting the first JSON object or array out of mixed text (provider/error_body.go firstJSONValue),
    against the JSON grammar of RFC 8259. */
module JsonScan {
  import opened Messages

  predicate IsBracket(c: char) { c == '{' || c == '[' }

  function FirstBracket(s: string): (i: nat)
    ensures i <= |s| && (i < |s| ==> IsBracket(s[i])) && forall k | 0 <= k < i :: !IsBracket(s[k])
  {
    if s == "" || IsBracket(s[0]) then 0 else 1 + FirstBracket(s[1..])
  }

  /** Where the scan stands: bracket depth, inside a string, behind a backslash. */
  datatype State = State(depth: int, inStr: bool, escaped: bool)

  const START := State(0, false, false)

  function Closing(open: char): char { if open == '[' then ']' else '}' }

  function Step(st: State, c: char, open: char): State {
    if st.inStr then
      if st.escaped then st.(escaped := false)
      else if c == '\\' then st.(escaped := true)
      else if c == '"' then st.(inStr := false)
      else st
    else if c == '"' then st.(inStr := true)
    else if c == open then st.(depth := st.depth + 1)
    else if c == Closing(open) then st.(depth := st.depth - 1)
    else st
  }

  predicate Closes(st: State, c: char, open: char) {
    !st.inStr && c != '"' && c != open && c == Closing(open) && st.depth - 1 == 0
  }

  /** Length up to the bracket that brings the depth back to zero. */
  function EndOf(st: State, s: string, open: char): (n: Option<nat>)
    ensures n.Some? ==> n.value <= |s|
    decreases s
  {
    if s == "" then None
    else if Closes(st, s[0], open) then Some(1)
    else Later(1, EndOf(Step(st, s[0], open), s[1..], open))
  }

  function Later(k: nat, n: Option<nat>): Option<nat> {
    match n case None => None case Some(m) => Some(k + m)
  }

  lemma {:induction false} NothingEnds(st: State, open: char)
    ensures EndOf(st, "", open) == None
  {
  }

  /** One character of the scan. */
  lemma {:induction false} EndStep(st: State, c: char, rest: string, open: char)
    ensures EndOf(st, [c] + rest, open) == if Closes(st, c, open) then Some(1)
            else Later(1, EndOf(Step(st, c, open), rest, open))
  {
    assert ([c] + rest)[1..] == rest;
  }

  function FirstValueIn(s: string): string {
    var i := FirstBracket(s);
    if i == |s| then ""
    else match EndOf(START, s[i..], s[i]) case None => "" case Some(n) => s[i..][..n]
  }

  method FirstJSONValue(s: string) returns (value: string)
    ensures value == FirstValueIn(s)
  {
    var i := FirstBracket(s);
    if i == |s| {
      return "";
    }
    var n := ScanFrom(s, i);
    if n.None? {
      return "";
    }
    return s[i..i + n.value];
  }

  /** The scan itself: the length up to the closing bracket. */
  method ScanFrom(s: string, i: nat) returns (n: Option<nat>)
    requires i < |s| && IsBracket(s[i])
    ensures n == EndOf(START, s[i..], s[i])
  {
    hide EndOf;
    var open := s[i];
    var closeCh := '}';
    if open == '[' {
      closeCh := ']';
    }
    var depth, inStr, escaped := 0, false, false;
    for j := i to |s|
      invariant EndOf(START, s[i..], open) ==
                Later(j - i, EndOf(State(depth, inStr, escaped), s[j..], open))
    {
      var c := s[j];
      assert s[j..] == [c] + s[j + 1..];
      EndStep(State(depth, inStr, escaped), c, s[j + 1..], open);
      if inStr {
        if escaped {
          escaped := false;
        } else if c == '\\' {
          escaped := true;
        } else if c == '"' {
          inStr := false;
        }
        continue;
      }
      if c == '"' {
        inStr := true;
      } else if c == open {
        depth := depth + 1;
      } else if c == closeCh {
        depth := depth - 1;
        if depth == 0 {
          return Some(j + 1 - i);
        }
      }
    }
    NothingEnds(State(depth, inStr, escaped), open);
    return None;
  }

  // ---- the grammar of section 2 to 7 ----------------------------------------------------------------

  datatype StrChar = Unescaped(c: char) | Escape(c: char) | Unicode(hex: string)
  datatype Number = Number(negative: bool, digits: string, fraction: Option<string>, exponent: Option<(string, string)>)
  datatype Json = True | False | Null | Num(n: Number) | Str(chars: seq<StrChar>)
                | Arr(blank: string, items: Items) | Obj(blank: string, members: Members)
  /** Elements with the white space around them. */
  datatype Items = NoItems | Items(before: string, value: Json, after: string, rest: Items)
  datatype Members = NoMembers | Members(before: string, name: seq<StrChar>, gap: string, space: string, value: Json,
                                         after: string, rest: Members)

  predicate IsWs(s: string) { forall i | 0 <= i < |s| :: s[i] == ' ' || s[i] == '\t' || s[i] == '\n' || s[i] == '\r' }

  predicate IsHex(c: char) { '0' <= c <= '9' || 'a' <= c <= 'f' || 'A' <= c <= 'F' }

  predicate AllDigits(s: string) { s != "" && forall i | 0 <= i < |s| :: '0' <= s[i] <= '9' }

  predicate GoodChar(ch: StrChar) {
    match ch
    case Unescaped(c) => c >= ' ' && c != '"' && c != '\\'
    case Escape(c) => c == '"' || c == '\\' || c == '/' || c == 'b' || c == 'f' || c == 'n' || c == 'r' || c == 't'
    case Unicode(hex) => |hex| == 4 && forall i | 0 <= i < 4 :: IsHex(hex[i])
  }

  predicate GoodString(chars: seq<StrChar>) { forall i | 0 <= i < |chars| :: GoodChar(chars[i]) }

  predicate GoodNumber(n: Number) {
    && AllDigits(n.digits) && (|n.digits| > 1 ==> n.digits[0] != '0')
    && (n.fraction.Some? ==> AllDigits(n.fraction.value))
    && (n.exponent.Some? ==> AllDigits(n.exponent.value.1))
    && (n.exponent.Some? ==>
          (n.exponent.value.0 == "e" || n.exponent.value.0 == "E" || n.exponent.value.0 == "e+" ||
           n.exponent.value.0 == "e-" ||
           n.exponent.value.0 == "E+" || n.exponent.value.0 == "E-"))
  }

  predicate WellFormed(v: Json) {
    match v
    case Num(n) => GoodNumber(n)
    case Str(chars) => GoodString(chars)
    case Arr(blank, items) => IsWs(blank) && GoodItems(items)
    case Obj(blank, members) => IsWs(blank) && GoodMembers(members)
    case _ => true
  }

  predicate GoodItems(items: Items) {
    items.Items? ==> IsWs(items.before) && WellFormed(items.value) && IsWs(items.after) && GoodItems(items.rest)
  }

  predicate GoodMembers(members: Members) {
    members.Members? ==> IsWs(members.before) && GoodString(members.name) && IsWs(members.gap) && IsWs(members.space) &&
                         WellFormed(members.value) && IsWs(members.after) && GoodMembers(members.rest)
  }

  function CharText(ch: StrChar): string {
    match ch case Unescaped(c) => [c] case Escape(c) => ['\\', c] case Unicode(hex) => "\\u" + hex
  }

  function Chars(chars: seq<StrChar>): string {
    if chars == [] then "" else CharText(chars[0]) + Chars(chars[1..])
  }

  function NumberText(n: Number): string {
    (if n.negative then "-" else "") + n.digits + (if n.fraction.Some? then "." + n.fraction.value else "") +
    (if n.exponent.Some? then n.exponent.value.0 + n.exponent.value.1 else "")
  }

  function Text(v: Json): string {
    match v
    case True => "true"
    case False => "false"
    case Null => "null"
    case Num(n) => NumberText(n)
    case Str(chars) => "\"" + Chars(chars) + "\""
    case Arr(blank, items) => "[" + (if items.NoItems? then blank else ItemsText(items)) + "]"
    case Obj(blank, members) => "{" + (if members.NoMembers? then blank else MembersText(members)) + "}"
  }

  function ItemsText(items: Items): string {
    match items
    case NoItems => ""
    case Items(before, value, after, rest) =>
      before + Text(value) + after + (if rest.NoItems? then "" else "," + ItemsText(rest))
  }

  function MembersText(members: Members): string {
    match members
    case NoMembers => ""
    case Members(before, name, gap, space, value, after, rest) =>
      before + ("\"" + Chars(name) + "\"") + gap + ":" + space + Text(value) + after +
      (if rest.NoMembers? then "" else "," + MembersText(rest))
  }

  // ---- inside brackets a value leaves no trace --------------------------------------------------------

  /** Scanning s never closes the outer bracket and comes back to the same state. */
  ghost predicate Neutral(s: string, open: char) {
    forall d: nat, tail: string | d >= 1 ::
      EndOf(State(d, false, false), s + tail, open) ==
      Later(|s|, EndOf(State(d, false, false), tail, open))
  }

  lemma {:induction false} NeutralAt(s: string, open: char, d: nat, tail: string)
    requires Neutral(s, open) && d >= 1
    ensures EndOf(State(d, false, false), s + tail, open) ==
            Later(|s|, EndOf(State(d, false, false), tail, open))
  {
  }

  lemma {:induction false} ConcatAt(a: string, b: string, open: char, d: nat, tail: string)
    requires Neutral(a, open) && Neutral(b, open) && d >= 1
    ensures EndOf(State(d, false, false), (a + b) + tail, open) ==
            Later(|a + b|, EndOf(State(d, false, false), tail, open))
  {
    hide EndOf, Neutral;
    assert (a + b) + tail == a + (b + tail);
    NeutralAt(a, open, d, b + tail);
    NeutralAt(b, open, d, tail);
  }

  lemma {:induction false} NeutralConcat(a: string, b: string, open: char)
    requires Neutral(a, open) && Neutral(b, open)
    ensures Neutral(a + b, open)
  {
    hide EndOf, Later;
    forall d: nat, tail: string | d >= 1
      ensures EndOf(State(d, false, false), (a + b) + tail, open) ==
              Later(|a + b|, EndOf(State(d, false, false), tail, open))
    {
      hide Neutral;
      ConcatAt(a, b, open, d, tail);
    }
  }

  predicate Quiet(s: string) {
    forall i | 0 <= i < |s| :: s[i] != '"' && s[i] != '{' && s[i] != '}' && s[i] != '[' && s[i] != ']'
  }

  lemma {:induction false} QuietIsNeutral(s: string, open: char)
    requires Quiet(s) && IsBracket(open)
    ensures Neutral(s, open)
  {
    forall d: nat, tail: string | d >= 1
      ensures EndOf(State(d, false, false), s + tail, open) ==
              Later(|s|, EndOf(State(d, false, false), tail, open))
    {
      QuietRun(s, open, d, tail);
    }
  }

  lemma {:induction false} QuietRun(s: string, open: char, d: nat, tail: string)
    requires Quiet(s) && IsBracket(open) && d >= 1
    ensures EndOf(State(d, false, false), s + tail, open) ==
            Later(|s|, EndOf(State(d, false, false), tail, open))
  {
    if s == "" {
      assert s + tail == tail;
    } else {
      assert (s + tail)[0] == s[0] && (s + tail)[1..] == s[1..] + tail;
      QuietRun(s[1..], open, d, tail);
    }
  }

  /** Inside a string the scan comes to the closing quote and no further. */
  lemma {:induction false} StringRun(chars: seq<StrChar>, open: char, d: nat, tail: string)
    requires GoodString(chars) && d >= 1
    ensures EndOf(State(d, true, false), Chars(chars) + "\"" + tail, open) ==
            Later(|Chars(chars)| + 1, EndOf(State(d, false, false), tail, open))
  {
    var st := State(d, true, false);
    if chars == [] {
      assert "" + "\"" + tail == "\"" + tail;
      assert ("\"" + tail)[1..] == tail;
    } else {
      var rest := Chars(chars[1..]) + "\"" + tail;
      assert Chars(chars) + "\"" + tail == CharText(chars[0]) + rest;
      StringRun(chars[1..], open, d, tail);
      assert GoodChar(chars[0]);
      CharRun(chars[0], open, d, rest);
    }
  }

  lemma {:induction false} CharRun(ch: StrChar, open: char, d: nat, rest: string)
    requires GoodChar(ch)
    ensures EndOf(State(d, true, false), CharText(ch) + rest, open) ==
            Later(|CharText(ch)|, EndOf(State(d, true, false), rest, open))
  {
    var st := State(d, true, false);
    match ch {
      case Unescaped(c) =>
        assert ([c] + rest)[1..] == rest;
      case Escape(c) =>
        var s := ['\\', c] + rest;
        assert s[0] == '\\' && s[1..] == [c] + rest && ([c] + rest)[1..] == rest;
      case Unicode(hex) =>
        var s := "\\u" + hex + rest;
        assert s[0] == '\\' && s[1..] == ['u'] + (hex + rest) && (['u'] + (hex + rest))[1..] == hex + rest;
        HexRun(hex, open, d, rest);
    }
  }

  lemma {:induction false} HexRun(hex: string, open: char, d: nat, rest: string)
    requires forall i | 0 <= i < |hex| :: IsHex(hex[i])
    ensures EndOf(State(d, true, false), hex + rest, open) ==
            Later(|hex|, EndOf(State(d, true, false), rest, open))
  {
    if hex == "" {
      assert hex + rest == rest;
    } else {
      assert (hex + rest)[0] == hex[0] && (hex + rest)[1..] == hex[1..] + rest;
      HexRun(hex[1..], open, d, rest);
    }
  }

  lemma {:induction false} StringIsNeutral(chars: seq<StrChar>, open: char)
    requires GoodString(chars) && IsBracket(open)
    ensures Neutral("\"" + Chars(chars) + "\"", open)
  {
    var s := "\"" + Chars(chars) + "\"";
    forall d: nat, tail: string | d >= 1
      ensures EndOf(State(d, false, false), s + tail, open) ==
              Later(|s|, EndOf(State(d, false, false), tail, open))
    {
      hide EndOf;
      var rest := Chars(chars) + "\"" + tail;
      assert s + tail == ['"'] + rest;
      EndStep(State(d, false, false), '"', rest, open);
      StringRun(chars, open, d, tail);
    }
  }

  lemma {:induction false} BracketsAt(inside: string, open: char, first: char, d: nat, tail: string)
    requires Neutral(inside, open) && IsBracket(open) && IsBracket(first) && d >= 1
    ensures EndOf(State(d, false, false), [first] + inside + [Closing(first)] + tail, open) ==
            Later(|inside| + 2, EndOf(State(d, false, false), tail, open))
  {
    hide EndOf, Neutral;
    var last := [Closing(first)] + tail;
    var deeper: nat := if first == open then d + 1 else d;
    NeutralAt(inside, open, deeper, last);
    assert [first] + inside + [Closing(first)] + tail == [first] + (inside + last);
    EndStep(State(d, false, false), first, inside + last, open);
    EndStep(State(deeper, false, false), Closing(first), tail, open);
  }

  /** A bracketed text is neutral when its inside is, of the same kind or the other. */
  lemma {:induction false} BracketsAreNeutral(inside: string, open: char, first: char)
    requires Neutral(inside, open) && IsBracket(open) && IsBracket(first)
    ensures Neutral([first] + inside + [Closing(first)], open)
  {
    hide EndOf, Later, Closing;
    var s := [first] + inside + [Closing(first)];
    forall d: nat, tail: string | d >= 1
      ensures EndOf(State(d, false, false), s + tail, open) == Later(|s|, EndOf(State(d, false, false), tail, open))
    {
      hide Neutral;
      BracketsAt(inside, open, first, d, tail);
    }
  }

  lemma {:induction false} WsIsNeutral(s: string, open: char)
    requires IsWs(s) && IsBracket(open)
    ensures Neutral(s, open)
  {
    QuietIsNeutral(s, open);
  }

  lemma {:induction false} NumberIsQuiet(n: Number)
    requires GoodNumber(n)
    ensures Quiet(NumberText(n))
  {
    var sign := if n.negative then "-" else "";
    var frac := if n.fraction.Some? then "." + n.fraction.value else "";
    var exp := if n.exponent.Some? then n.exponent.value.0 + n.exponent.value.1 else "";
    assert Quiet(sign) && Quiet(n.digits) && Quiet(frac);
    assert Quiet(exp);
  }

  lemma {:induction false} ValueIsNeutral(v: Json, open: char)
    requires WellFormed(v) && IsBracket(open)
    ensures Neutral(Text(v), open)
    decreases v
  {
    match v {
      case True => QuietIsNeutral("true", open);
      case False => QuietIsNeutral("false", open);
      case Null => QuietIsNeutral("null", open);
      case Num(n) =>
        NumberIsQuiet(n);
        QuietIsNeutral(NumberText(n), open);
      case Str(chars) => StringIsNeutral(chars, open);
      case Arr(blank, items) =>
        InsideIsNeutral(v, open);
        BracketsAreNeutral(Inside(v), open, '[');
      case Obj(blank, members) =>
        InsideIsNeutral(v, open);
        BracketsAreNeutral(Inside(v), open, '{');
    }
  }

  /** What stands between the brackets. */
  function Inside(v: Json): string
    requires v.Arr? || v.Obj?
  {
    if v.Arr? then (if v.items.NoItems? then v.blank else ItemsText(v.items))
    else if v.members.NoMembers? then v.blank else MembersText(v.members)
  }

  lemma {:induction false} InsideIsNeutral(v: Json, open: char)
    requires WellFormed(v) && IsBracket(open) && (v.Arr? || v.Obj?)
    ensures Neutral(Inside(v), open)
    decreases v, 0
  {
    if v.Arr? {
      if v.items.NoItems? { WsIsNeutral(v.blank, open); } else { ItemsAreNeutral(v.items, open); }
    } else {
      if v.members.NoMembers? { WsIsNeutral(v.blank, open); } else { MembersAreNeutral(v.members, open); }
    }
  }

  lemma {:induction false} ItemsAreNeutral(items: Items, open: char)
    requires GoodItems(items) && items.Items? && IsBracket(open)
    ensures Neutral(ItemsText(items), open)
    decreases items
  {
    hide Neutral;
    WsIsNeutral(items.before, open);
    WsIsNeutral(items.after, open);
    ValueIsNeutral(items.value, open);
    NeutralConcat(items.before, Text(items.value), open);
    NeutralConcat(items.before + Text(items.value), items.after, open);
    if items.rest.Items? {
      ItemsAreNeutral(items.rest, open);
      QuietIsNeutral(",", open);
      NeutralConcat(",", ItemsText(items.rest), open);
      NeutralConcat(items.before + Text(items.value) + items.after, "," + ItemsText(items.rest), open);
    } else {
      var all := items.before + Text(items.value) + items.after;
      assert all + "" == all;
    }
  }

  lemma {:induction false} MembersAreNeutral(members: Members, open: char)
    requires GoodMembers(members) && members.Members? && IsBracket(open)
    ensures Neutral(MembersText(members), open)
    decreases members
  {
    hide Neutral;
    var name := "\"" + Chars(members.name) + "\"";
    WsIsNeutral(members.before, open);
    StringIsNeutral(members.name, open);
    WsIsNeutral(members.gap, open);
    QuietIsNeutral(":", open);
    WsIsNeutral(members.space, open);
    ValueIsNeutral(members.value, open);
    WsIsNeutral(members.after, open);
    NeutralConcat(members.before, name, open);
    NeutralConcat(members.before + name, members.gap, open);
    NeutralConcat(members.before + name + members.gap, ":", open);
    NeutralConcat(members.before + name + members.gap + ":", members.space, open);
    NeutralConcat(members.before + name + members.gap + ":" + members.space, Text(members.value), open);
    var all := members.before + name + members.gap + ":" + members.space + Text(members.value) + members.after;
    NeutralConcat(members.before + name + members.gap + ":" + members.space + Text(members.value), members.after, open);
    if members.rest.Members? {
      MembersAreNeutral(members.rest, open);
      QuietIsNeutral(",", open);
      NeutralConcat(",", MembersText(members.rest), open);
      NeutralConcat(all, "," + MembersText(members.rest), open);
    } else {
      assert all + "" == all;
    }
  }

  // ---- the theorem ------------------------------------------------------------------------------------

  /** Behind noise without brackets and in front of anything, a well-formed object or array is cut
      out exactly, although only its own kind of bracket is counted. */
  lemma {:induction false} FirstValueIsExact(noise: string, v: Json, suffix: string)
    requires (forall i | 0 <= i < |noise| :: !IsBracket(noise[i])) && WellFormed(v) && (v.Arr? || v.Obj?)
    ensures FirstValueIn(noise + Text(v) + suffix) == Text(v)
  {
    var first := if v.Arr? then '[' else '{';
    var s := noise + Text(v) + suffix;
    var inside := Inside(v);
    assert Text(v) == [first] + inside + [Closing(first)];
    FirstBracketAt(noise, Text(v) + suffix);
    assert s == noise + (Text(v) + suffix);
    assert s[|noise|..] == Text(v) + suffix;
    InsideIsNeutral(v, first);
    hide Text, EndOf, Neutral;
    OutermostEnds(inside, first, suffix);
  }

  /** The scan of a whole bracketed text ends with its last character. */
  lemma {:induction false} OutermostEnds(inside: string, first: char, suffix: string)
    requires Neutral(inside, first) && IsBracket(first)
    ensures EndOf(START, [first] + inside + [Closing(first)] + suffix, first) == Some(|inside| + 2)
  {
    var last := [Closing(first)] + suffix;
    NeutralAt(inside, first, 1, last);
    hide EndOf, Neutral;
    assert [first] + inside + [Closing(first)] + suffix == [first] + (inside + last);
    EndStep(START, first, inside + last, first);
    EndStep(State(1, false, false), Closing(first), suffix, first);
  }

  lemma {:induction false} FirstBracketAt(noise: string, rest: string)
    requires (forall i | 0 <= i < |noise| :: !IsBracket(noise[i])) && rest != "" && IsBracket(rest[0])
    ensures FirstBracket(noise + rest) == |noise|
  {
    var i := FirstBracket(noise + rest);
    assert (noise + rest)[|noise|] == rest[0];
    assert forall k | 0 <= k < |noise| :: (noise + rest)[k] == noise[k];
  }

  // ---- any text at all -----------------------------------------------------------------------------------

  /** A text cut at its quotes: single characters, and strings with whatever is escaped in them. */
  datatype Lexeme = Plain(c: char) | Quoted(chars: seq<QuotedChar>)
  datatype QuotedChar = Bare(c: char) | Escaped(c: char)

  predicate GoodQuoted(chars: seq<QuotedChar>) {
    forall i | 0 <= i < |chars| :: chars[i].Bare? ==> chars[i].c != '"' && chars[i].c != '\\'
  }

  predicate GoodLexeme(l: Lexeme) {
    match l case Plain(c) => c != '"' case Quoted(chars) => GoodQuoted(chars)
  }

  function QuotedText(chars: seq<QuotedChar>): string {
    if chars == [] then ""
    else (match chars[0] case Bare(c) => [c] case Escaped(c) => ['\\', c]) + QuotedText(chars[1..])
  }

  function LexemeText(l: Lexeme): string {
    match l case Plain(c) => [c] case Quoted(chars) => "\"" + QuotedText(chars) + "\""
  }

  function Lexemes(ls: seq<Lexeme>): string {
    if ls == [] then "" else LexemeText(ls[0]) + Lexemes(ls[1..])
  }

  /** Opening less closing brackets of the kind of `open`, those in strings left out. */
  function Level(ls: seq<Lexeme>, open: char): int {
    if ls == [] then 0
    else Level(ls[..|ls| - 1], open) + match ls[|ls| - 1]
                                       case Plain(c) => if c == open then 1 else if c == Closing(open) then -1 else 0
                                       case Quoted(_) => 0
  }

  /** A string that never ends: its quote is not followed by an unescaped one. */
  ghost predicate Unfinished(s: string) {
    s == "" || exists chars: seq<QuotedChar> :: OpenString(s, chars)
  }

  predicate OpenString(s: string, chars: seq<QuotedChar>) {
    GoodQuoted(chars) && (s == "\"" + QuotedText(chars) || s == "\"" + QuotedText(chars) + "\\")
  }

  lemma {:induction false} QuotedRun(chars: seq<QuotedChar>, open: char, d: int, tail: string)
    requires GoodQuoted(chars)
    ensures EndOf(State(d, true, false), QuotedText(chars) + tail, open) ==
            Later(|QuotedText(chars)|, EndOf(State(d, true, false), tail, open))
  {
    hide EndOf;
    if chars == [] {
      assert QuotedText(chars) + tail == tail;
    } else {
      var rest := QuotedText(chars[1..]) + tail;
      QuotedRun(chars[1..], open, d, tail);
      match chars[0] {
        case Bare(c) =>
          assert QuotedText(chars) + tail == [c] + rest;
          EndStep(State(d, true, false), c, rest, open);
        case Escaped(c) =>
          assert QuotedText(chars) + tail == ['\\'] + ([c] + rest);
          EndStep(State(d, true, false), '\\', [c] + rest, open);
          EndStep(State(d, true, true), c, rest, open);
      }
    }
  }

  lemma {:induction false} QuotedLexemeRun(chars: seq<QuotedChar>, open: char, d: int, tail: string)
    requires GoodQuoted(chars) && IsBracket(open)
    ensures var s := LexemeText(Quoted(chars));
            EndOf(State(d, false, false), s + tail, open) == Later(|s|, EndOf(State(d, false, false), tail, open))
  {
    hide EndOf, QuotedText;
    var rest := QuotedText(chars) + ("\"" + tail);
    assert LexemeText(Quoted(chars)) + tail == ['"'] + rest;
    EndStep(State(d, false, false), '"', rest, open);
    QuotedRun(chars, open, d, "\"" + tail);
    EndStep(State(d, true, false), '"', tail, open);
  }

  lemma {:induction false} LevelOfOne(l: Lexeme, open: char)
    ensures Level([l], open) == match l
                                case Plain(c) => if c == open then 1 else if c == Closing(open) then -1 else 0
                                case Quoted(_) => 0
  {
    assert [l][..0] == [];
  }

  /** One lexeme of the scan: it ends it, or it moves the depth. */
  lemma {:induction false} LexemeRun(l: Lexeme, open: char, d: int, tail: string)
    requires GoodLexeme(l) && IsBracket(open)
    ensures var s, after := LexemeText(l), d + Level([l], open);
            EndOf(State(d, false, false), s + tail, open) ==
            if Level([l], open) == -1 && after == 0 then Some(1)
            else Later(|s|, EndOf(State(after, false, false), tail, open))
  {
    hide EndOf, QuotedText, Level;
    LevelOfOne(l, open);
    match l {
      case Plain(c) => EndStep(State(d, false, false), c, tail, open);
      case Quoted(chars) => QuotedLexemeRun(chars, open, d, tail);
    }
  }

  lemma {:induction false} LexemesSnoc(ls: seq<Lexeme>, l: Lexeme)
    ensures Lexemes(ls + [l]) == Lexemes(ls) + LexemeText(l)
  {
    if ls == [] {
      assert [l][1..] == [] && ls + [l] == [l];
    } else {
      assert (ls + [l])[1..] == ls[1..] + [l];
      LexemesSnoc(ls[1..], l);
    }
  }

  lemma {:induction false} LevelOf(ls: seq<Lexeme>, l: Lexeme, open: char)
    ensures Level(ls + [l], open) == Level(ls, open) + Level([l], open)
  {
    assert (ls + [l])[..|ls|] == ls && [l][..0] == [];
  }

  /** As long as the brackets do not balance the scan goes on. */
  lemma {:induction false} LexemesRun(ls: seq<Lexeme>, open: char, tail: string)
    requires (forall i | 0 <= i < |ls| :: GoodLexeme(ls[i])) && IsBracket(open)
    requires forall n | 0 < n <= |ls| :: Level(ls[..n], open) != 0
    ensures EndOf(START, Lexemes(ls) + tail, open) ==
            Later(|Lexemes(ls)|, EndOf(State(Level(ls, open), false, false), tail, open))
  {
    hide EndOf, GoodLexeme, LexemeText, Closing, IsBracket;
    if ls == [] {
      assert Lexemes(ls) + tail == tail;
    } else {
      hide Level, Lexemes;
      var n := |ls| - 1;
      var l := ls[n];
      assert ls == ls[..n] + [l] && ls[..|ls|] == ls;
      forall k | 0 < k <= n ensures Level(ls[..n][..k], open) != 0 {
        assert ls[..n][..k] == ls[..k];
      }
      LexemesRun(ls[..n], open, LexemeText(l) + tail);
      LexemesSnoc(ls[..n], l);
      LevelOf(ls[..n], l, open);
      LexemeRun(l, open, Level(ls[..n], open), tail);
      assert Lexemes(ls) + tail == Lexemes(ls[..n]) + (LexemeText(l) + tail);
    }
  }

  lemma {:induction false} UnfinishedNeverEnds(s: string, open: char, d: int)
    requires Unfinished(s) && IsBracket(open)
    ensures EndOf(State(d, false, false), s, open) == None
  {
    hide EndOf;
    NothingEnds(State(d, false, false), open);
    if s != "" {
      var chars :| OpenString(s, chars);
      var rest := if s == "\"" + QuotedText(chars) then "" else "\\";
      assert s == ['"'] + (QuotedText(chars) + rest);
      EndStep(State(d, false, false), '"', QuotedText(chars) + rest, open);
      QuotedRun(chars, open, d, rest);
      NothingEnds(State(d, true, false), open);
      if rest != "" {
        assert rest == ['\\'] + "";
        EndStep(State(d, true, false), '\\', "", open);
        NothingEnds(State(d, true, true), open);
      }
    }
  }

  /** The scan ends where the brackets balance. */
  lemma {:induction false} EndsAtBalance(ls: seq<Lexeme>, open: char, suffix: string)
    requires IsBracket(open) && ls != [] && ls[0] == Plain(open) && forall i | 0 <= i < |ls| :: GoodLexeme(ls[i])
    requires Level(ls, open) == 0 && forall n | 0 < n < |ls| :: Level(ls[..n], open) != 0
    ensures EndOf(START, Lexemes(ls) + suffix, open) == Some(|Lexemes(ls)|)
  {
    LevelOfOne(ls[0], open);
    hide EndOf, Level, Lexemes, LexemeText;
    var n := |ls| - 1;
    var l := ls[n];
    assert ls == ls[..n] + [l];
    forall k | 0 < k <= n ensures Level(ls[..n][..k], open) != 0 {
      assert ls[..n][..k] == ls[..k];
    }
    LexemesRun(ls[..n], open, LexemeText(l) + suffix);
    LexemesSnoc(ls[..n], l);
    LevelOf(ls[..n], l, open);
    StaysPositive(ls, open, n);
    LevelOfOne(l, open);
    LexemeRun(l, open, Level(ls[..n], open), suffix);
    assert |LexemeText(l)| == 1 by { ClosingText(l, open); }
    assert Lexemes(ls) + suffix == Lexemes(ls[..n]) + (LexemeText(l) + suffix);
  }

  lemma {:induction false} ClosingText(l: Lexeme, open: char)
    requires l == Plain(Closing(open))
    ensures |LexemeText(l)| == 1
  {
  }

  lemma {:induction false} CutBehindNoise(noise: string, text: string)
    requires (forall i | 0 <= i < |noise| :: !IsBracket(noise[i])) && text != "" && IsBracket(text[0])
    ensures FirstValueIn(noise + text) == match EndOf(START, text, text[0]) case None => "" case Some(n) => text[..n]
  {
    FirstBracketAt(noise, text);
    assert (noise + text)[|noise|..] == text;
  }

  /** Whatever the text: behind noise without brackets, what is cut out runs from the first bracket to
      where the brackets of its kind outside strings balance for the first time. */
  lemma {:induction false} CutsAtBalance(noise: string, ls: seq<Lexeme>, open: char, suffix: string)
    requires (forall i | 0 <= i < |noise| :: !IsBracket(noise[i])) && IsBracket(open)
    requires ls != [] && ls[0] == Plain(open) && forall i | 0 <= i < |ls| :: GoodLexeme(ls[i])
    requires Level(ls, open) == 0 && forall n | 0 < n < |ls| :: Level(ls[..n], open) != 0
    ensures FirstValueIn(noise + Lexemes(ls) + suffix) == Lexemes(ls)
  {
    EndsAtBalance(ls, open, suffix);
    var text := Lexemes(ls) + suffix;
    assert text[0] == open;
    assert noise + Lexemes(ls) + suffix == noise + text;
    CutBehindNoise(noise, text);
    assert text[..|Lexemes(ls)|] == Lexemes(ls);
  }

  /** Levels move in single steps, so before they come back to zero they are above it. */
  lemma {:induction false} StaysPositive(ls: seq<Lexeme>, open: char, n: nat)
    requires 0 < |ls| && n < |ls| && ls[0] == Plain(open) && IsBracket(open)
    requires forall k | 0 < k < |ls| :: Level(ls[..k], open) != 0
    ensures n > 0 ==> Level(ls[..n], open) > 0
  {
    if n == 1 {
      assert ls[..1] == [Plain(open)] && [Plain(open)][..0] == [];
    } else if n > 1 {
      StaysPositive(ls, open, n - 1);
      assert ls[..n][..n - 1] == ls[..n - 1];
    }
  }

  /** Brackets that never balance, or none at all, and nothing is cut out. */
  lemma {:induction false} NothingToCut(noise: string, ls: seq<Lexeme>, open: char, suffix: string)
    requires forall i | 0 <= i < |noise| :: !IsBracket(noise[i])
    ensures FirstValueIn(noise) == ""
    ensures IsBracket(open) && ls != [] && ls[0] == Plain(open) && (forall i | 0 <= i < |ls| :: GoodLexeme(ls[i])) &&
            (forall n | 0 < n <= |ls| :: Level(ls[..n], open) != 0) && Unfinished(suffix) ==>
              FirstValueIn(noise + Lexemes(ls) + suffix) == ""
  {
    hide EndOf, Unfinished;
    if IsBracket(open) && ls != [] && ls[0] == Plain(open) && (forall i | 0 <= i < |ls| :: GoodLexeme(ls[i])) &&
       (forall n | 0 < n <= |ls| :: Level(ls[..n], open) != 0) && Unfinished(suffix)
    {
      LexemesRun(ls, open, suffix);
      UnfinishedNeverEnds(suffix, open, Level(ls, open));
      assert noise + Lexemes(ls) + suffix == noise + (Lexemes(ls) + suffix);
      assert Lexemes(ls)[0] == open;
      CutBehindNoise(noise, Lexemes(ls) + suffix);
    }
  }
}
