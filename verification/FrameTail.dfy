/** Reading protocol frames: line by line while the spool grows (execproc/script.go frameTail) and
    at once from the whole text (execproc/executor.go SplitFrames). */
module FrameTail {
  import opened Messages
  import opened Strings

  function TrimCR(line: string): string {
    if line != [] && line[|line| - 1] == '\r' then line[..|line| - 1] else line
  }

  function Trimmed(lines: seq<string>): (out: seq<string>)
    ensures |out| == |lines| && forall i | 0 <= i < |lines| :: out[i] == TrimCR(lines[i])
  {
    seq(|lines|, i requires 0 <= i < |lines| => TrimCR(lines[i]))
  }

  /** The terminated lines of a text, and what follows the last newline. */
  function Terminated(text: string): seq<string> {
    var parts := Split(text, '\n'); parts[..|parts| - 1]
  }

  function LastPart(text: string): string {
    var parts := Split(text, '\n'); parts[|parts| - 1]
  }

  lemma {:induction false} SplitAt(s: string, n: nat)
    requires IndexOf(s, '\n') == Some(n)
    ensures n < |s| && Split(s, '\n') == [s[..n]] + Split(s[n + 1..], '\n')
  {
  }

  lemma {:induction false} SplitAppend(a: string, b: string)
    ensures Split(a + b, '\n') == Terminated(a) + Split(LastPart(a) + b, '\n')
    decreases |a|
  {
    var i := IndexOf(a, '\n');
    if i.Some? {
      var n := i.value;
      IndexIs(a + b, '\n', n);
      assert (a + b)[..n] == a[..n] && (a + b)[n + 1..] == a[n + 1..] + b;
      SplitAppend(a[n + 1..], b);
      SplitAt(a, n);
      SplitAt(a + b, n);
      hide Split, IndexOf;
      assert Terminated(a) == [a[..n]] + Terminated(a[n + 1..]);
      assert [a[..n]] + (Terminated(a[n + 1..]) + Split(LastPart(a) + b, '\n')) ==
             Terminated(a) + Split(LastPart(a) + b, '\n');
    }
  }

  lemma {:induction false} TrimmedConcat(a: seq<string>, b: seq<string>)
    ensures Trimmed(a + b) == Trimmed(a) + Trimmed(b)
  {
  }

  lemma {:induction false} TrimmedSnoc(a: seq<string>, line: string)
    ensures Trimmed(a + [line]) == Trimmed(a) + [TrimCR(line)]
  {
  }

  lemma {:induction false} SplitWhole(s: string)
    requires IndexOf(s, '\n').None?
    ensures Split(s, '\n') == [s]
  {
  }

  class Tail {
    /** Everything read so far. */
    var raw: string
    /** What follows the last newline. */
    var part: string
    /** The lines handed to the callback. */
    var lines: seq<string>

    constructor ()
      ensures Valid() && raw == ""
    {
      raw, part, lines := "", "", [];
    }

    /** However the bytes were chunked, the callback has seen the terminated lines of all of them. */
    ghost predicate Valid()
      reads this
    {
      part == LastPart(raw) && lines == Trimmed(Terminated(raw))
    }

    method Consume(chunk: string)
      requires Valid()
      modifies this
      ensures Valid() && raw == old(raw) + chunk
    {
      hide IndexOf, Split, Trimmed;
      ghost var before := raw;
      SplitAppend(raw, chunk);
      raw := raw + chunk;
      part := part + chunk;
      ghost var whole := part;
      ghost var cut: seq<string> := [];
      var emitted: seq<string> := [];
      assert Split(whole, '\n') == cut + Split(part, '\n');
      while true
        invariant raw == before + chunk && lines == old(lines)
        invariant Split(whole, '\n') == cut + Split(part, '\n') && emitted == Trimmed(cut)
        decreases |part|
      {
        var i := IndexOf(part, '\n');
        if i.None? {
          break;
        }
        SplitAt(part, i.value);
        TrimmedSnoc(cut, part[..i.value]);
        emitted := emitted + [TrimCR(part[..i.value])];
        cut := cut + [part[..i.value]];
        part := part[i.value + 1..];
      }
      SplitWhole(part);
      assert Split(raw, '\n') == (Terminated(before) + cut) + [part];
      TrimmedConcat(Terminated(before), cut);
      lines := lines + emitted;
    }

    /** The remaining chunks once the writer is gone; the whole text. */
    method Finish(rest: seq<string>) returns (text: string)
      requires Valid()
      modifies this
      ensures Valid() && text == raw == old(raw) + Concat(rest)
    {
      for i := 0 to |rest|
        invariant Valid() && raw == old(raw) + Concat(rest[..i])
      {
        assert rest[..i + 1][..i] == rest[..i];
        Consume(rest[i]);
      }
      assert rest[..|rest|] == rest;
      return raw;
    }
  }

  function Concat(chunks: seq<string>): string {
    if chunks == [] then "" else Concat(chunks[..|chunks| - 1]) + chunks[|chunks| - 1]
  }

  // ---- the one-shot form ------------------------------------------------------------------------

  /** A protocol frame, as parseFrameLine decodes it from a line. */
  datatype Frame = Frame(notify: string, id: string, body: string)

  function FramesIn(lines: seq<string>, parse: string -> Option<Frame>): seq<Frame> {
    if lines == [] then []
    else FramesIn(lines[..|lines| - 1], parse) +
         match parse(lines[|lines| - 1]) case Some(f) => [f] case None => []
  }

  function OthersIn(lines: seq<string>, parse: string -> Option<Frame>): seq<string> {
    if lines == [] then []
    else OthersIn(lines[..|lines| - 1], parse) + if parse(lines[|lines| - 1]).Some? then [] else [lines[|lines| - 1]]
  }

  method SplitFrames(text: string, parse: string -> Option<Frame>) returns (frames: seq<Frame>, tail: string)
    ensures frames == FramesIn(Split(text, '\n'), parse)
    ensures tail == TrimSpace(Join(OthersIn(Split(text, '\n'), parse), '\n'))
  {
    var parts := Split(text, '\n');
    frames := [];
    var tailLines: seq<string> := [];
    for i := 0 to |parts|
      invariant frames == FramesIn(parts[..i], parse) && tailLines == OthersIn(parts[..i], parse)
    {
      assert parts[..i + 1][..i] == parts[..i];
      var f := parse(parts[i]);
      if f.Some? {
        frames := frames + [f.value];
        continue;
      }
      tailLines := tailLines + [parts[i]];
    }
    assert parts[..|parts|] == parts;
    tail := TrimSpace(Join(tailLines, '\n'));
  }

  /** Positions of the lines that are frames, and of the others. */
  function Places(lines: seq<string>, parse: string -> Option<Frame>, frame: bool): (at: seq<nat>)
    ensures forall i | 0 <= i < |at| :: at[i] < |lines| && parse(lines[at[i]]).Some? == frame
    ensures forall i, j | 0 <= i < j < |at| :: at[i] < at[j]
    ensures forall k | 0 <= k < |lines| && parse(lines[k]).Some? == frame :: k in at
  {
    if lines == [] then []
    else
      var n := |lines| - 1;
      Places(lines[..n], parse, frame) + if parse(lines[n]).Some? == frame then [n] else []
  }

  lemma {:induction false} PlacesCount(lines: seq<string>, parse: string -> Option<Frame>)
    ensures |Places(lines, parse, true)| + |Places(lines, parse, false)| == |lines|
  {
    if lines != [] { PlacesCount(lines[..|lines| - 1], parse); }
  }

  lemma {:induction false} FramesAtPlaces(lines: seq<string>, parse: string -> Option<Frame>)
    ensures var f := Places(lines, parse, true);
            |FramesIn(lines, parse)| == |f| && forall i | 0 <= i < |f| ::
              parse(lines[f[i]]) == Some(FramesIn(lines, parse)[i])
  {
    if lines != [] { FramesAtPlaces(lines[..|lines| - 1], parse); }
  }

  lemma {:induction false} OthersAtPlaces(lines: seq<string>, parse: string -> Option<Frame>)
    ensures var o := Places(lines, parse, false);
            |OthersIn(lines, parse)| == |o| && forall i | 0 <= i < |o| :: OthersIn(lines, parse)[i] == lines[o[i]]
  {
    if lines != [] { OthersAtPlaces(lines[..|lines| - 1], parse); }
  }

  /** Each line goes to exactly one side, in order. */
  lemma {:induction false} EachLineOnce(lines: seq<string>, parse: string -> Option<Frame>)
    ensures var f, o := Places(lines, parse, true), Places(lines, parse, false);
            && |f| + |o| == |lines|
            && |FramesIn(lines, parse)| == |f| && |OthersIn(lines, parse)| == |o|
            && (forall i | 0 <= i < |f| :: parse(lines[f[i]]) == Some(FramesIn(lines, parse)[i]))
            && (forall i | 0 <= i < |o| :: OthersIn(lines, parse)[i] == lines[o[i]])
  {
    hide Places, FramesIn, OthersIn;
    PlacesCount(lines, parse);
    FramesAtPlaces(lines, parse);
    OthersAtPlaces(lines, parse);
  }

  /** A text without frames reaches the tail whole, up to outer white space. */
  lemma {:induction false} NoFramesNoLoss(text: string, parse: string -> Option<Frame>)
    requires forall l | l in Split(text, '\n') :: parse(l).None?
    ensures OthersIn(Split(text, '\n'), parse) == Split(text, '\n')
    ensures TrimSpace(Join(OthersIn(Split(text, '\n'), parse), '\n')) == TrimSpace(text)
  {
    AllOthers(Split(text, '\n'), parse);
    JoinSplit(text, '\n');
  }

  lemma {:induction false} AllOthers(lines: seq<string>, parse: string -> Option<Frame>)
    requires forall l | l in lines :: parse(l).None?
    ensures OthersIn(lines, parse) == lines
  {
    if lines != [] {
      var n := |lines| - 1;
      assert lines[n] in lines && lines == lines[..n] + [lines[n]];
      forall l | l in lines[..n] ensures parse(l).None? {
        assert l in lines;
      }
      AllOthers(lines[..n], parse);
      assert OthersIn(lines, parse) == OthersIn(lines[..n], parse) + [lines[n]];
    }
  }

  /** The frames seen while the spool grew are those of the whole text, except that a last line
      without newline is only seen at the end. */
  lemma {:induction false} IncrementalFrames(text: string, parse: string -> Option<Frame>)
    requires forall l :: parse(TrimCR(l)) == parse(l)
    ensures FramesIn(Split(text, '\n'), parse) ==
            FramesIn(Trimmed(Terminated(text)), parse) +
              (match parse(LastPart(text)) case Some(f) => [f] case None => [])
  {
    var parts := Split(text, '\n');
    TrimmedFrames(Terminated(text), parse);
    assert parts == Terminated(text) + [LastPart(text)];
  }

  lemma {:induction false} TrimmedFrames(lines: seq<string>, parse: string -> Option<Frame>)
    requires forall l :: parse(TrimCR(l)) == parse(l)
    ensures FramesIn(Trimmed(lines), parse) == FramesIn(lines, parse)
  {
    if lines != [] {
      assert Trimmed(lines)[..|lines| - 1] == Trimmed(lines[..|lines| - 1]);
      TrimmedFrames(lines[..|lines| - 1], parse);
    }
  }
}
