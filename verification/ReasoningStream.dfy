/** The response body that rewrites event-stream lines on the fly (provider/reasoning_stream.go).
    The rewriting of one line is left open. */
module ReasoningStream {
  import opened Messages
  import opened Strings

  datatype End = Eof | Failure(reason: string)

  /** Complete lines with their newline, then the rest if there is any. */
  function LinesOf(source: string): seq<string>
    decreases |source|
  {
    if source == "" then []
    else match IndexOf(source, '\n')
         case None => [source]
         case Some(i) => [source[..i + 1]] + LinesOf(source[i + 1..])
  }

  function Rewritten(lines: seq<string>, rewrite: string -> string): string {
    if lines == [] then "" else rewrite(lines[0]) + Rewritten(lines[1..], rewrite)
  }

  lemma {:induction false} LinesKeepAllBytes(source: string)
    ensures Rewritten(LinesOf(source), l => l) == source
    decreases |source|
  {
    if source != "" {
      match IndexOf(source, '\n') {
        case None => assert Rewritten([source][1..], l => l) == "";
        case Some(i) =>
          LinesKeepAllBytes(source[i + 1..]);
          assert LinesOf(source)[1..] == LinesOf(source[i + 1..]);
      }
    }
  }

  lemma {:induction false} RewrittenStep(line: string, after: seq<string>, rewrite: string -> string)
    ensures Rewritten((if line == "" then [] else [line]) + after, rewrite) ==
            (if line == "" then "" else rewrite(line)) + Rewritten(after, rewrite)
  {
    if line == "" {
      assert [] + after == after;
    } else {
      assert ([line] + after)[1..] == after;
    }
  }

  lemma {:induction false} NothingLeft(rewrite: string -> string)
    ensures Rewritten(LinesOf(""), rewrite) == ""
  {
  }

  class Body {
    const rewrite: string -> string
    /** How the underlying stream ends. */
    const end: End
    /** What the underlying stream has not delivered yet. */
    var source: string
    var out: string
    var done: bool
    var err: Option<End>

    constructor (source: string, end: End, rewrite: string -> string)
      ensures Valid() && Rest() == Rewritten(LinesOf(source), rewrite) && this.end == end && this.rewrite == rewrite
    {
      this.source, this.end, this.rewrite := source, end, rewrite;
      out, done, err := "", false, None;
    }

    ghost predicate Valid()
      reads this
    {
      && (done ==> source == "")
      && err == if done && end != Eof then Some(end) else None
    }

    /** What the caller has still to get. */
    ghost function Rest(): string
      reads this
    {
      out + Rewritten(LinesOf(source), rewrite)
    }

    /** bufio's ReadBytes: up to the newline, or everything with the end of the stream. */
    method ReadLine() returns (line: string, e: Option<End>)
      requires !done
      modifies `source
      ensures old(LinesOf(source)) == (if line == "" then [] else [line]) + LinesOf(source)
      ensures e == (if source == "" && '\n' !in line then Some(end) else None)
      ensures e.None? ==> |source| < old(|source|)
      ensures e.Some? ==> source == ""
    {
      match IndexOf(source, '\n') {
        case None =>
          line, e := source, Some(end);
          source := "";
        case Some(i) =>
          line, e := source[..i + 1], None;
          assert line[i] == '\n';
          source := source[i + 1..];
      }
    }

    /** Read with a buffer of n bytes. */
    method Read(n: nat) returns (chunk: string, e: Option<End>)
      requires Valid()
      modifies this
      ensures Valid()
      ensures e.None? ==> chunk + Rest() == old(Rest()) && |chunk| <= n && (n > 0 ==> chunk != "")
      ensures e.Some? ==> chunk == "" && old(Rest()) == "" && Rest() == "" && e.value == end && done
    {
      hide LinesOf, Rewritten;
      NothingLeft(rewrite);
      while |out| == 0
        invariant Valid() && Rest() == old(Rest())
        decreases |source|, !done
      {
        if err.Some? {
          return "", err;
        }
        if done {
          return "", Some(Eof);
        }
        var line, last := ReadLine();
        RewrittenStep(line, LinesOf(source), rewrite);
        if |line| > 0 {
          out := out + rewrite(line);
        }
        if last.Some? {
          done := true;
          if last.value != Eof {
            err := last;
          }
        }
      }
      var k := if n < |out| then n else |out|;
      chunk, e := out[..k], None;
      out := out[k..];
    }

    /** Reads with any buffer sizes until the end or until the sizes run out. */
    method ReadAll(sizes: seq<nat>) returns (all: string, e: Option<End>)
      requires Valid()
      modifies this
      ensures Valid() && all + Rest() == old(Rest())
      ensures e.Some? ==> all == old(Rest()) && e.value == end
    {
      all, e := "", None;
      for i := 0 to |sizes|
        invariant Valid() && all + Rest() == old(Rest()) && e == None
      {
        var chunk: string;
        ghost var before := Rest();
        chunk, e := Read(sizes[i]);
        if e.Some? {
          return;
        }
        assert (all + chunk) + Rest() == all + before;
        all := all + chunk;
      }
    }
  }
}
