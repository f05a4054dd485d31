/** The "#N" references of a text (agents/merge_pairs.go:46): cutting a string at them, and writing
    the pieces out again. */
module References {
  import opened Messages
  import opened Strings

  /** How many digits the string starts with. */
  function DigitRun(s: string): (k: nat)
    ensures k <= |s| && AllDigits(s[..k]) && (k < |s| ==> !IsDigit(s[k]))
  {
    if s == [] || !IsDigit(s[0]) then 0
    else
      assert s[..1 + DigitRun(s[1..])] == [s[0]] + s[1..][..DigitRun(s[1..])];
      1 + DigitRun(s[1..])
  }

  function Zeros(n: nat): (s: string)
    ensures |s| == n && AllDigits(s)
  {
    if n == 0 then "" else Zeros(n - 1) + "0"
  }

  /** The number a run of digits spells, with its leading zeros. */
  function Number(digits: string): (p: Part)
    requires AllDigits(digits) && digits != []
    ensures p.Ref?
  {
    var d := |digits| - 1;
    var last := (digits[d] - '0') as nat;
    if d == 0 then Ref(last)
    else
      var front := Number(digits[..d]);
      if front.n == 0 then Ref(last, front.zeros + 1) else Ref(10 * front.n + last, front.zeros)
  }

  lemma {:induction false} NumberIsWritten(digits: string)
    requires AllDigits(digits) && digits != []
    ensures Zeros(Number(digits).zeros) + Decimal(Number(digits).n) == digits
  {
    hide Decimal, Zeros;
    var d := |digits| - 1;
    if d == 0 {
      OneDigit(digits);
      NoZeros();
    } else {
      NumberIsWritten(digits[..d]);
      MoreDigits(digits, Number(digits[..d]));
    }
  }

  lemma {:induction false} NoZeros()
    ensures Zeros(0) == ""
  {
  }

  lemma {:induction false} OneDigit(digits: string)
    requires |digits| == 1 && AllDigits(digits)
    ensures Decimal((digits[0] - '0') as nat) == digits
  {
    var n := (digits[0] - '0') as nat;
    assert ("0123456789")[n] == digits[0];
  }

  lemma {:induction false} MoreDigits(digits: string, front: Part)
    requires |digits| >= 2 && AllDigits(digits) && front.Ref?
    requires Zeros(front.zeros) + Decimal(front.n) == digits[..|digits| - 1]
    ensures var last := (digits[|digits| - 1] - '0') as nat;
            digits == if front.n == 0 then Zeros(front.zeros + 1) + Decimal(last)
                      else Zeros(front.zeros) + Decimal(10 * front.n + last)
  {
    hide Decimal, Zeros;
    var d := |digits| - 1;
    var last := (digits[d] - '0') as nat;
    OneDigit(digits[d..]);
    assert digits == digits[..d] + digits[d..];
    if front.n == 0 {
      ZeroIsZeros(front.zeros);
    } else {
      DecimalSnoc(front.n, last);
    }
  }

  lemma {:induction false} ZeroIsZeros(zeros: nat)
    ensures Zeros(zeros) + Decimal(0) == Zeros(zeros + 1)
  {
  }

  lemma {:induction false} DecimalSnoc(n: nat, last: nat)
    requires n > 0 && last < 10
    ensures Decimal(10 * n + last) == Decimal(n) + Decimal(last)
  {
    assert (10 * n + last) / 10 == n && (10 * n + last) % 10 == last;
  }

  /** A character in front of a text. */
  function Before(c: char, t: Text): Text {
    if t != [] && t[0].Lit? then [Lit([c] + t[0].s)] + t[1..] else [Lit([c])] + t
  }

  /** The string cut at its references. */
  function Cut(s: string): Text
    decreases |s|
  {
    if s == [] then []
    else
      var k := DigitRun(s[1..]);
      if s[0] == '#' && k > 0 then [Number(s[1..][..k])] + Cut(s[1..][k..])
      else Before(s[0], Cut(s[1..]))
  }

  function Written(p: Part): string {
    match p case Lit(s) => s case Ref(n, zeros) => "#" + Zeros(zeros) + Decimal(n)
  }

  function Rendered(t: Text): string {
    if t == [] then "" else Written(t[0]) + Rendered(t[1..])
  }

  lemma {:induction false} BeforeRenders(c: char, t: Text)
    ensures Rendered(Before(c, t)) == [c] + Rendered(t)
  {
    if t != [] && t[0].Lit? {
      assert Before(c, t)[1..] == t[1..] && Written(Before(c, t)[0]) == [c] + Written(t[0]);
    } else {
      assert Before(c, t)[1..] == t && Written(Before(c, t)[0]) == [c];
    }
  }

  /** Nothing is lost by cutting. */
  lemma {:induction false} CutRenders(s: string)
    ensures Rendered(Cut(s)) == s
    decreases |s|
  {
    if s != [] {
      var k := DigitRun(s[1..]);
      assert s == [s[0]] + s[1..] && s[1..] == s[1..][..k] + s[1..][k..];
      if s[0] == '#' && k > 0 {
        CutRenders(s[1..][k..]);
        NumberIsWritten(s[1..][..k]);
        assert Cut(s)[1..] == Cut(s[1..][k..]);
        assert Written(Cut(s)[0]) == "#" + s[1..][..k];
      } else {
        CutRenders(s[1..]);
        BeforeRenders(s[0], Cut(s[1..]));
      }
    }
  }

  /** No digit stands right behind a reference, and no literal piece is empty. */
  predicate Clean(t: Text) {
    && (forall i | 0 <= i < |t| && t[i].Lit? :: t[i].s != "")
    && (forall i, j | 0 <= i < |t| && j == i + 1 < |t| && t[i].Ref? && t[j].Lit? :: !IsDigit(t[j].s[0]))
  }

  lemma {:induction false} CleanTail(t: Text)
    requires Clean(t) && t != []
    ensures Clean(t[1..])
  {
    forall i, j | 0 <= i < |t[1..]| && j == i + 1 < |t[1..]| && t[1..][i].Ref? && t[1..][j].Lit?
      ensures !IsDigit(t[1..][j].s[0])
    {
      assert t[1..][i] == t[i + 1] && t[1..][j] == t[j + 1];
    }
  }

  lemma {:induction false} BeforeIsClean(c: char, t: Text)
    requires Clean(t)
    ensures Clean(Before(c, t)) && Before(c, t) != [] && Before(c, t)[0].Lit? && Before(c, t)[0].s[0] == c
  {
    var now := Before(c, t);
    if t != [] && t[0].Lit? {
      forall i, j | 0 <= i < |now| && j == i + 1 < |now| && now[i].Ref? && now[j].Lit? ensures !IsDigit(now[j].s[0]) {
        assert now[i] == t[i] && now[j] == t[j];
      }
    } else {
      forall i, j | 0 <= i < |now| && j == i + 1 < |now| && now[i].Ref? && now[j].Lit? ensures !IsDigit(now[j].s[0]) {
        assert now[i] == t[i - 1] && now[j] == t[j - 1];
      }
    }
  }

  lemma {:induction false} ReferenceIsClean(p: Part, t: Text)
    requires p.Ref? && Clean(t) && (t != [] && t[0].Lit? ==> !IsDigit(t[0].s[0]))
    ensures Clean([p] + t)
  {
    var now := [p] + t;
    forall i, j | 0 <= i < |now| && j == i + 1 < |now| && now[i].Ref? && now[j].Lit? ensures !IsDigit(now[j].s[0]) {
      assert now[j] == t[j - 1] && (i > 0 ==> now[i] == t[i - 1]);
    }
  }

  lemma {:induction false} CutIsClean(s: string)
    ensures Clean(Cut(s))
    ensures s != [] ==> Cut(s) != [] && (Cut(s)[0].Lit? ==> Cut(s)[0].s[0] == s[0])
    decreases |s|
  {
    if s != [] {
      hide Clean, Number, Before;
      var k := DigitRun(s[1..]);
      if s[0] == '#' && k > 0 {
        CutIsClean(s[1..][k..]);
        ReferenceIsClean(Number(s[1..][..k]), Cut(s[1..][k..]));
      } else {
        CutIsClean(s[1..]);
        BeforeIsClean(s[0], Cut(s[1..]));
      }
    } else {
      assert Clean([]);
    }
  }

  /** The text starts with no digit. */
  predicate StartsPlain(s: string) { s == [] || !IsDigit(s[0]) }

  lemma {:induction false} RestStartsPlain(t: Text)
    requires Clean(t) && t != [] && t[0].Ref?
    ensures StartsPlain(Rendered(t[1..]))
  {
    if |t| > 1 { assert t[1..][0] == t[1]; }
  }

  lemma {:induction false} RunLength(digits: string, rest: string)
    requires AllDigits(digits) && StartsPlain(rest)
    ensures DigitRun(digits + rest) == |digits|
  {
    if digits == [] {
      assert digits + rest == rest;
    } else {
      assert (digits + rest)[1..] == digits[1..] + rest;
      RunLength(digits[1..], rest);
    }
  }

  lemma {:induction false} SameRun(a: string, b: string, x: string, y: string)
    requires AllDigits(a) && AllDigits(b) && StartsPlain(x) && StartsPlain(y) && a + x == b + y
    ensures a == b && x == y
  {
    RunLength(a, x);
    RunLength(b, y);
    assert (a + x)[..|a|] == a && (b + y)[..|a|] == b;
    assert (a + x)[|a|..] == x && (b + y)[|a|..] == y;
  }
}
