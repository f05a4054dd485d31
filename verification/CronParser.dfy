/** Cron expressions (cron/parser.go): the field compiler, the matcher and the bounded search for
    the next firing minute. Times are nanoseconds at a fixed offset of whole minutes. */
module CronParser {
  import opened Messages
  import opened Calendar
  import opened Strings

  datatype Error = WrongFieldCount | EmptyElement | BadStep | BadValue | OutOfRange
  datatype Result<+T> = Ok(value: T) | Err(error: Error)

  /** One compiled field: any value, or the listed ones. */
  datatype Field = Field(any: bool, values: set<int>)

  predicate Matches(f: Field, v: int) { f.any || v in f.values }

  datatype Spec = Spec(raw: string, minute: Field, hour: Field, dayOfMonth: Field, month: Field, dayOfWeek: Field)

  /** The simple case folds of a character that reach an ASCII capital letter. */
  function Fold(c: char): char {
    if 'a' <= c <= 'z' then c - 'a' + 'A'
    else if c == '\U{17F}' then 'S'
    else if c == '\U{212A}' then 'K'
    else c
  }

  /** strings.EqualFold against a name in ASCII capitals. */
  predicate EqualFold(tok: string, name: string) {
    |tok| == |name| && forall i | 0 <= i < |tok| :: Fold(tok[i]) == name[i]
  }

  type Names = seq<(string, int)>

  const MONTH_NAMES: Names := [("JAN", 1), ("FEB", 2), ("MAR", 3), ("APR", 4), ("MAY", 5), ("JUN", 6),
                               ("JUL", 7), ("AUG", 8), ("SEP", 9), ("OCT", 10), ("NOV", 11), ("DEC", 12)]
  const DOW_NAMES: Names := [("SUN", 0), ("MON", 1), ("TUE", 2), ("WED", 3), ("THU", 4), ("FRI", 5), ("SAT", 6)]

  function Named(tok: string, names: Names): Option<int> {
    if names == [] then None
    else if EqualFold(tok, names[0].0) then Some(names[0].1)
    else Named(tok, names[1..])
  }

  function ParseValue(tok: string, names: Names): Option<int> {
    match Named(tok, names) case Some(v) => Some(v) case None => Atoi(tok)
  }

  // ---- one element of a field --------------------------------------------------------------------

  /** "*", or the values from lo to hi in steps. */
  datatype Element = Any | Range(lo: int, hi: int, step: int)

  function BaseRange(base: string, min: int, max: int, names: Names): Result<(int, int)> {
    if base == "*" || base == "?" then Ok((min, max))
    else match IndexOf(base, '-')
         case None =>
           (match ParseValue(base, names) case None => Err(BadValue) case Some(v) => Ok((v, v)))
         case Some(i) =>
           (match (ParseValue(base[..i], names), ParseValue(base[i + 1..], names))
            case (Some(lo), Some(hi)) => Ok((lo, hi))
            case _ => Err(BadValue))
  }

  function ParseElement(part: string, min: int, max: int, names: Names): (r: Result<Element>)
    ensures r.Ok? && r.value.Range? ==> min <= r.value.lo <= r.value.hi <= max && 1 <= r.value.step <= MAX_INT64
  {
    if part == [] then Err(EmptyElement)
    else if part == "*" || part == "?" then Ok(Any)
    else
      var slash := IndexOf(part, '/');
      var base := if slash.Some? then part[..slash.value] else part;
      var step := if slash.Some? then Atoi(part[slash.value + 1..]) else Some(1);
      if step.None? || step.value <= 0 then Err(BadStep)
      else match BaseRange(base, min, max, names)
           case Err(e) => Err(e)
           case Ok((lo, hi)) => if lo < min || hi > max || lo > hi then Err(OutOfRange)
                                else Ok(Range(lo, hi, step.value))
  }

  // ---- what the elements are written as -------------------------------------------------------------

  /** Names that differ and are made of capitals. */
  ghost predicate Table(names: Names) {
    && (forall i | 0 <= i < |names| :: names[i].0 != "" && forall c | c in names[i].0 :: 'A' <= c <= 'Z')
    && (forall i, j | 0 <= i < j < |names| :: names[i].0 != names[j].0)
  }

  lemma {:induction false} TablesOfNames()
    ensures Table([]) && Table(MONTH_NAMES) && Table(DOW_NAMES)
  {
    CapitalNames(MONTH_NAMES, 12);
    CapitalNames(DOW_NAMES, 7);
    DifferentNames(MONTH_NAMES, 12);
    DifferentNames(DOW_NAMES, 7);
  }

  lemma {:induction false} CapitalNames(names: Names, n: nat)
    requires |names| == n <= 12 && (names == MONTH_NAMES || names == DOW_NAMES)
    ensures forall i | 0 <= i < n :: |names[i].0| == 3
    ensures forall i | 0 <= i < n :: forall c | c in names[i].0 :: 'A' <= c <= 'Z'
  {
    forall i | 0 <= i < n ensures |names[i].0| == 3 {}
    forall i, k | 0 <= i < n && 0 <= k < 3 ensures 'A' <= names[i].0[k] <= 'Z' {}
  }

  lemma {:induction false} DifferentNames(names: Names, n: nat)
    requires |names| == n <= 12 && forall i | 0 <= i < n :: |names[i].0| == 3
    requires names == MONTH_NAMES || names == DOW_NAMES
    ensures forall i, j | 0 <= i < j < n :: names[i].0 != names[j].0
  {
    forall i, j | 0 <= i < j < n ensures names[i].0 != names[j].0 {
      assert names[i].0[0] != names[j].0[0] || names[i].0[1] != names[j].0[1] || names[i].0[2] != names[j].0[2];
    }
  }

  /** The token stands for v: its decimal digits, or a name of the field in any case. */
  ghost predicate Token(tok: string, v: int, names: Names) {
    || (0 <= v <= MAX_INT64 && tok == Decimal(v))
    || exists i | 0 <= i < |names| :: EqualFold(tok, names[i].0) && names[i].1 == v
  }

  lemma {:induction false} FoldsToOne(tok: string, a: string, b: string)
    requires EqualFold(tok, b)
    ensures EqualFold(tok, a) ==> a == b
  {
  }

  lemma {:induction false} NamedIs(tok: string, names: Names, i: nat)
    requires Table(names) && i < |names| && EqualFold(tok, names[i].0)
    ensures Named(tok, names) == Some(names[i].1)
  {
    if i == 0 {
    } else {
      FoldsToOne(tok, names[0].0, names[i].0);
      NamedIs(tok, names[1..], i - 1);
    }
  }

  lemma {:induction false} NotNamed(tok: string, names: Names)
    requires Table(names) && tok != "" && IsDigit(tok[0])
    ensures Named(tok, names) == None
  {
    if names != [] {
      assert names[0].0[0] in names[0].0;
      NotNamed(tok, names[1..]);
    }
  }

  lemma {:induction false} TokenMeans(tok: string, v: int, names: Names)
    requires Token(tok, v, names) && Table(names)
    ensures ParseValue(tok, names) == Some(v) && tok != ""
    ensures forall c | c in tok :: c != '-' && c != '/' && c != '*' && c != '?'
  {
    if 0 <= v <= MAX_INT64 && tok == Decimal(v) {
      NotNamed(tok, names);
      assert IsDigit(tok[0]);
    } else {
      var i :| 0 <= i < |names| && EqualFold(tok, names[i].0) && names[i].1 == v;
      NamedIs(tok, names, i);
      forall k | 0 <= k < |tok| ensures tok[k] != '-' && tok[k] != '/' && tok[k] != '*' && tok[k] != '?' {
        assert names[i].0[k] in names[i].0;
      }
    }
  }

  /** What a base and a step come to. */
  function Stepping(lo: int, hi: int, step: Option<nat>, min: int, max: int): Result<Element> {
    if step == Some(0) then Err(BadStep)
    else if lo < min || hi > max || lo > hi then Err(OutOfRange)
    else Ok(Range(lo, hi, if step.Some? then step.value else 1))
  }

  function StepText(step: Option<nat>): string { if step.Some? then "/" + Decimal(step.value) else "" }

  lemma {:induction false} BaseAndStep(base: string, lo: int, hi: int, step: Option<nat>, min: int, max: int,
                                       names: Names)
    requires BaseRange(base, min, max, names) == Ok((lo, hi)) && '/' !in base && base != ""
    requires step.Some? ==> step.value <= MAX_INT64
    requires step.None? ==> base != "*" && base != "?"
    ensures ParseElement(base + StepText(step), min, max, names) == Stepping(lo, hi, step, min, max)
  {
    hide BaseRange, Decimal, Atoi, IndexOf;
    var part := base + StepText(step);
    if step.Some? {
      var digits := Decimal(step.value);
      AtoiOfDecimal(step.value);
      assert part == base + "/" + digits && part[..|base|] == base;
      assert part[|base|] == '/' && part[|base| + 1..] == digits;
      IndexIs(part, '/', |base|);
    } else {
      assert part == base;
      NoIndex(part, '/');
    }
  }

  lemma {:induction false} AtoiOfDecimal(n: nat)
    requires n <= MAX_INT64
    ensures Atoi(Decimal(n)) == Some(n)
  {
    hide Decimal;
    assert IsDigit(Decimal(n)[0]);
  }

  /** "n", "a-b", "*", each with or without "/step": single values, ranges, and the whole field. */
  lemma {:induction false} ElementMeans(a: string, x: int, b: string, y: int, step: Option<nat>, min: int, max: int,
                                        names: Names)
    requires Table(names) && Token(a, x, names) && Token(b, y, names) && (step.Some? ==> step.value <= MAX_INT64)
    ensures ParseElement(a + StepText(step), min, max, names) == Stepping(x, x, step, min, max)
    ensures ParseElement(a + "-" + b + StepText(step), min, max, names) == Stepping(x, y, step, min, max)
    ensures ParseElement("*" + StepText(step), min, max, names) ==
            if step.None? then Ok(Any) else Stepping(min, max, step, min, max)
  {
    hide ParseElement, StepText, ParseValue;
    TokenMeans(a, x, names);
    TokenMeans(b, y, names);
    NoIndex(a, '-');
    assert a != "*" && a != "?" by { assert a[0] in a; }
    BaseAndStep(a, x, x, step, min, max, names);
    var span := a + "-" + b;
    assert span[..|a|] == a && span[|a|] == '-' && span[|a| + 1..] == b && span[0] == a[0] && a[0] in a;
    IndexIs(span, '-', |a|);
    BaseAndStep(span, x, y, step, min, max, names);
    if step.Some? { BaseAndStep("*", min, max, step, min, max, names); } else { Star(min, max, names); }
  }

  lemma {:induction false} Star(min: int, max: int, names: Names)
    ensures ParseElement("*" + StepText(None), min, max, names) == Ok(Any)
  {
  }

  // ---- stepping through a range --------------------------------------------------------------------

  /** The sum of two 64-bit integers, wrapped. */
  function WrapAdd(v: int, step: int): int {
    if v + step > MAX_INT64 then v + step - TWO_64 else v + step
  }

  /** A value the loop over a range can reach: below zero only after the sum has wrapped. */
  predicate Reached(v: int, hi: int, step: int) {
    && 0 <= hi <= 59 && 1 <= step <= MAX_INT64 && MIN_INT64 <= v
    && (v < 0 ==> step > MAX_INT64 - 60)
  }

  /** What bounds the loop although the sum may wrap. */
  function Left(v: int, hi: int, step: int): int {
    if v > hi then 0
    else if step <= MAX_INT64 - 60 then hi - v + 1
    else if v >= 0 then 2 * v + 3
    else if v + step < 0 then 2
    else if v + step > hi then 1
    else 2 * (v + step) + 4
  }

  /** The values the loop records. */
  function Stepped(v: int, hi: int, step: int): set<int>
    requires Reached(v, hi, step)
    decreases Left(v, hi, step)
  {
    if v > hi then {} else {v} + Stepped(WrapAdd(v, step), hi, step)
  }

  /** The values the element is documented to stand for. */
  predicate InRange(lo: int, hi: int, step: int, v: int)
    requires step >= 1
  {
    lo <= v <= hi && (v - lo) % step == 0
  }

  lemma {:induction false} ShiftedStep(x: int, step: int)
    requires step >= 1
    ensures x % step == (x - step) % step
  {
    var q, r := x / step, x % step;
    assert x - step == (q - 1) * step + r by { assert q * step - step == (q - 1) * step; }
    Remainder(x - step, q - 1, r, step);
  }

  lemma {:induction false} Remainder(x: int, q: int, r: int, step: int)
    requires step >= 1 && x == q * step + r && 0 <= r < step
    ensures x % step == r
  {
    var q', r' := x / step, x % step;
    assert (q - q') * step == r' - r;
    MultipleBounds(q - q', step);
  }

  lemma {:induction false} MultipleBounds(a: int, step: int)
    requires step >= 1
    ensures a >= 1 ==> a * step >= step
    ensures a <= -1 ==> a * step <= -step
  {
    if a >= 1 { assert (a - 1) * step >= 0; }
    if a <= -1 { assert (-1 - a) * step >= 0; }
  }

  lemma {:induction false} FirstOrLater(lo: int, hi: int, step: int, v: int)
    requires lo <= hi && step >= 1
    ensures InRange(lo, hi, step, v) <==> v == lo || InRange(lo + step, hi, step, v)
  {
    ShiftedStep(v - lo, step);
    assert v - lo - step == v - (lo + step);
    if lo <= v < lo + step { Remainder(v - lo, 0, v - lo, step); }
  }

  lemma {:induction false} SteppedInRange(lo: int, hi: int, step: int)
    requires Reached(lo, hi, step) && 0 <= lo && (lo <= hi ==> lo + step <= MAX_INT64)
    ensures forall v :: v in Stepped(lo, hi, step) <==> InRange(lo, hi, step, v)
    decreases Left(lo, hi, step)
  {
    if lo <= hi {
      SteppedInRange(lo + step, hi, step);
      forall v ensures v in Stepped(lo, hi, step) <==> InRange(lo, hi, step, v) {
        FirstOrLater(lo, hi, step, v);
        assert v in Stepped(lo, hi, step) <==> v == lo || v in Stepped(lo + step, hi, step);
      }
    }
  }

  /** The recorded values are the documented ones exactly when the first sum does not wrap. */
  lemma {:induction false} StepsRightIff(lo: int, hi: int, step: int)
    requires Reached(lo, hi, step) && 0 <= lo <= hi
    ensures (forall v :: v in Stepped(lo, hi, step) <==> InRange(lo, hi, step, v)) <==> lo + step <= MAX_INT64
  {
    if lo + step <= MAX_INT64 {
      SteppedInRange(lo, hi, step);
    } else {
      var w := WrapAdd(lo, step);
      assert w in Stepped(w, hi, step);
      assert w in Stepped(lo, hi, step);
      assert !InRange(lo, hi, step, w);
    }
  }

  lemma {:induction false} WrappedSteps()
    ensures 3 in Stepped(5, 5, MAX_INT64) && 5 in Stepped(5, 5, MAX_INT64)
  {
    assert WrapAdd(5, MAX_INT64) == MIN_INT64 + 4 && WrapAdd(MIN_INT64 + 4, MAX_INT64) == 3;
    assert 3 in Stepped(3, 5, MAX_INT64);
    assert Stepped(MIN_INT64 + 4, 5, MAX_INT64) == {MIN_INT64 + 4} + Stepped(3, 5, MAX_INT64);
    assert Stepped(5, 5, MAX_INT64) == {5} + Stepped(MIN_INT64 + 4, 5, MAX_INT64);
  }

  // ---- the field compiler --------------------------------------------------------------------------

  function AddElement(f: Field, e: Element): Field
    requires e.Range? ==> Reached(e.lo, e.hi, e.step)
  {
    if e.Any? then f.(any := true) else f.(values := f.values + Stepped(e.lo, e.hi, e.step))
  }

  /** A field over its comma-separated parts. */
  function FieldOf(parts: seq<string>, min: int, max: int, names: Names): Result<Field>
    requires 0 <= min <= max <= 59
  {
    if parts == [] then Ok(Field(false, {}))
    else
      match FieldOf(parts[..|parts| - 1], min, max, names)
      case Err(e) => Err(e)
      case Ok(f) =>
        match ParseElement(TrimSpace(parts[|parts| - 1]), min, max, names)
        case Err(e) => Err(e)
        case Ok(e) => Ok(AddElement(f, e))
  }

  /** "5/9223372036854775807". */
  function WideStep(): string { "5/" + Decimal(MAX_INT64) }

  lemma {:induction false} WideStepParses()
    ensures ParseElement(WideStep(), 0, 59, []) == Ok(Range(5, 5, MAX_INT64))
  {
    hide Decimal;
    var part, step := WideStep(), Decimal(MAX_INT64);
    IndexIs(part, '/', 1);
    assert part[..1] == "5" && part[2..] == step;
    assert IsDigit(step[0]);
    assert Atoi(step) == Some(MAX_INT64);
    assert "5"[..0] == [] && Value("5") == 5;
    assert IndexOf("5", '-').None?;
    assert BaseRange("5", 0, 59, []) == Ok((5, 5));
  }

  lemma {:induction false} WideStepIsOnePart()
    ensures Split(WideStep(), ',') == [WideStep()] && TrimSpace(WideStep()) == WideStep()
  {
    hide Decimal;
    var part, step := WideStep(), Decimal(MAX_INT64);
    forall i | 0 <= i < |part| ensures part[i] != ',' {
      if i >= 2 { assert part[i] == step[i - 2]; }
    }
    assert part[0] == '5' && part[|part| - 1] == step[|step| - 1] && IsDigit(step[|step| - 1]);
  }

  /** The minute field "5/9223372036854775807" is accepted and also stands for minute 3. */
  lemma {:induction false} WrappedStepAddsValues()
    ensures ParseElement(WideStep(), 0, 59, []) == Ok(Range(5, 5, MAX_INT64)) && !InRange(5, 5, MAX_INT64, 3)
    ensures var f := FieldOf(Split(WideStep(), ','), 0, 59, []);
            f.Ok? && Matches(f.value, 5) && Matches(f.value, 3)
  {
    hide Stepped, WideStep, ParseElement;
    WideStepParses();
    WideStepIsOnePart();
    WrappedSteps();
    var parts := [WideStep()];
    assert parts[..0] == [] && FieldOf([], 0, 59, []) == Ok(Field(false, {}));
    assert FieldOf(parts, 0, 59, []) == Ok(AddElement(Field(false, {}), Range(5, 5, MAX_INT64)));
  }

  lemma {:induction false} ErrorStays(parts: seq<string>, n: nat, min: int, max: int, names: Names)
    requires 0 <= min <= max <= 59 && n <= |parts| && FieldOf(parts[..n], min, max, names).Err?
    ensures FieldOf(parts, min, max, names) == FieldOf(parts[..n], min, max, names)
    decreases |parts|
  {
    if n < |parts| {
      assert parts[..|parts| - 1][..n] == parts[..n];
      ErrorStays(parts[..|parts| - 1], n, min, max, names);
    } else {
      assert parts[..n] == parts;
    }
  }

  method ParseField(raw: string, min: int, max: int, names: Names) returns (r: Result<Field>)
    requires 0 <= min <= max <= 59
    ensures r == FieldOf(Split(raw, ','), min, max, names)
  {
    hide ParseElement, TrimSpace, Split;
    var parts := Split(raw, ',');
    var f := Field(false, {});
    for i := 0 to |parts|
      invariant FieldOf(parts[..i], min, max, names) == Ok(f)
    {
      assert parts[..i + 1][..i] == parts[..i];
      var e := ParseElement(TrimSpace(parts[i]), min, max, names);
      if e.Err? {
        ErrorStays(parts, i + 1, min, max, names);
        return Err(e.error);
      }
      if e.value.Any? {
        f := f.(any := true);
        continue;
      }
      ghost var before := f;
      var v := e.value.lo;
      while v <= e.value.hi
        invariant Reached(v, e.value.hi, e.value.step)
        invariant f.values + Stepped(v, e.value.hi, e.value.step) ==
                  before.values + Stepped(e.value.lo, e.value.hi, e.value.step)
        invariant f.any == before.any
        decreases Left(v, e.value.hi, e.value.step)
      {
        f := f.(values := f.values + {v});
        v := WrapAdd(v, e.value.step);
      }
      assert f == AddElement(before, e.value);
    }
    assert parts[..|parts|] == parts;
    return Ok(f);
  }

  /** No step of the field wraps. */
  predicate StepsFit(parts: seq<string>, min: int, max: int, names: Names) {
    forall p | p in parts ::
      var e := ParseElement(TrimSpace(p), min, max, names);
      e.Ok? && e.value.Range? ==> e.value.lo + e.value.step <= MAX_INT64
  }

  /** v is listed by some element of the field. */
  predicate Listed(parts: seq<string>, min: int, max: int, names: Names, v: int) {
    exists p | p in parts ::
      var e := ParseElement(TrimSpace(p), min, max, names);
      e.Ok? && e.value.Range? && InRange(e.value.lo, e.value.hi, e.value.step, v)
  }

  predicate Starred(parts: seq<string>, min: int, max: int, names: Names) {
    exists p | p in parts :: ParseElement(TrimSpace(p), min, max, names) == Ok(Any)
  }

  /** An accepted field matches what its elements list and nothing else; it lists something in range. */
  lemma {:induction false} FieldMeaning(parts: seq<string>, min: int, max: int, names: Names)
    requires 0 <= min <= max <= 59 && FieldOf(parts, min, max, names).Ok? && StepsFit(parts, min, max, names)
    ensures var f := FieldOf(parts, min, max, names).value;
            && (f.any <==> Starred(parts, min, max, names))
            && (forall v :: v in f.values <==> Listed(parts, min, max, names, v))
            && (forall v | v in f.values :: min <= v <= max)
            && (parts != [] ==> f.any || exists v :: v in f.values)
  {
    if parts != [] {
      var n := |parts| - 1;
      var f := FieldOf(parts, min, max, names).value;
      var before := FieldOf(parts[..n], min, max, names).value;
      assert parts == parts[..n] + [parts[n]];
      FieldMeaning(parts[..n], min, max, names);
      var e := ParseElement(TrimSpace(parts[n]), min, max, names).value;
      assert forall p :: p in parts <==> p in parts[..n] || p == parts[n];
      if e.Range? {
        SteppedInRange(e.lo, e.hi, e.step);
        assert e.lo in f.values;
        forall v ensures v in f.values <==> Listed(parts, min, max, names, v) {
          assert v in f.values <==> v in before.values || InRange(e.lo, e.hi, e.step, v);
        }
      }
    }
  }

  function SpecOf(expr: string): Result<Spec> {
    var parts := Words(expr, []);
    if |parts| != 5 then Err(WrongFieldCount)
    else match FieldOf(Split(parts[0], ','), 0, 59, [])
         case Err(e) => Err(e)
         case Ok(minute) =>
           match FieldOf(Split(parts[1], ','), 0, 23, [])
           case Err(e) => Err(e)
           case Ok(hour) =>
             match FieldOf(Split(parts[2], ','), 1, 31, [])
             case Err(e) => Err(e)
             case Ok(dom) =>
               match FieldOf(Split(parts[3], ','), 1, 12, MONTH_NAMES)
               case Err(e) => Err(e)
               case Ok(month) =>
                 match FieldOf(Split(parts[4], ','), 0, 7, DOW_NAMES)
                 case Err(e) => Err(e)
                 case Ok(dow) => Ok(Spec(expr, minute, hour, dom, month, dow))
  }

  method Parse(expr: string) returns (r: Result<Spec>)
    ensures r == SpecOf(expr)
  {
    var parts := Words(expr, []);
    if |parts| != 5 {
      return Err(WrongFieldCount);
    }
    var minute := ParseField(parts[0], 0, 59, []);
    if minute.Err? { return Err(minute.error); }
    var hour := ParseField(parts[1], 0, 23, []);
    if hour.Err? { return Err(hour.error); }
    var dom := ParseField(parts[2], 1, 31, []);
    if dom.Err? { return Err(dom.error); }
    var month := ParseField(parts[3], 1, 12, MONTH_NAMES);
    if month.Err? { return Err(month.error); }
    var dow := ParseField(parts[4], 0, 7, DOW_NAMES);
    if dow.Err? { return Err(dow.error); }
    return Ok(Spec(expr, minute.value, hour.value, dom.value, month.value, dow.value));
  }

  // ---- matching ------------------------------------------------------------------------------------

  const MINUTE := 60_000_000_000
  const DAY_MINUTES := 1440

  /** Sunday is 0 or 7. */
  predicate WeekdayIn(f: Field, w: int) { Matches(f, w) || Matches(f, w + 7) || Matches(f, w - 7) }

  predicate WeekdayMatches(spec: Spec, d: int) { WeekdayIn(spec.dayOfWeek, Weekday(d)) }

  /** Day-of-month or day-of-week, when both are restricted. */
  predicate DayMatches(spec: Spec, d: int) {
    var domRestricted, dowRestricted := !spec.dayOfMonth.any, !spec.dayOfWeek.any;
    var domOk := Matches(spec.dayOfMonth, DateOf(d).day);
    if domRestricted && dowRestricted then domOk || WeekdayMatches(spec, d)
    else if domRestricted then domOk
    else if dowRestricted then WeekdayMatches(spec, d)
    else true
  }

  predicate MinuteMatches(spec: Spec, k: int) {
    var d := k / DAY_MINUTES;
    && Matches(spec.minute, k % 60) && Matches(spec.hour, k % DAY_MINUTES / 60) && Matches(spec.month, DateOf(d).month)
    && DayMatches(spec, d)
  }

  predicate Match(spec: Spec, t: int) { MinuteMatches(spec, t / MINUTE) }

  /** What an expression says about a time of day on a date; Sunday is 0 or 7. */
  predicate Scheduled(spec: Spec, t: Date, hour: int, minute: int)
    requires 1 <= t.month <= 12
  {
    var dom, dow, w := spec.dayOfMonth, spec.dayOfWeek, CivilWeekday(t);
    var onDay := t.day in dom.values;
    var onWeekday := w in dow.values || w + 7 in dow.values || w - 7 in dow.values;
    && (spec.minute.any || minute in spec.minute.values) && (spec.hour.any || hour in spec.hour.values)
    && (spec.month.any || t.month in spec.month.values)
    && (if dom.any then dow.any || onWeekday else if dow.any then onDay else onDay || onWeekday)
  }

  predicate IsClock(hour: int, minute: int) { 0 <= hour < 24 && 0 <= minute < 60 }

  /** The minute of a time of day on a date. */
  function MinuteNumber(t: Date, hour: int, minute: int): int
    requires IsDate(t) && IsClock(hour, minute)
  {
    DAY_MINUTES * DayOf(t) + 60 * hour + minute
  }

  /** A time matches exactly when the expression says so of its date and time of day. */
  lemma {:induction false} MatchMeans(spec: Spec, c: int, t: Date, hour: int, minute: int)
    requires IsDate(t) && IsClock(hour, minute) && c / MINUTE == MinuteNumber(t, hour, minute)
    ensures Match(spec, c) <==> Scheduled(spec, t, hour, minute)
  {
    hide DayOf, DateOf, CivilWeekday, Weekday;
    ClockOf(DayOf(t), hour, minute);
    DateOfDay(t);
    WeekdayIsCivil(t);
  }

  function TimeOfDay(k: int): (r: (Date, int, int))
    ensures IsDate(r.0) && IsClock(r.1, r.2)
  {
    (DateOf(k / DAY_MINUTES), k % DAY_MINUTES / 60, k % 60)
  }

  /** Every minute is a time of day on a date. */
  lemma {:induction false} TimeOfMinute(k: int)
    ensures MinuteNumber(TimeOfDay(k).0, TimeOfDay(k).1, TimeOfDay(k).2) == k
  {
    hide DayOf, DateOf;
    DayOfDate(k / DAY_MINUTES);
    WholeHours(24 * (k / DAY_MINUTES), k % DAY_MINUTES);
    assert k == 60 * (24 * (k / DAY_MINUTES)) + k % DAY_MINUTES;
  }

  /** No time of day on a date between the minutes is on schedule. */
  ghost predicate NoneBetween(spec: Spec, from: int, until: int) {
    forall t: Date, hour, minute | IsDate(t) && IsClock(hour, minute) && from < MinuteNumber(t, hour, minute) < until ::
      !Scheduled(spec, t, hour, minute)
  }

  lemma {:induction false} NextIsFirstOnSchedule(spec: Spec, now: int, next: int)
    requires IsNext(spec, now, Some(next))
    ensures var r := TimeOfDay(next / MINUTE);
            Scheduled(spec, r.0, r.1, r.2) && next == MINUTE * MinuteNumber(r.0, r.1, r.2)
    ensures now / MINUTE < next / MINUTE && NoneBetween(spec, now / MINUTE, next / MINUTE)
  {
    hide Match, DayOf, DateOf, Scheduled;
    var k := next / MINUTE;
    var r := TimeOfDay(k);
    TimeOfMinute(k);
    MatchMeans(spec, next, r.0, r.1, r.2);
    LaterMinute(now, next);
    forall t: Date, hour, minute
      | IsDate(t) && IsClock(hour, minute) && now / MINUTE < MinuteNumber(t, hour, minute) < k
      ensures !Scheduled(spec, t, hour, minute)
    {
      var n := MinuteNumber(t, hour, minute);
      MinuteOf(n);
      MatchMeans(spec, n * MINUTE, t, hour, minute);
      assert n * MINUTE < next;
    }
  }

  const MAX_ITER := 366 * 24 * 60 * 8

  /** `next` is the first matching minute behind t; there is none only if no minute ever matches. */
  ghost predicate IsNext(spec: Spec, t: int, next: Option<int>) {
    && (next.Some? ==> next.value > t && next.value % MINUTE == 0 && Match(spec, next.value))
    && (next.Some? ==> forall c :: t / MINUTE < c / MINUTE && c < next.value ==> !Match(spec, c))
    && (next.None? ==> forall c :: !Match(spec, c))
  }

  lemma {:induction false} NextIsUnique(spec: Spec, t: int, a: Option<int>, b: Option<int>)
    requires IsNext(spec, t, a) && IsNext(spec, t, b)
    ensures a == b
  {
    if a.Some? && b.Some? {
      NotBefore(spec, t, a.value, b.value);
      NotBefore(spec, t, b.value, a.value);
    }
  }

  lemma {:induction false} NotBefore(spec: Spec, t: int, a: int, b: int)
    requires IsNext(spec, t, Some(b)) && a > t && a % MINUTE == 0 && Match(spec, a)
    ensures b <= a
  {
    LaterMinute(t, a);
  }

  lemma {:induction false} LaterMinute(t: int, a: int)
    requires t < a && a % MINUTE == 0
    ensures t / MINUTE < a / MINUTE
  {
  }

  method NextAfter(spec: Spec, t: int) returns (next: Option<int>)
    ensures IsNext(spec, t, next)
    ensures next.Some? ==> var (date, hour, minute) := TimeOfDay(next.value / MINUTE);
                           && next.value == MINUTE * MinuteNumber(date, hour, minute)
                           && Scheduled(spec, date, hour, minute)
                           && NoneBetween(spec, t / MINUTE, next.value / MINUTE)
    ensures next.Some? && spec.dayOfMonth.any && !spec.dayOfWeek.any ==>
              var w := CivilWeekday(TimeOfDay(next.value / MINUTE).0);
              w in spec.dayOfWeek.values || w + 7 in spec.dayOfWeek.values || w - 7 in spec.dayOfWeek.values
  {
    hide TimeOfDay, NoneBetween, MinuteNumber;
    var cand := t - t % MINUTE + MINUTE;
    ghost var first := t / MINUTE + 1;
    assert cand == first * MINUTE;
    for i := 0 to MAX_ITER
      invariant cand == (first + i) * MINUTE
      invariant forall k :: first <= k < first + i ==> !MinuteMatches(spec, k)
    {
      MinuteOf(first + i);
      if Match(spec, cand) {
        forall c | t / MINUTE < c / MINUTE && c < cand ensures !Match(spec, c) {
          BeforeMinute(c, first + i);
        }
        NextIsFirstOnSchedule(spec, t, cand);
        return Some(cand);
      }
      cand := cand + MINUTE;
    }
    forall c ensures !Match(spec, c) {
      if Match(spec, c) {
        var k := MatchRecurs(spec, c / MINUTE, t / MINUTE);
        assert false;
      }
    }
    return None;
  }

  lemma {:induction false} MinuteOf(k: int)
    ensures k * MINUTE / MINUTE == k && k * MINUTE % MINUTE == 0
  {
  }

  lemma {:induction false} BeforeMinute(c: int, k: int)
    requires c < k * MINUTE
    ensures c / MINUTE < k
  {
  }

  /** Any minute that ever matches has a match within WAIT days behind any other minute. */
  lemma {:induction false} MatchRecurs(spec: Spec, k: int, after: int) returns (again: int)
    requires MinuteMatches(spec, k)
    ensures after < again <= after + (WAIT + 1) * DAY_MINUTES && MinuteMatches(spec, again)
  {
    var d := DayRecurs(spec, k / DAY_MINUTES, after / DAY_MINUTES + 1);
    again := d * DAY_MINUTES + k % DAY_MINUTES;
    SameClock(k, d);
  }

  lemma {:induction false} SameClock(k: int, d: int)
    ensures var again := d * DAY_MINUTES + k % DAY_MINUTES;
            again / DAY_MINUTES == d && again % DAY_MINUTES == k % DAY_MINUTES && again % 60 == k % 60
  {
    var q, r := k / DAY_MINUTES, k % DAY_MINUTES;
    WholeHours(24 * d, r);
    WholeHours(24 * q, r);
    assert d * DAY_MINUTES + r == 60 * (24 * d) + r && k == 60 * (24 * q) + r;
  }

  lemma {:induction false} WholeHours(h: int, r: int)
    ensures (60 * h + r) % 60 == r % 60
  {
  }

  lemma {:induction false} DayRecurs(spec: Spec, d: int, start: int) returns (again: int)
    requires Matches(spec.month, DateOf(d).month) && DayMatches(spec, d)
    ensures start <= again < start + WAIT
    ensures Matches(spec.month, DateOf(again).month) && DayMatches(spec, again)
  {
    var month := DateOf(d).month;
    if !spec.dayOfMonth.any && Matches(spec.dayOfMonth, DateOf(d).day) {
      again := WindowHasDate(start, month, DateOf(d).day);
    } else {
      again := WindowHasWeekday(start, month, Weekday(d));
    }
  }

  // ---- which expressions ever fire -------------------------------------------------------------------

  ghost predicate EverFires(spec: Spec) { exists c :: Match(spec, c) }

  predicate HasIn(f: Field, lo: int, hi: int) {
    exists v: int | lo <= v <= hi :: Matches(f, v)
  }

  /** The field names a day that month m has in some year. */
  predicate HasDay(f: Field, m: int) { HasIn(f, 1, MonthDays(true, m)) }

  predicate HasWeekday(f: Field) { exists w: int | 0 <= w < 7 :: WeekdayIn(f, w) }

  /** In month m some day can meet the two day fields. */
  predicate MonthServes(spec: Spec, m: int) {
    && Matches(spec.month, m)
    && ((spec.dayOfMonth.any && spec.dayOfWeek.any) || (!spec.dayOfWeek.any && HasWeekday(spec.dayOfWeek)) ||
        (!spec.dayOfMonth.any && HasDay(spec.dayOfMonth, m)))
  }

  predicate Satisfiable(spec: Spec) {
    HasIn(spec.minute, 0, 59) && HasIn(spec.hour, 0, 23) && exists m: int | 1 <= m <= 12 :: MonthServes(spec, m)
  }

  lemma {:induction false} DayInMonth(spec: Spec, m: int) returns (d: int)
    requires 1 <= m <= 12 && MonthServes(spec, m)
    ensures DateOf(d).month == m && DayMatches(spec, d)
  {
    if !spec.dayOfMonth.any && HasDay(spec.dayOfMonth, m) {
      var n: int :| 1 <= n <= MonthDays(true, m) && Matches(spec.dayOfMonth, n);
      d := WindowHasDate(0, m, n);
    } else if !spec.dayOfWeek.any {
      var w: int :| 0 <= w < 7 && WeekdayIn(spec.dayOfWeek, w);
      d := WindowHasWeekday(0, m, w);
    } else {
      d := WindowHasDate(0, m, 1);
    }
  }

  lemma {:induction false} ClockOf(d: int, hour: int, minute: int)
    requires 0 <= hour < 24 && 0 <= minute < 60
    ensures var k := d * DAY_MINUTES + 60 * hour + minute;
            k / DAY_MINUTES == d && k % DAY_MINUTES / 60 == hour && k % 60 == minute
  {
    WholeHours(24 * d + hour, minute);
  }

  /** An expression fires at some time if and only if its fields can be met together. */
  lemma {:induction false} FiresIffSatisfiable(spec: Spec)
    ensures EverFires(spec) <==> Satisfiable(spec)
  {
    if Satisfiable(spec) {
      var minute: int :| 0 <= minute <= 59 && Matches(spec.minute, minute);
      var hour: int :| 0 <= hour <= 23 && Matches(spec.hour, hour);
      var m: int :| 1 <= m <= 12 && MonthServes(spec, m);
      var d := DayInMonth(spec, m);
      var k := d * DAY_MINUTES + 60 * hour + minute;
      ClockOf(d, hour, minute);
      MinuteOf(k);
      assert Match(spec, k * MINUTE);
    }
    if EverFires(spec) {
      var c :| Match(spec, c);
      SatisfiedBy(spec, c / MINUTE);
    }
  }

  lemma {:induction false} SatisfiedBy(spec: Spec, k: int)
    requires MinuteMatches(spec, k)
    ensures Satisfiable(spec)
  {
    assert 0 <= k % 60 <= 59 && Matches(spec.minute, k % 60);
    assert 0 <= k % DAY_MINUTES / 60 <= 23 && Matches(spec.hour, k % DAY_MINUTES / 60);
    var d := k / DAY_MINUTES;
    var t := DateOf(d);
    if !spec.dayOfMonth.any && Matches(spec.dayOfMonth, t.day) {
      assert 1 <= t.day <= MonthDays(true, t.month) && Matches(spec.dayOfMonth, t.day);
    } else if !spec.dayOfWeek.any {
      assert 0 <= Weekday(d) < 7 && WeekdayIn(spec.dayOfWeek, Weekday(d));
    }
    assert 1 <= t.month <= 12 && MonthServes(spec, t.month);
  }

  ghost predicate FieldOk(f: Field, lo: int, hi: int) {
    f.any || ((exists v :: v in f.values) && forall v | v in f.values :: lo <= v <= hi)
  }

  ghost predicate SpecOk(spec: Spec) {
    && FieldOk(spec.minute, 0, 59) && FieldOk(spec.hour, 0, 23) && FieldOk(spec.dayOfMonth, 1, 31)
    && FieldOk(spec.month, 1, 12) && FieldOk(spec.dayOfWeek, 0, 7)
  }

  predicate NoWrap(expr: string) {
    var parts := Words(expr, []);
    |parts| == 5 ==>
      && StepsFit(Split(parts[0], ','), 0, 59, []) && StepsFit(Split(parts[1], ','), 0, 23, [])
      && StepsFit(Split(parts[2], ','), 1, 31, []) && StepsFit(Split(parts[3], ','), 1, 12, MONTH_NAMES)
      && StepsFit(Split(parts[4], ','), 0, 7, DOW_NAMES)
  }

  lemma {:induction false} ParsedIsOk(expr: string)
    requires SpecOf(expr).Ok? && NoWrap(expr)
    ensures SpecOk(SpecOf(expr).value)
  {
    var parts := Words(expr, []);
    FieldMeaning(Split(parts[0], ','), 0, 59, []);
    FieldMeaning(Split(parts[1], ','), 0, 23, []);
    FieldMeaning(Split(parts[2], ','), 1, 31, []);
    FieldMeaning(Split(parts[3], ','), 1, 12, MONTH_NAMES);
    FieldMeaning(Split(parts[4], ','), 0, 7, DOW_NAMES);
  }

  lemma {:induction false} OkHasIn(f: Field, lo: int, hi: int)
    requires FieldOk(f, lo, hi) && lo <= hi
    ensures HasIn(f, lo, hi)
  {
    if f.any {
      assert Matches(f, lo);
    } else {
      var v :| v in f.values;
      assert Matches(f, v);
    }
  }

  /** An accepted expression never fires only if its day of the month lies in none of its months
      and no day of the week may serve instead: 30 February, but not 30 February or a Monday. */
  lemma {:induction false} NeverFiresIff(expr: string)
    requires SpecOf(expr).Ok? && NoWrap(expr)
    ensures var spec := SpecOf(expr).value;
            !EverFires(spec) <==> (!spec.dayOfMonth.any && spec.dayOfWeek.any &&
                                   forall m | 1 <= m <= 12 && Matches(spec.month, m) :: !HasDay(spec.dayOfMonth, m))
  {
    ParsedIsOk(expr);
    SatisfiableUnless(SpecOf(expr).value);
    FiresIffSatisfiable(SpecOf(expr).value);
  }

  lemma {:induction false} OkHasWeekday(f: Field)
    requires FieldOk(f, 0, 7) && !f.any
    ensures HasWeekday(f)
  {
    OkHasIn(f, 0, 7);
    var v: int :| 0 <= v <= 7 && Matches(f, v);
    assert WeekdayIn(f, if v == 7 then 0 else v);
  }

  lemma {:induction false} SatisfiableUnless(spec: Spec)
    requires SpecOk(spec)
    ensures Satisfiable(spec) <==> (spec.dayOfMonth.any || !spec.dayOfWeek.any ||
                                    exists m :: 1 <= m <= 12 && Matches(spec.month, m) && HasDay(spec.dayOfMonth, m))
  {
    OkHasIn(spec.minute, 0, 59);
    OkHasIn(spec.hour, 0, 23);
    OkHasIn(spec.month, 1, 12);
    var m: int :| 1 <= m <= 12 && Matches(spec.month, m);
    if !spec.dayOfWeek.any { OkHasWeekday(spec.dayOfWeek); }
    if spec.dayOfMonth.any || !spec.dayOfWeek.any { assert MonthServes(spec, m); }
    forall n: int | 1 <= n <= 12 && Matches(spec.month, n) && HasDay(spec.dayOfMonth, n) ensures Satisfiable(spec) {
      if !spec.dayOfMonth.any && spec.dayOfWeek.any { assert MonthServes(spec, n); }
    }
  }
}
