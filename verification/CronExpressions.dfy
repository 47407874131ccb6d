/** Parsing of five-field cron expressions (packages/shared/src/scheduling/cron-evaluator.ts). */
module CronExpressions {
  import opened Types
  import opened Strings

  datatype CronFields = CronFields(
    minutes: seq<int>, hours: seq<int>, daysOfMonth: seq<int>, months: seq<int>, daysOfWeek: seq<int>)

  datatype FieldSpec = FieldSpec(name: string, min: int, max: int)

  const MINUTE := FieldSpec("minute", 0, 59)
  const HOUR := FieldSpec("hour", 0, 23)
  const DAY_OF_MONTH := FieldSpec("day-of-month", 1, 31)
  const MONTH := FieldSpec("month", 1, 12)
  const DAY_OF_WEEK := FieldSpec("day-of-week", 0, 6)

  /** What the exceptions report; the wording is left out. */
  datatype CronError =
    | EmptyExpression
    | NotFiveFields(count: nat)
    | InvalidStep(text: string, field: string)
    | InvalidRange(text: string, field: string)
    | InvalidValue(text: string, field: string)
    | ValueOutOfRange(n: int, field: string)
    | StartOutOfBounds(n: int, field: string)
    | EndOutOfBounds(n: int, field: string)
    | StartAfterEnd(start: int, end: int, field: string)
    | NoValues(field: string)
    | NoRunTime

  /** The numbers start, start + step, ... up to end. */
  datatype Progression = Progression(start: int, end: int, step: int)

  function ValidateRange(start: int, end: int, spec: FieldSpec): Option<CronError> {
    if start < spec.min || start > spec.max then Some(StartOutOfBounds(start, spec.name))
    else if end < spec.min || end > spec.max then Some(EndOutOfBounds(end, spec.name))
    else if start > end then Some(StartAfterEnd(start, end, spec.name))
    else None
  }

  function Validated(start: int, end: int, step: int, spec: FieldSpec): Result<Progression, CronError> {
    var bad := ValidateRange(start, end, spec);
    if bad.Some? then Err(bad.value) else Ok(Progression(start, end, step))
  }

  // ----- The code's reading of one comma part -----

  function StepBounds(rangeStr: string, step: int, spec: FieldSpec): (r: Result<Progression, CronError>)
    ensures if r.Ok? then r.value.step == step else !r.error.NoValues?
  {
    if rangeStr == "*" then Validated(spec.min, spec.max, step, spec)
    else if '-' in rangeStr then
      var pieces := Split(rangeStr, '-');
      var s, e := ToNumber(pieces[0]), ToNumber(pieces[1]);
      if s.None? || e.None? then Err(InvalidRange(rangeStr, spec.name))
      else Validated(s.value, e.value, step, spec)
    else
      var s := ParseInt(rangeStr);
      if s.None? then Err(InvalidValue(rangeStr, spec.name)) else Validated(s.value, spec.max, step, spec)
  }

  function SpanBounds(part: string, spec: FieldSpec): (r: Result<Progression, CronError>)
    requires '-' in part
    ensures if r.Ok? then r.value.step == 1 else !r.error.NoValues?
  {
    var pieces := Split(part, '-');
    var s, e := ParseInt(pieces[0]), ParseInt(pieces[1]);
    if s.None? || e.None? then Err(InvalidRange(part, spec.name)) else Validated(s.value, e.value, 1, spec)
  }

  function PartBounds(part: string, spec: FieldSpec): (r: Result<Progression, CronError>)
    ensures if r.Ok? then r.value.step > 0 else !r.error.NoValues?
  {
    if '/' in part then
      var pieces := Split(part, '/');
      var step := ParseInt(pieces[1]);
      if step.None? || step.value <= 0 then Err(InvalidStep(pieces[1], spec.name))
      else StepBounds(pieces[0], step.value, spec)
    else if '-' in part then SpanBounds(part, spec)
    else if part == "*" then Ok(Progression(spec.min, spec.max, 1))
    else
      var n := ParseInt(part);
      if n.None? then Err(InvalidValue(part, spec.name))
      else if n.value < spec.min || n.value > spec.max then Err(ValueOutOfRange(n.value, spec.name))
      else Ok(Progression(n.value, n.value, 1))
  }

  function Climb(start: int, end: int, step: int): set<int>
    requires step > 0
    decreases end - start + 1
  {
    if start > end then {} else {start} + Climb(start + step, end, step)
  }

  /** The values of all parts, or the error of the first part that has one. */
  function PartsValues(parts: seq<string>, spec: FieldSpec): (r: Result<set<int>, CronError>)
    ensures r.Err? ==> !r.error.NoValues?
  {
    if parts == [] then Ok({})
    else
      match PartBounds(parts[0], spec)
      case Err(e) => Err(e)
      case Ok(p) =>
        match PartsValues(parts[1..], spec)
        case Err(e) => Err(e)
        case Ok(rest) => Ok(Climb(p.start, p.end, p.step) + rest)
  }

  function InOrder(values: set<int>, low: int, high: int): seq<int>
    decreases high - low + 1
  {
    if low > high then [] else (if low in values then [low] else []) + InOrder(values, low + 1, high)
  }

  function FieldOf(token: string, spec: FieldSpec): Result<seq<int>, CronError> {
    match PartsValues(Split(token, ','), spec)
    case Err(e) => Err(e)
    case Ok(values) =>
      if values == {} then Err(NoValues(spec.name)) else Ok(InOrder(values, spec.min, spec.max))
  }

  method AddSteps(values: set<int>, start: int, end: int, step: int) returns (more: set<int>)
    requires step > 0
    ensures more == values + Climb(start, end, step)
  {
    more := values;
    var i := start;
    while i <= end
      invariant more + Climb(i, end, step) == values + Climb(start, end, step)
      decreases end - i
    {
      more := more + {i};
      i := i + step;
    }
  }

  method ParsePart(part: string, spec: FieldSpec, values: set<int>) returns (r: Result<set<int>, CronError>)
    ensures match PartBounds(part, spec)
            case Err(e) => r == Err(e)
            case Ok(p) => r == Ok(values + Climb(p.start, p.end, p.step))
  {
    var more: set<int>;
    if '/' in part {
      var pieces := Split(part, '/');
      var rangeStr, stepStr := pieces[0], pieces[1];
      var step := ParseInt(stepStr);
      if step.None? || step.value <= 0 { return Err(InvalidStep(stepStr, spec.name)); }
      var start, end: int;
      if rangeStr == "*" {
        start, end := spec.min, spec.max;
      } else if '-' in rangeStr {
        var ends := Split(rangeStr, '-');
        var s, e := ToNumber(ends[0]), ToNumber(ends[1]);
        if s.None? || e.None? { return Err(InvalidRange(rangeStr, spec.name)); }
        start, end := s.value, e.value;
      } else {
        var s := ParseInt(rangeStr);
        if s.None? { return Err(InvalidValue(rangeStr, spec.name)); }
        start, end := s.value, spec.max;
      }
      var bad := ValidateRange(start, end, spec);
      if bad.Some? { return Err(bad.value); }
      more := AddSteps(values, start, end, step.value);
    } else if '-' in part {
      var ends := Split(part, '-');
      var start, end := ParseInt(ends[0]), ParseInt(ends[1]);
      if start.None? || end.None? { return Err(InvalidRange(part, spec.name)); }
      var bad := ValidateRange(start.value, end.value, spec);
      if bad.Some? { return Err(bad.value); }
      more := AddSteps(values, start.value, end.value, 1);
    } else if part == "*" {
      more := AddSteps(values, spec.min, spec.max, 1);
    } else {
      var val := ParseInt(part);
      if val.None? { return Err(InvalidValue(part, spec.name)); }
      if val.value < spec.min || val.value > spec.max { return Err(ValueOutOfRange(val.value, spec.name)); }
      more := values + {val.value};
      assert Climb(val.value, val.value, 1) == {val.value};
    }
    return Ok(more);
  }

  /** What is collected so far and what the remaining parts give make up the whole. */
  ghost predicate Completes(values: set<int>, rest: Result<set<int>, CronError>, whole: Result<set<int>, CronError>) {
    match rest
    case Err(e) => whole == Err(e)
    case Ok(more) => whole.Ok? && whole.value == values + more
  }

  method ParseField(token: string, spec: FieldSpec) returns (r: Result<seq<int>, CronError>)
    ensures r == FieldOf(token, spec)
  {
    var values: set<int> := {};
    var parts := Split(token, ',');
    assert parts[0..] == parts;
    for k := 0 to |parts|
      invariant Completes(values, PartsValues(parts[k..], spec), PartsValues(parts, spec))
    {
      assert parts[k..][1..] == parts[k + 1..];
      var more := ParsePart(parts[k], spec, values);
      if more.Err? { return Err(more.error); }
      values := more.value;
    }
    if values == {} { return Err(NoValues(spec.name)); }
    return Ok(InOrder(values, spec.min, spec.max));
  }

  // ----- The documented grammar and what it denotes -----

  /** A comma part; its numbers are numerals as written, leading zeros included. */
  datatype Part =
    | Every
    | Value(n: Numeral)
    | Span(low: Numeral, high: Numeral)
    | EveryBy(step: Numeral)
    | SpanBy(low: Numeral, high: Numeral, step: Numeral)
    | FromBy(low: Numeral, step: Numeral)

  function Text(part: Part): string {
    match part
    case Every => "*"
    case Value(n) => n
    case Span(a, b) => a + "-" + b
    case EveryBy(k) => "*" + "/" + k
    case SpanBy(a, b, k) => a + "-" + b + "/" + k
    case FromBy(a, k) => a + "/" + k
  }

  function Num(s: Numeral): nat {
    DecimalValue(s)
  }

  function Texts(parts: seq<Part>): (r: seq<string>)
    ensures |r| == |parts|
  {
    if parts == [] then [] else [Text(parts[0])] + Texts(parts[1..])
  }

  predicate Fits(spec: FieldSpec, low: int, high: int) {
    spec.min <= low <= high <= spec.max
  }

  predicate Admissible(part: Part, spec: FieldSpec) {
    match part
    case Every => true
    case Value(n) => Fits(spec, Num(n), Num(n))
    case Span(a, b) => Fits(spec, Num(a), Num(b))
    case EveryBy(k) => Num(k) > 0
    case SpanBy(a, b, k) => Num(k) > 0 && Fits(spec, Num(a), Num(b))
    case FromBy(a, k) => Num(k) > 0 && Fits(spec, Num(a), spec.max)
  }

  function Nth(start: int, step: int, i: nat): int {
    start + i * step
  }

  ghost predicate IsStep(start: int, step: int, x: int) {
    exists i: nat :: Nth(start, step, i) == x
  }

  ghost predicate Denotes(part: Part, spec: FieldSpec, x: int) {
    match part
    case Every => spec.min <= x <= spec.max
    case Value(n) => x == Num(n)
    case Span(a, b) => Num(a) <= x <= Num(b)
    case EveryBy(k) => IsStep(spec.min, Num(k), x) && x <= spec.max
    case SpanBy(a, b, k) => IsStep(Num(a), Num(k), x) && x <= Num(b)
    case FromBy(a, k) => IsStep(Num(a), Num(k), x) && x <= spec.max
  }

  lemma StepsShift(start: int, step: int, x: int)
    requires step > 0
    ensures IsStep(start, step, x) <==> x == start || IsStep(start + step, step, x)
    ensures IsStep(start, step, x) ==> x >= start
  {
    assert Nth(start, step, 0) == start;
    if IsStep(start, step, x) {
      var i: nat :| Nth(start, step, i) == x;
      assert i > 0 ==> Nth(start + step, step, i - 1) == x;
    }
    if IsStep(start + step, step, x) {
      var i: nat :| Nth(start + step, step, i) == x;
      assert Nth(start, step, i + 1) == x;
    }
  }

  lemma {:induction false} ClimbMembers(start: int, end: int, step: int, x: int)
    requires step > 0
    ensures x in Climb(start, end, step) <==> IsStep(start, step, x) && x <= end
    decreases end - start + 1
  {
    StepsShift(start, step, x);
    if start <= end {
      ClimbMembers(start + step, end, step, x);
    }
  }

  lemma UnitSteps(start: int, x: int)
    ensures IsStep(start, 1, x) <==> x >= start
  {
    if x >= start {
      assert Nth(start, 1, x - start) == x;
    }
  }

  lemma TwoPieces(a: string, sep: char, b: string)
    requires sep !in a && sep !in b
    ensures Split(a + [sep] + b, sep) == [a, b]
  {
    SplitFirst(a, sep, b);
    SplitWord(b, sep);
  }

  /** The bounds that the text of a part stands for. */
  function Bounds(part: Part, spec: FieldSpec): Progression {
    match part
    case Every => Progression(spec.min, spec.max, 1)
    case Value(n) => Progression(Num(n), Num(n), 1)
    case Span(a, b) => Progression(Num(a), Num(b), 1)
    case EveryBy(k) => Progression(spec.min, spec.max, Num(k))
    case SpanBy(a, b, k) => Progression(Num(a), Num(b), Num(k))
    case FromBy(a, k) => Progression(Num(a), spec.max, Num(k))
  }

  ghost predicate ReadsAs(part: Part, spec: FieldSpec) {
    var r := PartBounds(Text(part), spec);
    if Admissible(part, spec) then r == Ok(Bounds(part, spec)) else r.Err?
  }

  lemma StepTextReads(rangeStr: string, k: Numeral, spec: FieldSpec)
    requires '/' !in rangeStr
    ensures PartBounds(rangeStr + "/" + k, spec)
            == if Num(k) == 0 then Err(InvalidStep(k, spec.name)) else StepBounds(rangeStr, Num(k), spec)
  {
    TwoPieces(rangeStr, '/', k);
    NumeralIsRead(k);
  }

  lemma NumeralIsNoStar(n: Numeral)
    ensures n != "*" && '/' !in n && '-' !in n
  {
    assert n[0] in n && IsDigit(n[0]);
  }

  lemma SpanText(a: Numeral, b: Numeral)
    ensures var t := a + "-" + b; '-' in t && '/' !in t && t != "*" && Split(t, '-') == [a, b]
  {
    NumeralIsNoStar(a);
    NumeralIsNoStar(b);
    TwoPieces(a, '-', b);
    assert a[0] in a && (a + "-" + b)[|a|] == '-';
  }

  lemma SpanTextReads(a: Numeral, b: Numeral, spec: FieldSpec)
    ensures PartBounds(a + "-" + b, spec) == Validated(Num(a), Num(b), 1, spec)
  {
    SpanText(a, b);
    NumeralIsRead(a);
    NumeralIsRead(b);
  }

  lemma SpanBoundsRead(a: Numeral, b: Numeral, k: nat, spec: FieldSpec)
    ensures StepBounds(a + "-" + b, k, spec) == Validated(Num(a), Num(b), k, spec)
  {
    SpanText(a, b);
    NumeralIsRead(a);
    NumeralIsRead(b);
  }

  lemma ValueTextReads(n: Numeral, spec: FieldSpec)
    ensures ReadsAs(Value(n), spec)
  {
    NumeralIsNoStar(n);
    NumeralIsRead(n);
  }

  lemma FromBoundsRead(a: Numeral, k: nat, spec: FieldSpec)
    ensures StepBounds(a, k, spec) == Validated(Num(a), spec.max, k, spec)
  {
    NumeralIsNoStar(a);
    NumeralIsRead(a);
  }

  lemma StepPartReads(part: Part, spec: FieldSpec)
    requires spec.min <= spec.max && (part.EveryBy? || part.SpanBy? || part.FromBy?)
    ensures ReadsAs(part, spec)
  {
    match part
    case EveryBy(k) => StepTextReads("*", k, spec);
    case SpanBy(a, b, k) =>
      SpanText(a, b);
      StepTextReads(a + "-" + b, k, spec);
      SpanBoundsRead(a, b, Num(k), spec);
    case FromBy(a, k) =>
      NumeralIsNoStar(a);
      StepTextReads(a, k, spec);
      FromBoundsRead(a, Num(k), spec);
  }

  lemma PartTextReads(part: Part, spec: FieldSpec)
    requires spec.min <= spec.max
    ensures ReadsAs(part, spec)
  {
    match part
    case Every =>
    case Value(n) => ValueTextReads(n, spec);
    case Span(a, b) => SpanTextReads(a, b, spec);
    case _ => StepPartReads(part, spec);
  }

  lemma PartMeaning(part: Part, spec: FieldSpec, x: int)
    requires spec.min <= spec.max && Admissible(part, spec)
    ensures var p := Bounds(part, spec); p.step > 0 && (x in Climb(p.start, p.end, p.step) <==> Denotes(part, spec, x))
    ensures Denotes(part, spec, x) ==> spec.min <= x <= spec.max
    ensures Denotes(part, spec, Bounds(part, spec).start)
  {
    var p := Bounds(part, spec);
    ClimbMembers(p.start, p.end, p.step, x);
    StepsShift(p.start, p.step, x);
    StepsShift(p.start, p.step, p.start);
    UnitSteps(p.start, x);
  }

  lemma CommasStayOut(part: Part)
    ensures ',' !in Text(part)
  {
  }

  ghost predicate DenotedBy(parts: seq<Part>, spec: FieldSpec, x: int) {
    exists k :: 0 <= k < |parts| && Denotes(parts[k], spec, x)
  }

  predicate AllAdmissible(parts: seq<Part>, spec: FieldSpec) {
    forall k :: 0 <= k < |parts| ==> Admissible(parts[k], spec)
  }

  lemma {:induction false} PartsMeaning(parts: seq<Part>, spec: FieldSpec)
    requires spec.min <= spec.max
    ensures forall t :: t in Texts(parts) ==> ',' !in t
    ensures PartsValues(Texts(parts), spec).Ok? <==> AllAdmissible(parts, spec)
    ensures AllAdmissible(parts, spec) ==>
              forall x :: x in PartsValues(Texts(parts), spec).value <==> DenotedBy(parts, spec, x)
  {
    if parts != [] {
      var first, rest := parts[0], parts[1..];
      PartsMeaning(rest, spec);
      CommasStayOut(first);
      PartTextReads(first, spec);
      assert AllAdmissible(parts, spec) <==> Admissible(first, spec) && AllAdmissible(rest, spec);
      if AllAdmissible(parts, spec) {
        forall x ensures x in PartsValues(Texts(parts), spec).value <==> DenotedBy(parts, spec, x) {
          PartMeaning(first, spec, x);
          assert DenotedBy(parts, spec, x) <==> Denotes(first, spec, x) || DenotedBy(rest, spec, x) by {
            assert forall k :: 0 <= k < |rest| ==> rest[k] == parts[k + 1];
          }
        }
      }
    }
  }

  predicate Increasing(s: seq<int>) {
    forall i, j :: 0 <= i < j < |s| ==> s[i] < s[j]
  }

  /** A list that a field may hold. */
  predicate IsField(s: seq<int>, spec: FieldSpec) {
    s != [] && Increasing(s) && forall x :: x in s ==> spec.min <= x <= spec.max
  }

  lemma {:induction false} InOrderMembers(values: set<int>, low: int, high: int)
    ensures Increasing(InOrder(values, low, high))
    ensures forall x :: x in InOrder(values, low, high) <==> x in values && low <= x <= high
    decreases high - low + 1
  {
    if low <= high {
      InOrderMembers(values, low + 1, high);
      var rest := InOrder(values, low + 1, high);
      assert forall i :: 0 <= i < |rest| ==> rest[i] in rest;
    }
  }

  lemma InOrderIsField(values: set<int>, spec: FieldSpec, member: int)
    requires member in values && forall x :: x in values ==> spec.min <= x <= spec.max
    ensures IsField(InOrder(values, spec.min, spec.max), spec)
  {
    InOrderMembers(values, spec.min, spec.max);
    assert member in InOrder(values, spec.min, spec.max);
  }

  function FieldText(parts: seq<Part>): string
    requires parts != []
  {
    Join(Texts(parts), ',')
  }

  ghost predicate Represents(values: seq<int>, parts: seq<Part>, spec: FieldSpec) {
    IsField(values, spec) && forall x :: x in values <==> DenotedBy(parts, spec, x)
  }

  /**
   Every token of the documented grammar, with any numerals: it is accepted exactly when each part is admissible,
   and then the result is the non-empty, increasing, in-range list of what the parts denote.
   */
  lemma FieldMeaning(parts: seq<Part>, spec: FieldSpec)
    requires parts != [] && spec.min <= spec.max
    ensures var r := FieldOf(FieldText(parts), spec);
            (r.Ok? <==> AllAdmissible(parts, spec)) && (r.Ok? ==> Represents(r.value, parts, spec))
  {
    PartsMeaning(parts, spec);
    SplitJoin(Texts(parts), ',');
    if AllAdmissible(parts, spec) {
      var values := PartsValues(Texts(parts), spec).value;
      PartMeaning(parts[0], spec, 0);
      assert DenotedBy(parts, spec, Bounds(parts[0], spec).start);
      forall x | x in values ensures spec.min <= x <= spec.max {
        var k :| 0 <= k < |parts| && Denotes(parts[k], spec, x);
        PartMeaning(parts[k], spec, x);
      }
      InOrderMembers(values, spec.min, spec.max);
      InOrderIsField(values, spec, Bounds(parts[0], spec).start);
    }
  }

  // ----- Any token at all -----

  lemma StepBoundsAreInRange(rangeStr: string, step: int, spec: FieldSpec)
    requires StepBounds(rangeStr, step, spec).Ok?
    ensures var p := StepBounds(rangeStr, step, spec).value; spec.min <= p.start <= p.end <= spec.max
  {
  }

  lemma BoundsAreInRange(part: string, spec: FieldSpec)
    requires spec.min <= spec.max && PartBounds(part, spec).Ok?
    ensures var p := PartBounds(part, spec).value; spec.min <= p.start <= p.end <= spec.max
  {
    if '/' in part {
      var pieces := Split(part, '/');
      StepBoundsAreInRange(pieces[0], ParseInt(pieces[1]).value, spec);
    }
  }

  lemma {:induction false} ValuesAreInRange(parts: seq<string>, spec: FieldSpec)
    requires spec.min <= spec.max && PartsValues(parts, spec).Ok?
    ensures parts != [] ==>
              PartBounds(parts[0], spec).Ok? && PartBounds(parts[0], spec).value.start in PartsValues(parts, spec).value
    ensures forall x :: x in PartsValues(parts, spec).value ==> spec.min <= x <= spec.max
  {
    if parts != [] {
      ValuesAreInRange(parts[1..], spec);
      BoundsAreInRange(parts[0], spec);
      var p := PartBounds(parts[0], spec).value;
      assert p.start in PartsValues(parts, spec).value;
      forall x | x in Climb(p.start, p.end, p.step) ensures spec.min <= x <= spec.max {
        ClimbMembers(p.start, p.end, p.step, x);
        StepsShift(p.start, p.step, x);
      }
    }
  }

  /** Whatever the token, an accepted field is a proper list, and the check for an empty one never fires. */
  lemma AcceptedFieldsAreProper(token: string, spec: FieldSpec)
    requires spec.min <= spec.max
    ensures var r := FieldOf(token, spec); (r.Ok? ==> IsField(r.value, spec)) && r != Err(NoValues(spec.name))
  {
    var r := PartsValues(Split(token, ','), spec);
    if r.Ok? {
      ValuesAreInRange(Split(token, ','), spec);
      InOrderIsField(r.value, spec, PartBounds(Split(token, ',')[0], spec).value.start);
    }
  }

  // ----- Errors -----

  /** What each error of a part says is so. */
  ghost predicate IsTrue(e: CronError, part: string, spec: FieldSpec) {
    match e
    case InvalidStep(text, field) =>
      '/' in part && text == Split(part, '/')[1] && field == spec.name
      && (ParseInt(text).None? || ParseInt(text).value <= 0)
    case InvalidRange(text, field) => '-' in text && field == spec.name && (text == part || '/' in part)
    case InvalidValue(text, field) =>
      '-' !in text && field == spec.name && ParseInt(text) == None && (text == part || '/' in part)
    case ValueOutOfRange(n, field) => ParseInt(part) == Some(n) && field == spec.name && !(spec.min <= n <= spec.max)
    case StartOutOfBounds(n, field) => field == spec.name && !(spec.min <= n <= spec.max)
    case EndOutOfBounds(n, field) => field == spec.name && !(spec.min <= n <= spec.max)
    case StartAfterEnd(start, end, field) =>
      field == spec.name && end < start && spec.min <= start <= spec.max && spec.min <= end <= spec.max
    case _ => false
  }

  lemma RangeErrorsAreTrue(start: int, end: int, step: int, part: string, spec: FieldSpec)
    requires Validated(start, end, step, spec).Err?
    ensures IsTrue(Validated(start, end, step, spec).error, part, spec)
  {
  }

  lemma StepBoundsErrorsAreTrue(rangeStr: string, step: int, part: string, spec: FieldSpec)
    requires '/' in part && StepBounds(rangeStr, step, spec).Err?
    ensures IsTrue(StepBounds(rangeStr, step, spec).error, part, spec)
  {
    if rangeStr == "*" {
      RangeErrorsAreTrue(spec.min, spec.max, step, part, spec);
    } else if '-' in rangeStr {
      var pieces := Split(rangeStr, '-');
      var s, e := ToNumber(pieces[0]), ToNumber(pieces[1]);
      if s.Some? && e.Some? {
        RangeErrorsAreTrue(s.value, e.value, step, part, spec);
      }
    } else {
      var s := ParseInt(rangeStr);
      if s.Some? {
        RangeErrorsAreTrue(s.value, spec.max, step, part, spec);
      }
    }
  }

  lemma SpanErrorsAreTrue(part: string, spec: FieldSpec)
    requires '/' !in part && '-' in part && PartBounds(part, spec).Err?
    ensures IsTrue(PartBounds(part, spec).error, part, spec)
  {
    var pieces := Split(part, '-');
    var s, e := ParseInt(pieces[0]), ParseInt(pieces[1]);
    if s.Some? && e.Some? {
      RangeErrorsAreTrue(s.value, e.value, 1, part, spec);
    }
  }

  lemma StepErrorsAreTrue(part: string, spec: FieldSpec)
    requires '/' in part && PartBounds(part, spec).Err?
    ensures IsTrue(PartBounds(part, spec).error, part, spec)
  {
    var pieces := Split(part, '/');
    var step := ParseInt(pieces[1]);
    if step.Some? && step.value > 0 {
      assert PartBounds(part, spec) == StepBounds(pieces[0], step.value, spec);
      StepBoundsErrorsAreTrue(pieces[0], step.value, part, spec);
    }
  }

  lemma PartErrorsAreTrue(part: string, spec: FieldSpec)
    requires PartBounds(part, spec).Err?
    ensures IsTrue(PartBounds(part, spec).error, part, spec)
  {
    if '/' in part {
      StepErrorsAreTrue(part, spec);
    } else if '-' in part {
      SpanErrorsAreTrue(part, spec);
    }
  }

  /** A field that is refused reports the error of its first bad part, and that is true of it. */
  lemma {:induction false} FirstBadPartIsReported(parts: seq<string>, spec: FieldSpec)
    requires PartsValues(parts, spec).Err?
    ensures exists k :: 0 <= k < |parts| && PartBounds(parts[k], spec) == Err(PartsValues(parts, spec).error)
                        && IsTrue(PartsValues(parts, spec).error, parts[k], spec)
                        && forall j :: 0 <= j < k ==> PartBounds(parts[j], spec).Ok?
    decreases |parts|
  {
    if PartBounds(parts[0], spec).Err? {
      PartErrorsAreTrue(parts[0], spec);
    } else {
      FirstBadPartIsReported(parts[1..], spec);
      var k :| 0 <= k < |parts| - 1 && PartBounds(parts[1..][k], spec) == Err(PartsValues(parts, spec).error)
               && IsTrue(PartsValues(parts, spec).error, parts[1..][k], spec)
               && forall j :: 0 <= j < k ==> PartBounds(parts[1..][j], spec).Ok?;
      assert parts[k + 1] == parts[1..][k];
      forall j | 0 <= j < k + 1 ensures PartBounds(parts[j], spec).Ok? {
        assert j > 0 ==> parts[j] == parts[1..][j - 1];
      }
    }
  }

  // ----- Rendering a list and parsing it again -----

  function Singles(values: seq<int>): (r: seq<Part>)
    requires forall x :: x in values ==> x >= 0
    ensures |r| == |values|
    ensures forall k :: 0 <= k < |r| ==> values[k] >= 0 && r[k] == Value(Digits(values[k]))
  {
    assert forall k :: 0 <= k < |values| ==> values[k] in values;
    seq(|values|, i requires 0 <= i < |values| => assert values[i] in values; Value(Digits(values[i])))
  }

  lemma HasMember(s: seq<int>)
    requires s != []
    ensures exists x :: x in s
  {
    var x := s[0];
    assert x in s;
  }

  lemma {:induction false} IncreasingIsUnique(s: seq<int>, t: seq<int>)
    requires Increasing(s) && Increasing(t) && forall x :: x in s <==> x in t
    ensures s == t
  {
    if s == [] || t == [] {
      if s != [] { HasMember(s); }
      if t != [] { HasMember(t); }
    } else {
      assert s[0] in t && t[0] in s;
      var i :| 0 <= i < |t| && t[i] == s[0];
      var j :| 0 <= j < |s| && s[j] == t[0];
      assert s[0] == t[0];
      forall x ensures x in s[1..] <==> x in t[1..] {
        assert x in s <==> x == s[0] || x in s[1..];
        assert x in t <==> x == t[0] || x in t[1..];
      }
      IncreasingIsUnique(s[1..], t[1..]);
    }
  }

  lemma SinglesDenote(values: seq<int>, spec: FieldSpec)
    requires 0 <= spec.min <= spec.max && IsField(values, spec)
    ensures AllAdmissible(Singles(values), spec)
    ensures forall x :: x in values <==> DenotedBy(Singles(values), spec, x)
  {
    var parts := Singles(values);
    forall k | 0 <= k < |parts| ensures parts[k].Value? && Num(parts[k].n) == values[k] && values[k] in values {
      DigitsValue(values[k]);
    }
    forall x | x in values ensures DenotedBy(parts, spec, x) {
      var k :| 0 <= k < |values| && values[k] == x;
      assert Denotes(parts[k], spec, x);
    }
  }

  /** Writing a field as a comma list and parsing that gives the field back. */
  lemma FieldRoundTrip(values: seq<int>, spec: FieldSpec)
    requires 0 <= spec.min <= spec.max && IsField(values, spec)
    ensures FieldOf(FieldText(Singles(values)), spec) == Ok(values)
  {
    SinglesDenote(values, spec);
    FieldMeaning(Singles(values), spec);
    IncreasingIsUnique(FieldOf(FieldText(Singles(values)), spec).value, values);
  }

  // ----- The whole expression -----

  function CronOf(expr: string): Result<CronFields, CronError> {
    if expr == "" then Err(EmptyExpression)
    else
      var tokens := SplitSpaces(Trim(expr));
      if |tokens| != 5 then Err(NotFiveFields(|tokens|))
      else FieldsOf(tokens[0], tokens[1], tokens[2], tokens[3], tokens[4])
  }

  /** The five fields, or the first error. */
  function FieldsOf(t0: string, t1: string, t2: string, t3: string, t4: string): Result<CronFields, CronError> {
    var minutes := FieldOf(t0, MINUTE);
    var hours := FieldOf(t1, HOUR);
    var days := FieldOf(t2, DAY_OF_MONTH);
    var months := FieldOf(t3, MONTH);
    var weekdays := FieldOf(t4, DAY_OF_WEEK);
    if minutes.Err? then Err(minutes.error)
    else if hours.Err? then Err(hours.error)
    else if days.Err? then Err(days.error)
    else if months.Err? then Err(months.error)
    else if weekdays.Err? then Err(weekdays.error)
    else Ok(CronFields(minutes.value, hours.value, days.value, months.value, weekdays.value))
  }

  method ParseCronExpression(expr: string) returns (r: Result<CronFields, CronError>)
    ensures r == CronOf(expr)
    ensures r.Ok? ==> Proper(r.value)
  {
    AcceptedExpressionsAreProper(expr);
    if expr == "" { return Err(EmptyExpression); }
    var tokens := SplitSpaces(Trim(expr));
    if |tokens| != 5 { return Err(NotFiveFields(|tokens|)); }
    var minutes := ParseField(tokens[0], MINUTE);
    if minutes.Err? { return Err(minutes.error); }
    var hours := ParseField(tokens[1], HOUR);
    if hours.Err? { return Err(hours.error); }
    var daysOfMonth := ParseField(tokens[2], DAY_OF_MONTH);
    if daysOfMonth.Err? { return Err(daysOfMonth.error); }
    var months := ParseField(tokens[3], MONTH);
    if months.Err? { return Err(months.error); }
    var daysOfWeek := ParseField(tokens[4], DAY_OF_WEEK);
    if daysOfWeek.Err? { return Err(daysOfWeek.error); }
    return Ok(CronFields(minutes.value, hours.value, daysOfMonth.value, months.value, daysOfWeek.value));
  }

  ghost predicate Proper(f: CronFields) {
    && IsField(f.minutes, MINUTE) && IsField(f.hours, HOUR) && IsField(f.daysOfMonth, DAY_OF_MONTH)
    && IsField(f.months, MONTH) && IsField(f.daysOfWeek, DAY_OF_WEEK)
  }

  lemma AcceptedExpressionsAreProper(expr: string)
    ensures CronOf(expr).Ok? ==> Proper(CronOf(expr).value)
  {
    if CronOf(expr).Ok? {
      var tokens := SplitSpaces(Trim(expr));
      AcceptedFieldsAreProper(tokens[0], MINUTE);
      AcceptedFieldsAreProper(tokens[1], HOUR);
      AcceptedFieldsAreProper(tokens[2], DAY_OF_MONTH);
      AcceptedFieldsAreProper(tokens[3], MONTH);
      AcceptedFieldsAreProper(tokens[4], DAY_OF_WEEK);
    }
  }

  /** An expression of the documented grammar: five lists of comma parts, and the white space around them. */
  datatype Expression = Expression(
    minutes: seq<Part>, hours: seq<Part>, daysOfMonth: seq<Part>, months: seq<Part>, daysOfWeek: seq<Part>,
    before: string, gaps: seq<string>, after: string)
  {
    predicate Valid() {
      && minutes != [] && hours != [] && daysOfMonth != [] && months != [] && daysOfWeek != []
      && IsBlank(before) && |gaps| == 4 && AreGaps(gaps) && IsBlank(after)
    }
  }

  function ExpressionText(e: Expression): string
    requires e.Valid()
  {
    e.before
    + Weave([FieldText(e.minutes), FieldText(e.hours), FieldText(e.daysOfMonth), FieldText(e.months),
             FieldText(e.daysOfWeek)], e.gaps)
    + e.after
  }

  lemma {:induction false} FieldTextIsWord(parts: seq<Part>)
    requires parts != []
    ensures IsWord(FieldText(parts))
    decreases |parts|
  {
    assert IsWord(Text(parts[0]));
    if |parts| > 1 {
      FieldTextIsWord(parts[1..]);
      assert Texts(parts)[1..] == Texts(parts[1..]);
    }
  }

  /** The five fields are read one by one, whatever white space is between and around them. */
  lemma ExpressionReads(e: Expression)
    requires e.Valid()
    ensures CronOf(ExpressionText(e))
            == FieldsOf(FieldText(e.minutes), FieldText(e.hours), FieldText(e.daysOfMonth), FieldText(e.months),
                        FieldText(e.daysOfWeek))
  {
    FieldTextIsWord(e.minutes);
    FieldTextIsWord(e.hours);
    FieldTextIsWord(e.daysOfMonth);
    FieldTextIsWord(e.months);
    FieldTextIsWord(e.daysOfWeek);
    WordsRoundTrip(e.before, [FieldText(e.minutes), FieldText(e.hours), FieldText(e.daysOfMonth), FieldText(e.months),
                              FieldText(e.daysOfWeek)], e.gaps, e.after);
  }

  /**
   Every expression of the grammar: it is accepted exactly when every part of every field is
   admissible, and then each field is the increasing list of what its parts denote.
   */
  lemma ExpressionMeaning(e: Expression)
    requires e.Valid()
    ensures var r := CronOf(ExpressionText(e));
            && (r.Ok? <==>
                  && AllAdmissible(e.minutes, MINUTE) && AllAdmissible(e.hours, HOUR)
                  && AllAdmissible(e.daysOfMonth, DAY_OF_MONTH) && AllAdmissible(e.months, MONTH)
                  && AllAdmissible(e.daysOfWeek, DAY_OF_WEEK))
            && (r.Ok? ==>
                  && Represents(r.value.minutes, e.minutes, MINUTE) && Represents(r.value.hours, e.hours, HOUR)
                  && Represents(r.value.daysOfMonth, e.daysOfMonth, DAY_OF_MONTH)
                  && Represents(r.value.months, e.months, MONTH)
                  && Represents(r.value.daysOfWeek, e.daysOfWeek, DAY_OF_WEEK))
  {
    ExpressionReads(e);
    FieldMeaning(e.minutes, MINUTE);
    FieldMeaning(e.hours, HOUR);
    FieldMeaning(e.daysOfMonth, DAY_OF_MONTH);
    FieldMeaning(e.months, MONTH);
    FieldMeaning(e.daysOfWeek, DAY_OF_WEEK);
  }

  /** Any other number of words is refused, with that number; and so is the empty string. */
  lemma FiveFieldsAreNeeded(before: string, words: seq<string>, gaps: seq<string>, after: string)
    requires IsBlank(before) && AreWords(words) && AreGaps(gaps) && |gaps| == |words| - 1 && IsBlank(after)
    ensures |words| != 5 ==> CronOf(before + Weave(words, gaps) + after) == Err(NotFiveFields(|words|))
    ensures CronOf("") == Err(EmptyExpression)
  {
    WordsRoundTrip(before, words, gaps, after);
  }

  function Rendered(f: CronFields): (e: Expression)
    requires Proper(f)
    ensures e.Valid()
  {
    Expression(Singles(f.minutes), Singles(f.hours), Singles(f.daysOfMonth), Singles(f.months), Singles(f.daysOfWeek),
               "", [" ", " ", " ", " "], "")
  }

  /** Writing parsed fields out as comma lists and parsing the result gives the same fields. */
  lemma ExpressionRoundTrip(f: CronFields)
    requires Proper(f)
    ensures CronOf(ExpressionText(Rendered(f))) == Ok(f)
  {
    ExpressionReads(Rendered(f));
    FieldRoundTrip(f.minutes, MINUTE);
    FieldRoundTrip(f.hours, HOUR);
    FieldRoundTrip(f.daysOfMonth, DAY_OF_MONTH);
    FieldRoundTrip(f.months, MONTH);
    FieldRoundTrip(f.daysOfWeek, DAY_OF_WEEK);
  }
}
