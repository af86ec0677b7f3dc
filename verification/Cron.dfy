/** Cron expressions (cron.rs): five fields, each a list of stars, numbers, ranges and steps. */
module Cron {
  import opened Wrappers
  import opened Text

  /** One entry of a field's list. */
  datatype Part =
    | All
    | Every(step: U32)
    | One(value: U32)
    | Range(first: U32, last: U32)
    | Stepped(first: U32, last: U32, step: U32)

  datatype Problem =
    | BadStep(text: string)
    | ZeroStep
    | BadRangeStep(text: string)
    | BadRange(text: string)
    | BadRangeStart(text: string)
    | BadRangeEnd(text: string)
    | RangeOutOfBounds(first: U32, last: U32)
    | BadNumber(text: string)
    | OutOfRange(value: U32)
    | NoValues

  /** The least and the greatest value of a field. */
  datatype Bounds = Bounds(min: U32, max: U32) {
    /** The five fields of the program have bounds like these. */
    predicate Small() { min <= 1 && min <= max <= 59 }
  }

  const MINUTE_BOUNDS := Bounds(0, 59)
  const HOUR_BOUNDS := Bounds(0, 23)
  const DAY_BOUNDS := Bounds(1, 31)
  const MONTH_BOUNDS := Bounds(1, 12)
  const WEEKDAY_BOUNDS := Bounds(0, 6)

  // What a field means.

  /** The documented meaning of an entry. */
  predicate Means(p: Part, b: Bounds, v: nat) {
    match p
    case All => b.min <= v <= b.max
    case Every(step) => b.min <= v <= b.max && step > 0 && (v - b.min) % step == 0
    case One(value) => v == value
    case Range(first, last) => first <= v <= last
    case Stepped(first, last, step) => first <= v <= last && step > 0 && (v - first) % step == 0
  }

  /** A field means what any of its entries means. */
  predicate FieldMeans(parts: seq<Part>, b: Bounds, v: nat) {
    exists p <- parts :: Means(p, b, v)
  }

  /** The one step so large that adding it to the least value leaves 32 bits. */
  predicate Wraps(p: Part, b: Bounds) {
    p.Every? && b.min + p.step > U32_MAX
  }

  predicate AnyWraps(parts: seq<Part>, b: Bounds) {
    exists p <- parts :: Wraps(p, b)
  }

  /** What the loops push: the meaning, and zero if the step wraps. */
  predicate Pushes(p: Part, b: Bounds, v: nat) {
    Means(p, b, v) || (Wraps(p, b) && v == 0)
  }

  predicate AnyPushes(parts: seq<Part>, b: Bounds, v: nat) {
    exists p <- parts :: Pushes(p, b, v)
  }

  /** An entry whose values lie within the bounds. */
  predicate Wellformed(p: Part, b: Bounds) {
    match p
    case All => true
    case Every(step) => step > 0
    case One(v) => b.min <= v <= b.max
    case Range(first, last) => b.min <= first <= last <= b.max
    case Stepped(first, last, step) => b.min <= first <= last <= b.max && step > 0
  }

  // Parsing.

  function ParseRange(s: string, b: Bounds): (r: Result<(U32, U32), Problem>)
    ensures r.Ok? ==> b.min <= r.value.0 <= r.value.1 <= b.max
    ensures r != Err(NoValues)
  {
    var ends := SplitOn(s, '-');
    if |ends| != 2 then Err(BadRange(s))
    else
      match ParseU32(ends[0])
      case None => Err(BadRangeStart(ends[0]))
      case Some(first) =>
        match ParseU32(ends[1])
        case None => Err(BadRangeEnd(ends[1]))
        case Some(last) =>
          if first < b.min || last > b.max || first > last then Err(RangeOutOfBounds(first, last))
          else Ok((first, last))
  }

  function ParseStep(s: string): (r: Result<U32, Problem>)
    ensures r.Ok? ==> r.value > 0
    ensures r != Err(NoValues)
  {
    match ParseU32(s)
    case None => Err(BadStep(s))
    case Some(step) => if step == 0 then Err(ZeroStep) else Ok(step)
  }

  function ParseStepped(text: string, b: Bounds): (r: Result<Part, Problem>)
    ensures r.Ok? ==> Wellformed(r.value, b)
    ensures r != Err(NoValues)
  {
    var halves := SplitOn(text, '/');
    if |halves| != 2 then Err(BadRangeStep(text))
    else
      match ParseRange(halves[0], b)
      case Err(e) => Err(e)
      case Ok((first, last)) =>
        match ParseStep(halves[1])
        case Err(e) => Err(e)
        case Ok(step) => Ok(Stepped(first, last, step))
  }

  function ParseOne(text: string, b: Bounds): (r: Result<Part, Problem>)
    ensures r.Ok? ==> Wellformed(r.value, b)
    ensures r != Err(NoValues)
  {
    match ParseU32(text)
    case None => Err(BadNumber(text))
    case Some(v) => if v < b.min || v > b.max then Err(OutOfRange(v)) else Ok(One(v))
  }

  function ParsePart(text: string, b: Bounds): (r: Result<Part, Problem>)
    ensures r.Ok? ==> Wellformed(r.value, b)
    ensures r != Err(NoValues)
  {
    if text == "*" then Ok(All)
    else if "*/" <= text then
      match ParseStep(text[2..])
      case Err(e) => Err(e)
      case Ok(step) => Ok(Every(step))
    else if '/' in text then ParseStepped(text, b)
    else if '-' in text then
      match ParseRange(text, b)
      case Err(e) => Err(e)
      case Ok((first, last)) => Ok(Range(first, last))
    else ParseOne(text, b)
  }

  function Entries(texts: seq<string>, b: Bounds): seq<Result<Part, Problem>> {
    seq(|texts|, i requires 0 <= i < |texts| => ParsePart(Trim(texts[i]), b))
  }

  /** All the values, or the first error. */
  function AllOk<T, E>(rs: seq<Result<T, E>>): (r: Result<seq<T>, E>)
    ensures r.Ok? ==> |r.value| == |rs| && forall k :: 0 <= k < |rs| ==> rs[k] == Ok(r.value[k])
  {
    if |rs| == 0 then Ok([])
    else
      match AllOk(rs[..|rs| - 1])
      case Err(e) => Err(e)
      case Ok(values) =>
        match rs[|rs| - 1]
        case Err(e) => Err(e)
        case Ok(value) => Ok(values + [value])
  }

  lemma {:induction false} AllOkOf<T, E>(rs: seq<Result<T, E>>, values: seq<T>)
    requires |rs| == |values| && forall k :: 0 <= k < |rs| ==> rs[k] == Ok(values[k])
    ensures AllOk(rs) == Ok(values)
  {
    if |rs| > 0 {
      var n := |rs| - 1;
      AllOkOf(rs[..n], values[..n]);
      assert rs[n] == Ok(values[n]);
      assert values == values[..n] + [values[n]];
    }
  }

  lemma {:induction false} AllOkFront<T, E>(rs: seq<Result<T, E>>)
    requires forall i :: 0 <= i < |rs| ==> rs[i].Ok?
    ensures AllOk(rs).Ok?
  {
    if |rs| > 0 {
      AllOkFront(rs[..|rs| - 1]);
      assert rs[|rs| - 1].Ok?;
    }
  }

  lemma {:induction false} FirstError<T, E>(rs: seq<Result<T, E>>, k: nat, e: E)
    requires k < |rs| && rs[k] == Err(e) && forall i :: 0 <= i < k ==> rs[i].Ok?
    ensures AllOk(rs) == Err(e)
    decreases |rs|
  {
    var n := |rs| - 1;
    if k < n {
      FirstError(rs[..n], k, e);
    } else {
      AllOkFront(rs[..n]);
    }
  }

  lemma {:induction false} ErrorIsSomeones<T, E>(rs: seq<Result<T, E>>) returns (k: nat)
    requires AllOk(rs).Err?
    ensures k < |rs| && rs[k] == Err(AllOk(rs).error) && forall i :: 0 <= i < k ==> rs[i].Ok?
  {
    var n := |rs| - 1;
    k := n;
    if AllOk(rs[..n]).Err? {
      k := ErrorIsSomeones(rs[..n]);
      assert forall i :: 0 <= i < k ==> rs[..n][i] == rs[i];
    } else {
      assert forall i :: 0 <= i < n ==> rs[..n][i].Ok?;
    }
  }

  /** The entries, or the problem of the first that has one. */
  function ParseParts(texts: seq<string>, b: Bounds): (r: Result<seq<Part>, Problem>)
    ensures r.Ok? ==> |r.value| == |texts| && forall p <- r.value :: Wellformed(p, b)
  {
    var entries := Entries(texts, b);
    var r := AllOk(entries);
    assert r.Ok? ==> forall k :: 0 <= k < |texts| ==> entries[k] == Ok(r.value[k]) && Wellformed(r.value[k], b);
    r
  }

  function PartsOf(field: string, b: Bounds): Result<seq<Part>, Problem> {
    ParseParts(SplitOn(field, ','), b)
  }

  /** The members up to `n`, in increasing order: what sorting and dropping repeats leaves. */
  function Ascending(has: nat -> bool, n: nat): seq<nat> {
    (if n == 0 then [] else Ascending(has, n - 1)) + if has(n) then [n] else []
  }

  predicate Increasing(values: seq<nat>) {
    forall i, j :: 0 <= i < j < |values| ==> values[i] < values[j]
  }

  function ParseField(field: string, b: Bounds): Result<seq<nat>, Problem> {
    match PartsOf(field, b)
    case Err(e) => Err(e)
    case Ok(parts) => Ok(Ascending((v: nat) => AnyPushes(parts, b, v), b.max))
  }

  lemma IncreasingSnoc(values: seq<nat>, n: nat)
    requires Increasing(values) && forall k :: 0 <= k < |values| ==> values[k] < n
    ensures Increasing(values + [n])
  {
  }

  lemma {:induction false} AscendingIs(has: nat -> bool, n: nat)
    ensures Increasing(Ascending(has, n))
    ensures forall v: nat :: v in Ascending(has, n) <==> v <= n && has(v)
  {
    if n > 0 {
      AscendingIs(has, n - 1);
      var before := Ascending(has, n - 1);
      assert forall k :: 0 <= k < |before| ==> before[k] in before;
      IncreasingSnoc(before, n);
    }
  }

  lemma {:induction false} IncreasingUnique(a: seq<nat>, b: seq<nat>)
    requires Increasing(a) && Increasing(b) && forall v: nat :: v in a <==> v in b
    ensures a == b
  {
    assert |a| == 0 <==> |b| == 0 by {
      if |a| > 0 {
        assert a[0] in b;
      }
      if |b| > 0 {
        assert b[0] in a;
      }
    }
    if |a| > 0 {
      var n, m := |a| - 1, |b| - 1;
      assert a[n] in b && b[m] in a;
      var x := a[n];
      assert b[m] == x;
      forall v: nat
        ensures v in a[..n] <==> v in a && v != x
        ensures v in b[..m] <==> v in b && v != x
      {
        assert a == a[..n] + [x] && b == b[..m] + [x];
      }
      IncreasingUnique(a[..n], b[..m]);
      assert a == a[..n] + [x] && b == b[..m] + [x];
    }
  }

  // What a field gives.

  lemma WithinBounds(p: Part, b: Bounds, v: nat)
    requires b.Small() && Wellformed(p, b) && Means(p, b, v)
    ensures b.min <= v <= b.max
  {
  }

  /** Only the greatest step wraps, and only where values begin at one. */
  lemma OnlyTopStepWraps(p: Part, b: Bounds)
    requires b.Small()
    ensures Wraps(p, b) <==> p == Every(U32_MAX) && b.min == 1
  {
  }

  lemma LeastMeans(p: Part, b: Bounds)
    requires b.Small() && Wellformed(p, b)
    ensures Means(p, b, LeastOf(p, b))
  {
    match p
    case Every(step) => assert (b.min - b.min) % step == 0;
    case Stepped(first, _, step) => assert (first - first) % step == 0;
    case _ =>
  }

  function LeastOf(p: Part, b: Bounds): nat {
    match p
    case All | Every(_) => b.min
    case One(v) => v
    case Range(first, _) => first
    case Stepped(first, _, _) => first
  }

  predicate InBounds(values: seq<nat>, b: Bounds) {
    forall v <- values :: b.min <= v <= b.max
  }

  predicate IsMeaning(values: seq<nat>, parts: seq<Part>, b: Bounds) {
    (forall v <- values :: FieldMeans(parts, b, v)) && forall v: nat :: v <= b.max && FieldMeans(parts, b, v) ==> v in values
  }

  lemma FieldHas(field: string, b: Bounds, parts: seq<Part>, v: nat)
    requires b.Small() && PartsOf(field, b) == Ok(parts)
    ensures v in ParseField(field, b).value <==> FieldMeans(parts, b, v) || (AnyWraps(parts, b) && v == 0)
    ensures FieldMeans(parts, b, v) ==> b.min <= v <= b.max
    ensures AnyWraps(parts, b) ==> b.min == 1
  {
    AscendingIs((u: nat) => AnyPushes(parts, b, u), b.max);
    forall p <- parts
      ensures Means(p, b, v) ==> b.min <= v <= b.max
      ensures Wraps(p, b) ==> b.min == 1
    {
      OnlyTopStepWraps(p, b);
      if Means(p, b, v) {
        WithinBounds(p, b, v);
      }
    }
    assert AnyPushes(parts, b, v) <==> FieldMeans(parts, b, v) || (AnyWraps(parts, b) && v == 0);
  }

  /** A field that parses gives a non-empty, strictly increasing list. It is the documented meaning,
      and within bounds, exactly when no entry is a step that leaves 32 bits. */
  lemma FieldMeaning(field: string, b: Bounds, parts: seq<Part>)
    requires b.Small() && PartsOf(field, b) == Ok(parts)
    ensures var values := ParseField(field, b).value;
            && values != [] && Increasing(values)
            && (IsMeaning(values, parts, b) <==> !AnyWraps(parts, b))
            && (InBounds(values, b) <==> !AnyWraps(parts, b))
  {
    var values := ParseField(field, b).value;
    AscendingIs((u: nat) => AnyPushes(parts, b, u), b.max);
    forall v: nat
      ensures v in values <==> FieldMeans(parts, b, v) || (AnyWraps(parts, b) && v == 0)
      ensures FieldMeans(parts, b, v) ==> b.min <= v <= b.max
    {
      FieldHas(field, b, parts, v);
    }
    FieldHas(field, b, parts, 0);
    LeastMeans(parts[0], b);
    assert FieldMeans(parts, b, LeastOf(parts[0], b));
  }

  // Printing.

  function Decimals(values: seq<U32>): seq<string> {
    seq(|values|, i requires 0 <= i < |values| => Decimal(values[i]))
  }

  function PrintField(values: seq<U32>): string { Join(Decimals(values), ",") }

  function Ones(values: seq<U32>): seq<Part> {
    seq(|values|, i requires 0 <= i < |values| => One(values[i]))
  }

  /** A numeral: nothing in it but digits. */
  lemma DecimalIsPlain(n: U32)
    ensures forall c <- Decimal(n) :: IsDigit(c)
    ensures Trim(Decimal(n)) == Decimal(n)
  {
    var s := Decimal(n);
    assert IsDigit(s[0]) && IsDigit(s[|s| - 1]);
    TrimId(s);
  }

  lemma PartOfDecimal(n: U32, b: Bounds)
    requires b.min <= n <= b.max
    ensures ParsePart(Trim(Decimal(n)), b) == Ok(One(n))
  {
    DecimalIsPlain(n);
    ParseOfDecimal(n);
    var s := Decimal(n);
    assert IsDigit(s[0]);
    assert '/' !in s && '-' !in s;
  }

  lemma PartsOfDecimals(values: seq<U32>, b: Bounds)
    requires InBounds(values, b)
    ensures ParseParts(Decimals(values), b) == Ok(Ones(values))
  {
    var entries := Entries(Decimals(values), b);
    forall k | 0 <= k < |values|
      ensures entries[k] == Ok(One(values[k]))
    {
      assert values[k] in values;
      PartOfDecimal(values[k], b);
    }
    AllOkOf(entries, Ones(values));
  }

  lemma OnesPush(values: seq<U32>, b: Bounds, v: nat)
    ensures AnyPushes(Ones(values), b, v) <==> v in values
  {
    var ones := Ones(values);
    if v in values {
      var k :| 0 <= k < |values| && values[k] == v;
      assert ones[k] in ones && Pushes(ones[k], b, v);
    }
  }

  lemma PrintedParts(values: seq<U32>, b: Bounds)
    requires |values| > 0 && InBounds(values, b)
    ensures PartsOf(PrintField(values), b) == Ok(Ones(values))
  {
    var texts := Decimals(values);
    forall k | 0 <= k < |texts|
      ensures ',' !in texts[k]
    {
      DecimalIsPlain(values[k]);
    }
    SplitOfJoin(texts, ',');
    PartsOfDecimals(values, b);
  }

  /** Printing any values as a list and parsing them gives them back sorted without repeats; a sorted
      list comes back as it was. */
  lemma FieldRoundTrip(values: seq<U32>, b: Bounds)
    requires |values| > 0 && InBounds(values, b)
    ensures ParseField(PrintField(values), b).Ok?
    ensures var back := ParseField(PrintField(values), b).value;
            Increasing(back) && (forall v: nat :: v in back <==> v in values) && (Increasing(values) ==> back == values)
  {
    PrintedParts(values, b);
    AscendingIs((v: nat) => AnyPushes(Ones(values), b, v), b.max);
    var back := ParseField(PrintField(values), b).value;
    forall v: nat
      ensures v in back <==> v in values
    {
      OnesPush(values, b, v);
    }
    if Increasing(values) {
      IncreasingUnique(values, back);
    }
  }

  // Whole expressions.

  datatype Expr = Expr(
    raw: string,
    minutes: seq<nat>,
    hours: seq<nat>,
    daysOfMonth: seq<nat>,
    months: seq<nat>,
    daysOfWeek: seq<nat>)

  datatype CronError = WrongCount(fields: nat) | InvalidValue(field: string, problem: Problem)

  function WordLength(s: string): (n: nat)
    ensures n <= |s|
    ensures s != "" && !IsWhitespace(s[0]) ==> n > 0
  {
    if s == "" || IsWhitespace(s[0]) then 0 else 1 + WordLength(s[1..])
  }

  /** `split_whitespace`. */
  function Words(s: string): seq<string>
    decreases |s|
  {
    if s == "" then []
    else if IsWhitespace(s[0]) then Words(s[1..])
    else [s[..WordLength(s)]] + Words(s[WordLength(s)..])
  }

  function FieldOf(name: string, text: string, b: Bounds): Result<seq<nat>, CronError> {
    match ParseField(text, b)
    case Err(e) => Err(InvalidValue(name, e))
    case Ok(values) => Ok(values)
  }

  /** The five fields, in order. */
  function FieldName(k: nat): string
    requires k < 5
  {
    if k == 0 then "minute"
    else if k == 1 then "hour"
    else if k == 2 then "day_of_month"
    else if k == 3 then "month"
    else "day_of_week"
  }

  function FieldBounds(k: nat): (b: Bounds)
    requires k < 5
    ensures b.Small()
    ensures b.min == if k == 2 || k == 3 then 1 else 0
    ensures b.max == if k == 0 then 59 else if k == 1 then 23 else if k == 2 then 31 else if k == 3 then 12 else 6
  {
    if k == 0 then MINUTE_BOUNDS
    else if k == 1 then HOUR_BOUNDS
    else if k == 2 then DAY_BOUNDS
    else if k == 3 then MONTH_BOUNDS
    else WEEKDAY_BOUNDS
  }

  function ParsedFields(words: seq<string>): seq<Result<seq<nat>, CronError>>
    requires |words| == 5
  {
    seq(5, k requires 0 <= k < 5 => FieldOf(FieldName(k), words[k], FieldBounds(k)))
  }

  function ExprOf(raw: string, fields: seq<seq<nat>>): Expr
    requires |fields| == 5
  {
    Expr(raw, fields[0], fields[1], fields[2], fields[3], fields[4])
  }

  /** The fields in turn; the first that fails is the error. */
  function Parse(expr: string): Result<Expr, CronError> {
    var words := Words(Trim(expr));
    if |words| != 5 then Err(WrongCount(|words|))
    else
      match AllOk(ParsedFields(words))
      case Err(e) => Err(e)
      case Ok(fields) => Ok(ExprOf(expr, fields))
  }

  const FIELD_NAMES := ["minute", "hour", "day_of_month", "month", "day_of_week"]

  predicate MatchesTime(e: Expr, minute: U32, hour: U32, day: U32, month: U32, weekday: U32) {
    minute in e.minutes && hour in e.hours && day in e.daysOfMonth && month in e.months && weekday in e.daysOfWeek
  }

  predicate Word(w: string) {
    w != "" && forall k :: 0 <= k < |w| ==> !IsWhitespace(w[k])
  }

  lemma {:induction false} WordLengthOf(w: string, rest: string)
    requires forall k :: 0 <= k < |w| ==> !IsWhitespace(w[k])
    requires rest != "" ==> IsWhitespace(rest[0])
    ensures WordLength(w + rest) == |w|
  {
    if w != "" {
      assert (w + rest)[1..] == w[1..] + rest;
      WordLengthOf(w[1..], rest);
    } else {
      assert w + rest == rest;
    }
  }

  lemma {:induction false} WordsOfJoin(words: seq<string>)
    requires forall k :: 0 <= k < |words| ==> Word(words[k])
    ensures Words(Join(words, " ")) == words
  {
    if |words| > 0 {
      var w := words[0];
      var rest := if |words| == 1 then "" else " " + Join(words[1..], " ");
      var s := w + rest;
      assert Join(words, " ") == s;
      assert Word(w);
      WordLengthOf(w, rest);
      assert s[..|w|] == w && s[|w|..] == rest;
      WordsOfJoin(words[1..]);
      if |words| > 1 {
        assert rest[1..] == Join(words[1..], " ");
      }
      assert words == [w] + words[1..];
    }
  }

  /** A list that parsing could have given: not empty, increasing, within the bounds. */
  predicate Printable(values: seq<U32>, b: Bounds) {
    |values| > 0 && Increasing(values) && InBounds(values, b)
  }

  lemma {:induction false} JoinOfWords(texts: seq<string>, sep: string)
    requires |texts| > 0 && forall k :: 0 <= k < |texts| ==> Word(texts[k])
    requires forall k :: 0 <= k < |sep| ==> !IsWhitespace(sep[k])
    ensures Word(Join(texts, sep))
  {
    assert Word(texts[0]);
    if |texts| > 1 {
      JoinOfWords(texts[1..], sep);
    }
  }

  lemma PrintedFieldIsWord(values: seq<U32>)
    requires |values| > 0
    ensures Word(PrintField(values))
  {
    var texts := Decimals(values);
    forall k | 0 <= k < |texts|
      ensures Word(texts[k])
    {
      DecimalIsPlain(values[k]);
    }
    JoinOfWords(texts, ",");
  }

  lemma {:induction false} TrimOfWords(words: seq<string>)
    requires |words| > 0 && forall k :: 0 <= k < |words| ==> Word(words[k])
    ensures NoOuterWhitespace(Join(words, " ")) && Join(words, " ") != ""
  {
    assert Word(words[0]);
    if |words| > 1 {
      TrimOfWords(words[1..]);
    }
  }

  lemma WordsOfPrinted(texts: seq<string>)
    requires |texts| > 0 && forall k :: 0 <= k < |texts| ==> Word(texts[k])
    ensures Words(Trim(Join(texts, " "))) == texts
  {
    WordsOfJoin(texts);
    TrimOfWords(texts);
    TrimId(Join(texts, " "));
  }

  function PrintFields(fields: seq<seq<U32>>): seq<string> {
    seq(|fields|, k requires 0 <= k < |fields| => PrintField(fields[k]))
  }

  lemma FieldsOk(words: seq<string>, fields: seq<seq<nat>>)
    requires |words| == |fields| == 5
    requires forall k :: 0 <= k < 5 ==> FieldOf(FieldName(k), words[k], FieldBounds(k)) == Ok(fields[k])
    ensures AllOk(ParsedFields(words)) == Ok(fields)
  {
    AllOkOf(ParsedFields(words), fields);
  }

  lemma ParseOfWords(expr: string, words: seq<string>, fields: seq<seq<nat>>)
    requires |words| == |fields| == 5 && Words(Trim(expr)) == words && AllOk(ParsedFields(words)) == Ok(fields)
    ensures Parse(expr) == Ok(ExprOf(expr, fields))
  {
  }

  /** Five printed lists parse back to the same expression. */
  lemma ExprRoundTrip(fields: seq<seq<U32>>)
    requires |fields| == 5 && forall k :: 0 <= k < 5 ==> Printable(fields[k], FieldBounds(k))
    ensures var text := Join(PrintFields(fields), " "); Parse(text) == Ok(ExprOf(text, fields))
  {
    var texts := PrintFields(fields);
    forall k | 0 <= k < 5
      ensures Word(texts[k]) && FieldOf(FieldName(k), texts[k], FieldBounds(k)) == Ok(fields[k])
    {
      PrintedFieldParses(fields[k], k);
    }
    WordsOfPrinted(texts);
    FieldsOk(texts, fields);
    ParseOfWords(Join(texts, " "), texts, fields);
  }

  lemma PrintedFieldParses(values: seq<U32>, k: nat)
    requires k < 5 && Printable(values, FieldBounds(k))
    ensures Word(PrintField(values)) && FieldOf(FieldName(k), PrintField(values), FieldBounds(k)) == Ok(values)
  {
    PrintedFieldIsWord(values);
    FieldRoundTrip(values, FieldBounds(k));
  }
}
