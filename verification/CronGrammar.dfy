/** The grammar of cron fields (the documentation in cron.rs), and what the parser makes of it. */
module CronGrammar {
  import opened Wrappers
  import opened Text
  import opened Cron

  /** A number of a field. */
  predicate Numeral(text: string, n: U32) {
    ParseU32(text) == Some(n)
  }

  predicate IsRange(text: string, x: string, y: string, first: U32, last: U32) {
    text == x + "-" + y && Numeral(x, first) && Numeral(y, last)
  }

  ghost predicate SpellsRange(text: string, first: U32, last: U32) {
    exists x, y :: IsRange(text, x, y, first, last)
  }

  predicate IsStep(text: string, n: string, step: U32) {
    text == "*/" + n && Numeral(n, step)
  }

  ghost predicate IsStepped(text: string, range: string, n: string, first: U32, last: U32, step: U32) {
    text == range + "/" + n && SpellsRange(range, first, last) && Numeral(n, step)
  }

  /** The documented forms: a star, a step, a number, a range, a range with a step. */
  ghost predicate Spells(text: string, p: Part) {
    match p
    case All => text == "*"
    case Every(step) => exists n :: IsStep(text, n, step)
    case One(v) => Numeral(text, v)
    case Range(first, last) => SpellsRange(text, first, last)
    case Stepped(first, last, step) => exists range, n :: IsStepped(text, range, n, first, last, step)
  }

  // The forms exclude one another.

  predicate NumeralChar(c: char) { IsDigit(c) || c == '+' }

  lemma NumeralPlain(text: string, n: U32)
    requires Numeral(text, n)
    ensures text != "" && forall c <- text :: NumeralChar(c)
  {
    var digits := if text != "" && text[0] == '+' then text[1..] else text;
    forall k | 0 <= k < |text|
      ensures NumeralChar(text[k])
    {
      if digits == text {
        assert IsDigit(digits[k]);
      } else if k > 0 {
        assert IsDigit(digits[k - 1]);
      }
    }
  }

  lemma PairPlain(x: string, y: string, first: U32, last: U32)
    requires Numeral(x, first) && Numeral(y, last)
    ensures x != "" && NumeralChar(x[0]) && '-' !in x && '-' !in y && '/' !in x && '/' !in y
  {
    NumeralPlain(x, first);
    NumeralPlain(y, last);
  }

  lemma RangePlain(text: string, first: U32, last: U32)
    requires SpellsRange(text, first, last)
    ensures text != "" && NumeralChar(text[0]) && '-' in text && '/' !in text
  {
    var x, y :| IsRange(text, x, y, first, last);
    PairPlain(x, y, first, last);
    assert text[|x|] == '-' && text[0] == x[0];
  }

  lemma SteppedPlain(text: string, first: U32, last: U32, step: U32)
    requires Spells(text, Stepped(first, last, step))
    ensures text != "" && NumeralChar(text[0]) && '/' in text
  {
    var range, n :| IsStepped(text, range, n, first, last, step);
    RangePlain(range, first, last);
    assert text[|range|] == '/' && text[0] == range[0];
  }

  // One form at a time.

  /** Two parts of a split are what stands before and after the one separator. */
  lemma SplitInTwo(s: string, c: char)
    ensures |SplitOn(s, c)| == 2 ==> s == SplitOn(s, c)[0] + [c] + SplitOn(s, c)[1]
  {
    JoinOfSplit(s, c);
    var parts := SplitOn(s, c);
    if |parts| == 2 {
      assert parts[1..] == [parts[1]] && Join(parts[1..], [c]) == parts[1];
    }
  }

  lemma TwoPartsSplit(x: string, c: char, y: string)
    requires c !in x && c !in y
    ensures SplitOn(x + [c] + y, c) == [x, y]
  {
    assert [x, y][1..] == [y] && Join([x, y], [c]) == x + [c] + y;
    SplitOfJoin([x, y], c);
  }

  lemma RangeParses(s: string, b: Bounds, x: string, y: string, first: U32, last: U32)
    requires IsRange(s, x, y, first, last) && b.min <= first <= last <= b.max
    ensures ParseRange(s, b) == Ok((first, last))
  {
    PairPlain(x, y, first, last);
    TwoPartsSplit(x, '-', y);
  }

  lemma RangeIff(s: string, b: Bounds, first: U32, last: U32)
    ensures ParseRange(s, b) == Ok((first, last)) <==> SpellsRange(s, first, last) && b.min <= first <= last <= b.max
  {
    if SpellsRange(s, first, last) && b.min <= first <= last <= b.max {
      var x, y :| IsRange(s, x, y, first, last);
      RangeParses(s, b, x, y, first, last);
    }
    if ParseRange(s, b) == Ok((first, last)) {
      SplitInTwo(s, '-');
      assert IsRange(s, SplitOn(s, '-')[0], SplitOn(s, '-')[1], first, last);
    }
  }

  lemma SteppedOfHalves(text: string, b: Bounds, range: string, n: string, first: U32, last: U32, step: U32)
    requires SplitOn(text, '/') == [range, n] && ParseRange(range, b) == Ok((first, last))
    ensures ParseStepped(text, b) == Ok(Stepped(first, last, step)) <==> Numeral(n, step) && step > 0
  {
  }

  lemma HalvesSplit(range: string, n: string, first: U32, last: U32, step: U32)
    requires SpellsRange(range, first, last) && Numeral(n, step)
    ensures SplitOn(range + "/" + n, '/') == [range, n]
  {
    RangePlain(range, first, last);
    NumeralPlain(n, step);
    TwoPartsSplit(range, '/', n);
  }

  lemma SteppedParses(text: string, b: Bounds, range: string, n: string, first: U32, last: U32, step: U32)
    requires IsStepped(text, range, n, first, last, step) && b.min <= first <= last <= b.max && step > 0
    ensures ParseStepped(text, b) == Ok(Stepped(first, last, step))
  {
    HalvesSplit(range, n, first, last, step);
    RangeIff(range, b, first, last);
    SteppedOfHalves(text, b, range, n, first, last, step);
  }

  lemma SteppedParsed(text: string, b: Bounds, first: U32, last: U32, step: U32)
    requires ParseStepped(text, b) == Ok(Stepped(first, last, step))
    ensures IsStepped(text, SplitOn(text, '/')[0], SplitOn(text, '/')[1], first, last, step)
  {
    var halves := SplitOn(text, '/');
    SplitInTwo(text, '/');
    assert ParseRange(halves[0], b) == Ok((first, last)) && Numeral(halves[1], step);
    RangeIff(halves[0], b, first, last);
  }

  lemma SteppedIff(text: string, b: Bounds, first: U32, last: U32, step: U32)
    ensures ParsePart(text, b) == Ok(Stepped(first, last, step))
            <==> Spells(text, Stepped(first, last, step)) && Wellformed(Stepped(first, last, step), b)
  {
    if Spells(text, Stepped(first, last, step)) && Wellformed(Stepped(first, last, step), b) {
      SteppedForward(text, b, first, last, step);
    }
    if ParsePart(text, b) == Ok(Stepped(first, last, step)) {
      assert ParseStepped(text, b) == Ok(Stepped(first, last, step));
      SteppedParsed(text, b, first, last, step);
    }
  }

  lemma DispatchesStepped(text: string, b: Bounds)
    requires text != "" && NumeralChar(text[0]) && '/' in text
    ensures ParsePart(text, b) == ParseStepped(text, b)
  {
  }

  lemma SteppedForward(text: string, b: Bounds, first: U32, last: U32, step: U32)
    requires Spells(text, Stepped(first, last, step)) && Wellformed(Stepped(first, last, step), b)
    ensures ParsePart(text, b) == Ok(Stepped(first, last, step))
  {
    SteppedPlain(text, first, last, step);
    DispatchesStepped(text, b);
    var range, n :| IsStepped(text, range, n, first, last, step);
    SteppedParses(text, b, range, n, first, last, step);
  }

  lemma EveryIff(text: string, b: Bounds, step: U32)
    ensures ParsePart(text, b) == Ok(Every(step)) <==> Spells(text, Every(step)) && step > 0
  {
    if n :| IsStep(text, n, step) {
      assert text[..2] == "*/" && text[2..] == n;
    }
    if "*/" <= text {
      assert text == "*/" + text[2..];
      assert ParseU32(text[2..]) == Some(step) ==> IsStep(text, text[2..], step);
    }
  }

  lemma OneIff(text: string, b: Bounds, v: U32)
    ensures ParsePart(text, b) == Ok(One(v)) <==> Numeral(text, v) && b.min <= v <= b.max
  {
    if Numeral(text, v) {
      NumeralPlain(text, v);
      assert text[0] in text;
    }
  }

  lemma RangePartIff(text: string, b: Bounds, first: U32, last: U32)
    ensures ParsePart(text, b) == Ok(Range(first, last)) <==> SpellsRange(text, first, last) && b.min <= first <= last <= b.max
  {
    RangeIff(text, b, first, last);
    if SpellsRange(text, first, last) {
      RangePlain(text, first, last);
    }
  }

  /** An entry parses to what it spells, and only that, as long as the values are within bounds. */
  lemma EntryIff(text: string, b: Bounds, p: Part)
    ensures ParsePart(text, b) == Ok(p) <==> Spells(text, p) && Wellformed(p, b)
  {
    match p
    case All =>
    case Every(step) => EveryIff(text, b, step);
    case One(v) => OneIff(text, b, v);
    case Range(first, last) => RangePartIff(text, b, first, last);
    case Stepped(first, last, step) => SteppedIff(text, b, first, last, step);
  }

  // Fields.

  /** Each entry between commas, trimmed, spells its part, with values within bounds. */
  ghost predicate SpelledField(field: string, b: Bounds, parts: seq<Part>) {
    var texts := SplitOn(field, ',');
    && |parts| == |texts|
    && forall k :: 0 <= k < |texts| ==> Spells(Trim(texts[k]), parts[k]) && Wellformed(parts[k], b)
  }

  /** A field parses to the parts it spells, and fails exactly if it spells none. */
  lemma FieldIff(field: string, b: Bounds, parts: seq<Part>)
    ensures PartsOf(field, b) == Ok(parts) <==> SpelledField(field, b, parts)
  {
    var texts := SplitOn(field, ',');
    var entries := Entries(texts, b);
    if SpelledField(field, b, parts) {
      forall k | 0 <= k < |texts|
        ensures entries[k] == Ok(parts[k])
      {
        EntryIff(Trim(texts[k]), b, parts[k]);
      }
      AllOkOf(entries, parts);
    }
    if PartsOf(field, b) == Ok(parts) {
      forall k | 0 <= k < |texts|
        ensures Spells(Trim(texts[k]), parts[k]) && Wellformed(parts[k], b)
      {
        assert entries[k] == Ok(parts[k]);
        EntryIff(Trim(texts[k]), b, parts[k]);
      }
    }
  }

  /** One entry of the field spells something that means the value. */
  ghost predicate TextMeans(field: string, b: Bounds, v: nat) {
    exists k, p :: EntryMeans(field, b, v, k, p)
  }

  ghost predicate EntryMeans(field: string, b: Bounds, v: nat, k: nat, p: Part) {
    var texts := SplitOn(field, ',');
    k < |texts| && Spells(Trim(texts[k]), p) && Wellformed(p, b) && Means(p, b, v)
  }

  /** Some entry of the field is the step that leaves 32 bits. */
  ghost predicate TextWraps(field: string, b: Bounds) {
    b.min == 1 && exists k :: EntryWraps(field, k)
  }

  ghost predicate EntryWraps(field: string, k: nat) {
    var texts := SplitOn(field, ',');
    k < |texts| && Spells(Trim(texts[k]), Every(U32_MAX))
  }

  lemma TextMeansParts(field: string, b: Bounds, parts: seq<Part>, v: nat)
    requires SpelledField(field, b, parts)
    ensures TextMeans(field, b, v) <==> FieldMeans(parts, b, v)
  {
    var texts := SplitOn(field, ',');
    if k: nat, p :| EntryMeans(field, b, v, k, p) {
      EntryIff(Trim(texts[k]), b, p);
      EntryIff(Trim(texts[k]), b, parts[k]);
      assert parts[k] == p && parts[k] in parts;
    }
    if FieldMeans(parts, b, v) {
      var k :| 0 <= k < |parts| && Means(parts[k], b, v);
      assert EntryMeans(field, b, v, k, parts[k]);
    }
  }

  lemma TextWrapsParts(field: string, b: Bounds, parts: seq<Part>)
    requires b.Small() && SpelledField(field, b, parts)
    ensures TextWraps(field, b) <==> AnyWraps(parts, b)
  {
    var texts := SplitOn(field, ',');
    if b.min == 1 {
      if k: nat :| EntryWraps(field, k) {
        EntryIff(Trim(texts[k]), b, Every(U32_MAX));
        EntryIff(Trim(texts[k]), b, parts[k]);
        assert parts[k] in parts && Wraps(parts[k], b);
      }
    }
    if AnyWraps(parts, b) {
      var k :| 0 <= k < |parts| && Wraps(parts[k], b);
      OnlyTopStepWraps(parts[k], b);
      assert EntryWraps(field, k);
    }
  }

  ghost predicate Spelled(field: string, b: Bounds) {
    exists parts :: SpelledField(field, b, parts)
  }

  ghost predicate IsTextMeaning(values: seq<nat>, field: string, b: Bounds) {
    forall v: nat :: v in values <==> TextMeans(field, b, v)
  }

  lemma ParsedIff(field: string, b: Bounds)
    ensures ParseField(field, b).Ok? <==> Spelled(field, b)
  {
    if parts :| SpelledField(field, b, parts) {
      FieldIff(field, b, parts);
    }
    if PartsOf(field, b).Ok? {
      FieldIff(field, b, PartsOf(field, b).value);
    }
  }

  /** A spelled field gives a non-empty, strictly increasing list. The list is what the text means, and
      within bounds, exactly when no entry is the step that leaves 32 bits. */
  lemma FieldTextMeaning(field: string, b: Bounds)
    requires b.Small() && Spelled(field, b)
    ensures ParseField(field, b).Ok?
    ensures var values := ParseField(field, b).value;
            && values != [] && Increasing(values)
            && (IsTextMeaning(values, field, b) <==> !TextWraps(field, b))
            && (InBounds(values, b) <==> !TextWraps(field, b))
  {
    ParsedIff(field, b);
    var parts := PartsOf(field, b).value;
    FieldIff(field, b, parts);
    FieldMeaning(field, b, parts);
    TextWrapsParts(field, b, parts);
    forall v: nat
      ensures TextMeans(field, b, v) <==> FieldMeans(parts, b, v)
      ensures FieldMeans(parts, b, v) ==> v <= b.max
    {
      FieldHas(field, b, parts, v);
      TextMeansParts(field, b, parts, v);
    }
    assert IsTextMeaning(ParseField(field, b).value, field, b) <==> IsMeaning(ParseField(field, b).value, parts, b);
  }

  // Expressions.

  /** Five fields, each spelled. */
  ghost predicate SpelledExpr(words: seq<string>) {
    |words| == 5 && forall k :: 0 <= k < 5 ==> Spelled(words[k], FieldBounds(k))
  }

  /** An expression parses exactly when it has five fields and each is spelled. */
  lemma ParseIff(expr: string)
    ensures Parse(expr).Ok? <==> SpelledExpr(Words(Trim(expr)))
  {
    var words := Words(Trim(expr));
    if |words| == 5 {
      var fields := ParsedFields(words);
      forall k | 0 <= k < 5
        ensures fields[k].Ok? <==> Spelled(words[k], FieldBounds(k))
      {
        ParsedIff(words[k], FieldBounds(k));
      }
      if SpelledExpr(words) {
        AllOkFront(fields);
      }
    }
  }

  // What is reported.

  predicate IsHalf(text: string, range: string, n: string) { text == range + "/" + n }

  /** The text up to its slash, if it has one. */
  ghost predicate RangeOf(text: string, range: string) {
    text == range || exists n :: IsHalf(text, range, n)
  }

  predicate EndsInStep(text: string, n: string) {
    |n| < |text| && text[|text| - |n| - 1..] == "/" + n
  }

  predicate IsPair(text: string, x: string, c: char, y: string) { text == x + [c] + y }

  /** The text has one separator, no more and no less. */
  ghost predicate OneOnly(text: string, c: char) {
    exists x, y :: IsPair(text, x, c, y) && c !in x && c !in y
  }

  /** What the problem says is so. */
  ghost predicate IsSo(problem: Problem, text: string, b: Bounds) {
    match problem
    case BadStep(n) => EndsInStep(text, n) && ParseU32(n) == None
    case ZeroStep => exists n :: EndsInStep(text, n) && Numeral(n, 0)
    case BadRangeStep(t) => t == text && '/' in text && !OneOnly(text, '/')
    case BadRange(t) => RangeOf(text, t) && !OneOnly(t, '-')
    case BadRangeStart(x) => (exists y :: IsPair(text, x, '-', y)) && ParseU32(x) == None
    case BadRangeEnd(y) => ParseU32(y) == None && exists range, x :: RangeOf(text, range) && IsPair(range, x, '-', y)
    case RangeOutOfBounds(first, last) =>
      && (exists range :: RangeOf(text, range) && SpellsRange(range, first, last))
      && !(b.min <= first <= last <= b.max)
    case BadNumber(t) => t == text && ParseU32(t) == None && '/' !in t && '-' !in t
    case OutOfRange(v) => Numeral(text, v) && !(b.min <= v <= b.max)
    case NoValues => false
  }

  lemma NotTwo(s: string, c: char)
    requires |SplitOn(s, c)| != 2
    ensures !OneOnly(s, c)
  {
    if x, y :| IsPair(s, x, c, y) && c !in x && c !in y {
      TwoPartsSplit(x, c, y);
    }
  }

  /** A pair at the front of the text is one in it. */
  lemma PairInText(text: string, range: string, x: string, y: string)
    requires RangeOf(text, range) && IsPair(range, x, '-', y)
    ensures exists rest :: IsPair(text, x, '-', rest)
  {
    if text == range {
      assert IsPair(text, x, '-', y);
    } else {
      var n :| IsHalf(text, range, n);
      assert text == x + ['-'] + (y + "/" + n);
      assert IsPair(text, x, '-', y + "/" + n);
    }
  }

  lemma RangeProblemIsSo(text: string, range: string, b: Bounds)
    requires RangeOf(text, range) && ParseRange(range, b).Err?
    ensures IsSo(ParseRange(range, b).error, text, b)
  {
    var ends := SplitOn(range, '-');
    if |ends| != 2 {
      NotTwo(range, '-');
    } else {
      SplitInTwo(range, '-');
      assert IsPair(range, ends[0], '-', ends[1]);
      PairInText(text, range, ends[0], ends[1]);
      if ParseU32(ends[0]).Some? && ParseU32(ends[1]).Some? {
        assert IsRange(range, ends[0], ends[1], ParseU32(ends[0]).value, ParseU32(ends[1]).value);
      }
    }
  }

  lemma StepProblemIsSo(text: string, n: string, b: Bounds)
    requires EndsInStep(text, n) && ParseStep(n).Err?
    ensures IsSo(ParseStep(n).error, text, b)
  {
  }

  lemma HalvesProblemIsSo(text: string, range: string, n: string, b: Bounds)
    requires IsHalf(text, range, n)
    ensures ParseRange(range, b).Err? ==> IsSo(ParseRange(range, b).error, text, b)
    ensures ParseStep(n).Err? ==> IsSo(ParseStep(n).error, text, b)
  {
    if ParseRange(range, b).Err? {
      RangeProblemIsSo(text, range, b);
    }
    assert text[|text| - |n| - 1..] == "/" + n;
    if ParseStep(n).Err? {
      StepProblemIsSo(text, n, b);
    }
  }

  lemma SteppedProblemIsSo(text: string, b: Bounds)
    requires '/' in text && ParseStepped(text, b).Err?
    ensures IsSo(ParseStepped(text, b).error, text, b)
  {
    var halves := SplitOn(text, '/');
    if |halves| != 2 {
      NotTwo(text, '/');
    } else {
      SplitInTwo(text, '/');
      HalvesProblemIsSo(text, halves[0], halves[1], b);
    }
  }

  /** Whatever problem an entry is refused for is one it has. */
  lemma ProblemIsSo(text: string, b: Bounds)
    requires ParsePart(text, b).Err?
    ensures IsSo(ParsePart(text, b).error, text, b)
  {
    if "*/" <= text {
      assert text[1..] == "/" + text[2..];
      StepProblemIsSo(text, text[2..], b);
    } else if '/' in text {
      SteppedProblemIsSo(text, b);
    } else if '-' in text {
      RangeProblemIsSo(text, text, b);
    }
  }

  /** A field is refused for a problem of its first entry that has one. */
  lemma FieldProblemIsSo(field: string, b: Bounds) returns (k: nat)
    requires ParseField(field, b).Err?
    ensures var texts := SplitOn(field, ',');
            && k < |texts|
            && ParsePart(Trim(texts[k]), b) == Err(ParseField(field, b).error)
            && IsSo(ParseField(field, b).error, Trim(texts[k]), b)
            && forall i :: 0 <= i < k ==> ParsePart(Trim(texts[i]), b).Ok?
  {
    var texts := SplitOn(field, ',');
    k := ErrorIsSomeones(Entries(texts, b));
    assert Entries(texts, b)[k] == ParsePart(Trim(texts[k]), b);
    forall i | 0 <= i < k
      ensures ParsePart(Trim(texts[i]), b).Ok?
    {
      assert Entries(texts, b)[i].Ok?;
    }
    ProblemIsSo(Trim(texts[k]), b);
  }

  /** What is wrong with an expression that does not parse: its number of fields, or the first field that
      is not spelled. */
  lemma ParseBlames(expr: string)
    requires Parse(expr).Err?
    ensures var words := Words(Trim(expr));
            if |words| != 5 then Parse(expr).error == WrongCount(|words|)
            else exists k :: 0 <= k < 5 && Blamed(words, k, Parse(expr).error)
  {
    var words := Words(Trim(expr));
    if |words| == 5 {
      var fields := ParsedFields(words);
      ParseIff(expr);
      var k := FirstUnspelled(words);
      ParsedIff(words[k], FieldBounds(k));
      forall i | 0 <= i < k
        ensures fields[i].Ok?
      {
        ParsedIff(words[i], FieldBounds(i));
      }
      assert fields[k].Err?;
      FirstError(fields, k, fields[k].error);
      assert FieldName(k) == FIELD_NAMES[k];
      assert Blamed(words, k, Parse(expr).error);
    }
  }

  /** The fields before this one are spelled, it is not, and the error names it. */
  ghost predicate Blamed(words: seq<string>, k: nat, error: CronError)
    requires |words| == 5 && k < 5
  {
    && (forall i :: 0 <= i < k ==> Spelled(words[i], FieldBounds(i)))
    && !Spelled(words[k], FieldBounds(k))
    && error.InvalidValue? && error.field == FIELD_NAMES[k]
    && ParseField(words[k], FieldBounds(k)) == Err(error.problem)
  }

  lemma FirstUnspelled(words: seq<string>) returns (k: nat)
    requires |words| == 5 && !SpelledExpr(words)
    ensures k < 5 && !Spelled(words[k], FieldBounds(k)) && forall i :: 0 <= i < k ==> Spelled(words[i], FieldBounds(i))
  {
    k := 0;
    while k < 5 && Spelled(words[k], FieldBounds(k))
      invariant k <= 5 && forall i :: 0 <= i < k ==> Spelled(words[i], FieldBounds(i))
    {
      k := k + 1;
    }
  }

  /** The text means the value, or it is the zero a wrapping step leaves behind. */
  ghost predicate TextHolds(field: string, b: Bounds, v: nat) {
    TextMeans(field, b, v) || (v == 0 && TextWraps(field, b))
  }

  lemma FieldMatches(name: string, field: string, b: Bounds, v: nat)
    requires b.Small() && FieldOf(name, field, b).Ok?
    ensures v in FieldOf(name, field, b).value <==> TextHolds(field, b, v)
  {
    var parts := PartsOf(field, b).value;
    FieldIff(field, b, parts);
    FieldHas(field, b, parts, v);
    TextMeansParts(field, b, parts, v);
    TextWrapsParts(field, b, parts);
  }

  /** A parsed expression matches a moment exactly when each of its five fields means the component,
      or wraps and the component is zero. */
  lemma MatchesIffMeans(expr: string, minute: U32, hour: U32, day: U32, month: U32, weekday: U32)
    requires Parse(expr).Ok?
    ensures var words, moment := Words(Trim(expr)), [minute, hour, day, month, weekday];
            && |words| == 5
            && (MatchesTime(Parse(expr).value, minute, hour, day, month, weekday) <==>
                forall k :: 0 <= k < 5 ==> TextHolds(words[k], FieldBounds(k), moment[k]))
  {
    var words, moment := Words(Trim(expr)), [minute, hour, day, month, weekday];
    var fields := ParsedFields(words);
    var lists := AllOk(fields).value;
    forall k | 0 <= k < 5
      ensures moment[k] in lists[k] <==> TextHolds(words[k], FieldBounds(k), moment[k])
    {
      assert fields[k] == Ok(lists[k]);
      FieldMatches(FieldName(k), words[k], FieldBounds(k), moment[k]);
    }
    InEach(lists, moment);
  }

  /** One by one or all at once. */
  lemma InEach(lists: seq<seq<nat>>, moment: seq<U32>)
    requires |lists| == 5 && |moment| == 5
    ensures moment[0] in lists[0] && moment[1] in lists[1] && moment[2] in lists[2] && moment[3] in lists[3] && moment[4] in lists[4]
            <==> forall k :: 0 <= k < 5 ==> moment[k] in lists[k]
  {
  }

  // Printing entries.

  function PrintPart(p: Part): string {
    match p
    case All => "*"
    case Every(step) => "*/" + Decimal(step)
    case One(v) => Decimal(v)
    case Range(first, last) => Decimal(first) + "-" + Decimal(last)
    case Stepped(first, last, step) => Decimal(first) + "-" + Decimal(last) + "/" + Decimal(step)
  }

  function PrintParts(parts: seq<Part>): seq<string> {
    seq(|parts|, i requires 0 <= i < |parts| => PrintPart(parts[i]))
  }

  lemma RangeSpells(first: U32, last: U32)
    ensures SpellsRange(PrintPart(Range(first, last)), first, last)
  {
    ParseOfDecimal(first);
    ParseOfDecimal(last);
    assert IsRange(PrintPart(Range(first, last)), Decimal(first), Decimal(last), first, last);
  }

  lemma PrintSpells(p: Part)
    ensures Spells(PrintPart(p), p)
  {
    match p
    case All =>
    case One(v) => ParseOfDecimal(v);
    case Every(step) =>
      ParseOfDecimal(step);
      assert IsStep(PrintPart(p), Decimal(step), step);
    case Range(first, last) => RangeSpells(first, last);
    case Stepped(first, last, step) =>
      ParseOfDecimal(step);
      RangeSpells(first, last);
      assert IsStepped(PrintPart(p), PrintPart(Range(first, last)), Decimal(step), first, last, step);
  }

  predicate PrintedChar(c: char) { IsDigit(c) || c == '*' || c == '/' || c == '-' }

  lemma PrintedPlain(p: Part)
    ensures PrintPart(p) != "" && forall c <- PrintPart(p) :: PrintedChar(c)
  {
    match p
    case All =>
    case One(v) => DecimalIsPlain(v);
    case Every(step) => DecimalIsPlain(step);
    case Range(first, last) =>
      DecimalIsPlain(first);
      DecimalIsPlain(last);
    case Stepped(first, last, step) =>
      DecimalIsPlain(first);
      DecimalIsPlain(last);
      DecimalIsPlain(step);
  }

  /** Printing any entries as a comma list and parsing them gives them back, in order. */
  lemma PartsRoundTrip(parts: seq<Part>, b: Bounds)
    requires |parts| > 0 && forall k :: 0 <= k < |parts| ==> Wellformed(parts[k], b)
    ensures PartsOf(Join(PrintParts(parts), ","), b) == Ok(parts)
  {
    var texts := PrintParts(parts);
    forall k | 0 <= k < |texts|
      ensures ',' !in texts[k] && Trim(texts[k]) == texts[k] && Spells(texts[k], parts[k])
    {
      PrintedTrimmed(parts[k]);
      PrintSpells(parts[k]);
    }
    SplitOfJoin(texts, ',');
    FieldIff(Join(texts, ","), b, parts);
  }

  lemma PrintedTrimmed(p: Part)
    ensures Trim(PrintPart(p)) == PrintPart(p) && ',' !in PrintPart(p)
  {
    var s := PrintPart(p);
    PrintedPlain(p);
    assert PrintedChar(s[0]) && PrintedChar(s[|s| - 1]);
    TrimId(s);
  }
}
