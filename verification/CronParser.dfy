/** The loops of the cron field parser (cron.rs). */
module CronParser {
  import opened Wrappers
  import opened Text
  import opened Cron
  import opened Division

  /** 32-bit addition without overflow checks. */
  function WrappingAdd(a: U32, b: U32): U32 {
    (a + b) % 0x1_0000_0000
  }

  method PushRange(first: U32, last: U32) returns (values: seq<nat>)
    requires first <= last
    ensures forall v: nat :: v in values <==> first <= v <= last
  {
    values := [];
    var v := first;
    while v <= last
      invariant first <= v <= last + 1
      invariant forall u: nat :: u in values <==> first <= u < v
    {
      values := values + [v];
      v := v + 1;
    }
  }

  /** Between one multiple and the next there is none. */
  lemma NextMultiple(n: nat, step: nat, t: nat)
    requires step > 0 && n % step == 0 && t <= step
    ensures (n + t) % step == 0 <==> t == 0 || t == step
  {
    var q := n / step;
    DivMod(n, step);
    if t < step {
      DivModUnique(n + t, step, q, t);
    } else {
      assert (q + 1) * step == q * step + step;
      DivModUnique(n + t, step, q + 1, 0);
    }
  }

  /** The step loop's state: the multiples below `v`, or, if the step wraps, one, then zero, then out. */
  ghost predicate Stepping(b: Bounds, step: U32, v: U32, values: seq<nat>)
    requires step > 0
  {
    if Wraps(Every(step), b) then
      (v == 1 && values == []) || (v == 0 && values == [1]) || (v == U32_MAX && values == [1, 0])
    else
      && b.min <= v && (v - b.min) % step == 0 && (v == b.min || step <= v)
      && forall u: nat :: u in values <==> u < v && Means(Every(step), b, u)
  }

  lemma StepForward(b: Bounds, step: U32, v: U32, values: seq<nat>)
    requires b.Small() && step > 0 && v <= b.max && Stepping(b, step, v, values)
    ensures Stepping(b, step, WrappingAdd(v, step), values + [v])
    ensures Wraps(Every(step), b) || WrappingAdd(v, step) > v
  {
    if !Wraps(Every(step), b) {
      NextMultiple(v - b.min, step, step);
      assert WrappingAdd(v, step) == v + step;
      forall u: nat
        ensures u in values + [v] <==> u < v + step && Means(Every(step), b, u)
      {
        if v <= u < v + step {
          NextMultiple(v - b.min, step, u - v);
        }
      }
    }
  }

  /** `v` starts at the least value and grows by the step, in 32 bits, while it is not above the
      greatest. */
  method PushSteps(b: Bounds, step: U32) returns (values: seq<nat>)
    requires b.Small() && step > 0
    ensures forall v: nat :: v in values <==> Pushes(Every(step), b, v)
  {
    values := [];
    var v: U32 := b.min;
    while v <= b.max
      invariant Stepping(b, step, v, values)
      decreases if v > b.max then 0 else if Wraps(Every(step), b) then v + 1 else b.max + 1 - v
    {
      StepForward(b, step, v, values);
      values := values + [v];
      v := WrappingAdd(v, step);
    }
    if Wraps(Every(step), b) {
      OnlyLeastMeans(b, step);
    }
  }

  /** A step above the greatest value means the least value only. */
  lemma OnlyLeastMeans(b: Bounds, step: U32)
    requires b.Small() && step > b.max
    ensures forall v: nat :: Means(Every(step), b, v) <==> v == b.min
  {
    forall v: nat
      ensures Means(Every(step), b, v) <==> v == b.min
    {
      if b.min <= v <= b.max {
        DivModUnique(v - b.min, step, 0, v - b.min);
      }
    }
  }

  /** Every `step`-th value of a range, by position. */
  method PushStepped(first: U32, last: U32, step: U32, b: Bounds) returns (values: seq<nat>)
    requires first <= last && step > 0
    ensures forall v: nat :: v in values <==> Means(Stepped(first, last, step), b, v)
  {
    var range := [];
    var u := first;
    while u <= last
      invariant first <= u <= last + 1 && |range| == u - first
      invariant forall k :: 0 <= k < |range| ==> range[k] == first + k
    {
      range := range + [u];
      u := u + 1;
    }
    values := [];
    for i := 0 to |range|
      invariant forall v: nat :: v in values <==> v < first + i && Means(Stepped(first, last, step), b, v)
    {
      if i % step == 0 {
        values := values + [range[i]];
      }
    }
  }

  /** `parse_range`. */
  method RangeEnds(s: string, b: Bounds) returns (r: Result<(U32, U32), Problem>)
    ensures r == ParseRange(s, b)
  {
    var parts := SplitOn(s, '-');
    if |parts| != 2 {
      return Err(BadRange(s));
    }
    var start := ParseU32(parts[0]);
    if start.None? {
      return Err(BadRangeStart(parts[0]));
    }
    var end := ParseU32(parts[1]);
    if end.None? {
      return Err(BadRangeEnd(parts[1]));
    }
    if start.value < b.min || end.value > b.max || start.value > end.value {
      return Err(RangeOutOfBounds(start.value, end.value));
    }
    return Ok((start.value, end.value));
  }

  /** What an entry's branch pushes, or the problem it returns. */
  ghost predicate Gives(r: Result<seq<nat>, Problem>, part: Result<Part, Problem>, b: Bounds) {
    match part
    case Err(e) => r == Err(e)
    case Ok(p) => r.Ok? && forall v: nat :: v in r.value <==> Pushes(p, b, v)
  }

  /** The branch for a step: `*` over a number. */
  method StepValues(stepStr: string, b: Bounds) returns (r: Result<seq<nat>, Problem>)
    requires b.Small()
    ensures match ParseStep(stepStr)
            case Err(e) => r == Err(e)
            case Ok(step) => r.Ok? && forall v: nat :: v in r.value <==> Pushes(Every(step), b, v)
  {
    var step := ParseU32(stepStr);
    if step.None? {
      return Err(BadStep(stepStr));
    }
    if step.value == 0 {
      return Err(ZeroStep);
    }
    var values := PushSteps(b, step.value);
    return Ok(values);
  }

  /** The branch for a range with a step. */
  method SteppedValues(text: string, b: Bounds) returns (r: Result<seq<nat>, Problem>)
    ensures Gives(r, ParseStepped(text, b), b)
  {
    var parts := SplitOn(text, '/');
    if |parts| != 2 {
      return Err(BadRangeStep(text));
    }
    var range := RangeEnds(parts[0], b);
    if range.Err? {
      return Err(range.error);
    }
    var step := ParseU32(parts[1]);
    if step.None? {
      return Err(BadStep(parts[1]));
    }
    if step.value == 0 {
      return Err(ZeroStep);
    }
    var values := PushStepped(range.value.0, range.value.1, step.value, b);
    return Ok(values);
  }

  /** The branches of one entry, in the order the code tries them. */
  method ParsePartValues(text: string, b: Bounds) returns (r: Result<seq<nat>, Problem>)
    requires b.Small()
    ensures Gives(r, ParsePart(text, b), b)
  {
    if text == "*" {
      var values := PushRange(b.min, b.max);
      return Ok(values);
    } else if "*/" <= text {
      r := StepValues(text[2..], b);
    } else if '/' in text {
      r := SteppedValues(text, b);
    } else if '-' in text {
      var range := RangeEnds(text, b);
      if range.Err? {
        return Err(range.error);
      }
      var values := PushRange(range.value.0, range.value.1);
      return Ok(values);
    } else {
      var v := ParseU32(text);
      if v.None? {
        return Err(BadNumber(text));
      }
      if v.value < b.min || v.value > b.max {
        return Err(OutOfRange(v.value));
      }
      return Ok([v.value]);
    }
  }

  /** What the loop has pushed after some entries, all of which parsed. */
  ghost predicate PushedSoFar(entries: seq<Result<Part, Problem>>, b: Bounds, k: nat, parts: seq<Part>, values: seq<nat>) {
    && k <= |entries| && |parts| == k && (forall i :: 0 <= i < k ==> entries[i] == Ok(parts[i]))
    && forall v: nat :: v in values <==> AnyPushes(parts, b, v)
  }

  lemma PushedOneMore(
      entries: seq<Result<Part, Problem>>, b: Bounds, k: nat, parts: seq<Part>, values: seq<nat>, p: Part, more: seq<nat>)
    requires k < |entries| && PushedSoFar(entries, b, k, parts, values) && entries[k] == Ok(p)
    requires forall v: nat :: v in more <==> Pushes(p, b, v)
    ensures PushedSoFar(entries, b, k + 1, parts + [p], values + more)
  {
    PushesOneMore(parts, p, b);
  }

  /** `parse_field`: entry by entry, stopping at the first problem. */
  method ParseFieldValues(field: string, b: Bounds) returns (r: Result<seq<nat>, Problem>)
    requires b.Small()
    ensures r == ParseField(field, b)
  {
    var texts := SplitOn(field, ',');
    ghost var entries := Entries(texts, b);
    var values: seq<nat> := [];
    ghost var parts: seq<Part> := [];
    for k := 0 to |texts|
      invariant PushedSoFar(entries, b, k, parts, values)
    {
      var entry := Trim(texts[k]);
      var more := ParsePartValues(entry, b);
      assert entries[k] == ParsePart(entry, b);
      if more.Err? {
        FirstError(entries, k, more.error);
        return Err(more.error);
      }
      PushedOneMore(entries, b, k, parts, values, entries[k].value, more.value);
      values, parts := values + more.value, parts + [entries[k].value];
    }
    AllOkOf(entries, parts);
    r := SortedValues(field, b, parts, values);
  }

  /** `sort`, `dedup` and the last test: an empty result, an error of its own, cannot come up. */
  method SortedValues(field: string, b: Bounds, ghost parts: seq<Part>, values: seq<nat>)
    returns (r: Result<seq<nat>, Problem>)
    requires b.Small() && PartsOf(field, b) == Ok(parts)
    requires forall v: nat :: v in values <==> AnyPushes(parts, b, v)
    ensures r == ParseField(field, b)
  {
    var sorted := Ascending((v: nat) => v in values, b.max);
    AscendingIs((v: nat) => v in values, b.max);
    FieldIsSorted(field, b, parts, sorted);
    NeverEmpty(field, b);
    if sorted == [] {
      return Err(NoValues);
    }
    return Ok(sorted);
  }

  lemma PushesOneMore(parts: seq<Part>, p: Part, b: Bounds)
    ensures forall v: nat :: AnyPushes(parts + [p], b, v) <==> AnyPushes(parts, b, v) || Pushes(p, b, v)
  {
    forall v: nat
      ensures AnyPushes(parts + [p], b, v) <==> AnyPushes(parts, b, v) || Pushes(p, b, v)
    {
      assert p in parts + [p];
    }
  }

  lemma FieldIsSorted(field: string, b: Bounds, parts: seq<Part>, sorted: seq<nat>)
    requires PartsOf(field, b) == Ok(parts) && Increasing(sorted)
    requires forall v: nat :: v in sorted <==> v <= b.max && AnyPushes(parts, b, v)
    ensures ParseField(field, b) == Ok(sorted)
  {
    AscendingIs((v: nat) => AnyPushes(parts, b, v), b.max);
    IncreasingUnique(ParseField(field, b).value, sorted);
  }

  lemma NeverEmpty(field: string, b: Bounds)
    requires b.Small()
    ensures ParseField(field, b) != Err(NoValues) && ParseField(field, b) != Ok([])
  {
    match PartsOf(field, b)
    case Ok(parts) => FieldMeaning(field, b, parts);
    case Err(e) =>
      var texts := SplitOn(field, ',');
      var k := ErrorIsSomeones(Entries(texts, b));
      assert Entries(texts, b)[k] == ParsePart(Trim(texts[k]), b);
  }
}
