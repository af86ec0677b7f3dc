/** The autonomy gates of the life loop (life_loop.rs): an hourly and daily task limit and a daily
    token budget, checked at one time and charged at a later one. */
module Limiters {
  import opened Windows
  import opened Wrappers

  const SECOND: nat := 1_000_000_000
  const HOUR: nat := 3600 * SECOND
  const DAY: nat := 24 * HOUR
  const U64_MAX: nat := 0xFFFF_FFFF_FFFF_FFFF
  const OUTPUT_TOKEN_ESTIMATE: nat := 1_000

  /** Each instant as a charge of one. */
  function Ones(times: seq<int>): (charges: seq<Charge>)
    ensures |charges| == |times|
  {
    seq(|times|, i requires 0 <= i < |times| => Charge(times[i], 1))
  }

  function CountFrom(times: seq<int>, from: int): nat { Since(Ones(times), from) }

  /** A trimmed deque: what is left of the log once some entries older than the cutoff were dropped. */
  predicate TrimmedTo<T(==)>(log: seq<T>, window: seq<T>, at: T -> int, cutoff: int) {
    && |window| <= |log|
    && window == log[|log| - |window|..]
    && forall i :: 0 <= i < |log| - |window| ==> at(log[i]) < cutoff
  }

  function Itself(t: int): int { t }

  function At(c: Charge): int { c.at }

  /** Trimming loses nothing that still counts. */
  lemma TrimmedCounts(log: seq<Charge>, window: seq<Charge>, cutoff: int, from: int)
    requires TrimmedTo(log, window, At, cutoff) && cutoff <= from
    ensures Since(window, from) == Since(log, from)
  {
    var dropped := log[..|log| - |window|];
    assert log == dropped + window;
    OldChargesDoNotCount(dropped, from);
    SinceSplit(dropped, window, from);
  }

  lemma TrimmedTimesCount(log: seq<int>, window: seq<int>, cutoff: int, from: int)
    requires TrimmedTo(log, window, Itself, cutoff) && cutoff <= from
    ensures CountFrom(window, from) == CountFrom(log, from)
  {
    assert Ones(window) == Ones(log)[|log| - |window|..];
    TrimmedCounts(Ones(log), Ones(window), cutoff, from);
  }

  /** Once everything left is recent, the length is the count. */
  lemma {:induction false} AllRecent(times: seq<int>, from: int)
    requires forall i :: 0 <= i < |times| ==> times[i] >= from
    ensures CountFrom(times, from) == |times|
  {
    if |times| > 0 {
      var n := |times| - 1;
      AllRecent(times[..n], from);
      assert Ones(times)[..n] == Ones(times[..n]);
    }
  }

  predicate NonDecreasing(times: seq<int>) {
    forall i, j :: 0 <= i < j < |times| ==> times[i] <= times[j]
  }

  lemma DropFront<T>(log: seq<T>, window: seq<T>, at: T -> int, cutoff: int)
    requires TrimmedTo(log, window, at, cutoff) && |window| > 0 && at(window[0]) < cutoff
    ensures TrimmedTo(log, window[1..], at, cutoff)
  {
  }

  /** `u64::saturating_add`. */
  function SaturatingAdd(a: nat, b: nat): nat {
    if a + b > U64_MAX then U64_MAX else a + b
  }

  lemma OrderedAt(log: seq<Charge>)
    requires Ordered(log)
    ensures forall i, j :: 0 <= i < j < |log| ==> At(log[i]) <= At(log[j])
  {
  }

  /** The loop of both `trim`s: entries older than the limit are popped off the front. */
  method PopFront<T>(ghost log: seq<T>, window: seq<T>, at: T -> int, limit: int) returns (kept: seq<T>)
    requires TrimmedTo(log, window, at, limit)
    requires forall i, j :: 0 <= i < j < |log| ==> at(log[i]) <= at(log[j])
    ensures TrimmedTo(log, kept, at, limit)
    ensures forall i :: 0 <= i < |kept| ==> at(kept[i]) >= limit
  {
    kept := window;
    while |kept| > 0 && at(kept[0]) < limit
      invariant TrimmedTo(log, kept, at, limit)
      decreases |kept|
    {
      DropFront(log, kept, at, limit);
      kept := kept[1..];
    }
    KeptRecent(log, kept, at, limit);
  }

  /** Once the front entry is recent, all are. */
  lemma KeptRecent<T>(log: seq<T>, window: seq<T>, at: T -> int, cutoff: int)
    requires TrimmedTo(log, window, at, cutoff) && forall i, j :: 0 <= i < j < |log| ==> at(log[i]) <= at(log[j])
    requires |window| > 0 ==> at(window[0]) >= cutoff
    ensures forall i :: 0 <= i < |window| ==> at(window[i]) >= cutoff
  {
    var dropped := |log| - |window|;
    forall i | 0 <= i < |window|
      ensures at(window[i]) >= cutoff
    {
      assert window[i] == log[dropped + i] && window[0] == log[dropped];
    }
  }

  /** Both task limits leave room: the day counted back from the trim, the hour from the filter. */
  predicate TaskRoom(times: seq<int>, maxPerHour: nat, maxPerDay: nat, trimAt: int, rateAt: int) {
    CountFrom(times, rateAt - HOUR) < maxPerHour && CountFrom(times, trimAt - DAY) < maxPerDay
  }

  predicate TokenRoom(charges: seq<Charge>, maxPerDay: nat, cost: nat, at: int) {
    maxPerDay == 0 || SaturatingAdd(Since(charges, at - DAY), cost) <= maxPerDay
  }

  class RateLimiter {
    const maxPerHour: nat
    const maxPerDay: nat
    var window: seq<int>
    /** Every consumption ever, with the instants its two limits were checked at. */
    ghost var log: seq<int>
    ghost var hourChecks: seq<int>
    ghost var dayChecks: seq<int>
    /** The latest clock reading, and the latest trim cutoff. */
    ghost var clock: int
    ghost var cutoff: int

    /** Every consumption so far was within its limits when it was checked. */
    ghost predicate Limited()
      reads this`log, this`hourChecks, this`dayChecks
    {
      && Checked(Ones(log), hourChecks, HOUR, maxPerHour)
      && Checked(Ones(log), dayChecks, DAY, maxPerDay)
    }

    ghost predicate Valid()
      reads this
    {
      && NonDecreasing(log) && (forall i :: 0 <= i < |log| ==> log[i] <= clock)
      && TrimmedTo(log, window, Itself, cutoff) && cutoff <= clock - DAY
    }

    constructor (maxPerHour: nat, maxPerDay: nat, now: int)
      ensures Valid() && Limited() && log == [] && window == [] && clock == now
      ensures this.maxPerHour == maxPerHour && this.maxPerDay == maxPerDay
    {
      this.maxPerHour, this.maxPerDay, window := maxPerHour, maxPerDay, [];
      log, hourChecks, dayChecks, clock, cutoff := [], [], [], now, now - DAY;
    }

    /** Pop entries older than a day off the front. */
    method Trim(now: int)
      requires Valid() && clock <= now
      modifies this`window, this`clock, this`cutoff
      ensures Valid() && clock == now && cutoff == now - DAY
      ensures forall i :: 0 <= i < |window| ==> window[i] >= cutoff
    {
      window := PopFront(log, window, Itself, now - DAY);
      clock, cutoff := now, now - DAY;
      assert forall i :: 0 <= i < |window| ==> Itself(window[i]) == window[i];
    }

    /** The trim and the hour filter, which read the clock one after the other. */
    method Counts(trimNow: int, now: int) returns (lastHour: nat, lastDay: nat)
      requires Valid() && clock <= trimNow <= now
      modifies this`window, this`clock, this`cutoff
      ensures Valid() && clock == now
      ensures lastHour == CountFrom(log, now - HOUR) && lastDay == CountFrom(log, trimNow - DAY)
    {
      Trim(trimNow);
      lastHour := CountFrom(window, now - HOUR);
      lastDay := |window|;
      TrimmedTimesCount(log, window, cutoff, now - HOUR);
      TrimmedTimesCount(log, window, cutoff, trimNow - DAY);
      AllRecent(window, trimNow - DAY);
      clock := now;
    }

    method HasBudget(trimNow: int, now: int) returns (ok: bool)
      requires Valid() && clock <= trimNow <= now
      modifies this`window, this`clock, this`cutoff
      ensures Valid() && clock == now
      ensures ok <==> TaskRoom(log, maxPerHour, maxPerDay, trimNow, now)
    {
      var lastHour, lastDay := Counts(trimNow, now);
      ok := lastHour < maxPerHour && lastDay < maxPerDay;
    }

    /** `snapshot` for the status page: trims too. */
    method Snapshot(trimNow: int, now: int) returns (lastHour: nat, lastDay: nat)
      requires Valid() && clock <= trimNow <= now
      modifies this`window, this`clock, this`cutoff
      ensures Valid() && clock == now
      ensures lastHour == CountFrom(log, now - HOUR) && lastDay == CountFrom(log, trimNow - DAY)
    {
      lastHour, lastDay := Counts(trimNow, now);
    }

    /** `consume`, allowed by a check that passed at `trimNow` and `checkNow` with nothing consumed
        since. */
    method Consume(now: int, ghost trimNow: int, ghost checkNow: int)
      requires Valid() && Limited() && clock <= now && trimNow <= now && checkNow <= now
      requires TaskRoom(log, maxPerHour, maxPerDay, trimNow, checkNow)
      modifies this`window, this`clock, this`log, this`hourChecks, this`dayChecks
      ensures Valid() && Limited() && clock == now && log == old(log) + [now]
    {
      window := window + [now];
      ghost var was := Ones(log);
      assert Ones(log + [now]) == was + [Charge(now, 1)];
      CheckedGrows(was, hourChecks, HOUR, maxPerHour, Charge(now, 1), checkNow);
      CheckedGrows(was, dayChecks, DAY, maxPerDay, Charge(now, 1), trimNow);
      log, hourChecks, dayChecks := log + [now], hourChecks + [checkNow], dayChecks + [trimNow];
      clock := now;
    }
  }

  lemma CheckedGrows(log: seq<Charge>, checkedAt: seq<int>, span: nat, cap: nat, c: Charge, at: int)
    requires Checked(log, checkedAt, span, cap)
    requires at <= c.at && Since(log, at - span) + c.cost <= cap
    ensures Checked(log + [c], checkedAt + [at], span, cap)
  {
    var grown, checks := log + [c], checkedAt + [at];
    forall k | 0 <= k < |grown|
      ensures RoomAt(grown, checks, span, cap, k)
    {
      if k < |log| {
        assert RoomAt(log, checkedAt, span, cap, k);
        assert grown[..k] == log[..k];
      } else {
        assert grown[..k] == log;
      }
    }
  }

  /** The saturating test is the real one exactly for caps below the top of the type. */
  lemma SaturationExact(cap: nat)
    requires cap <= U64_MAX
    ensures (forall a: nat, b: nat :: SaturatingAdd(a, b) <= cap ==> a + b <= cap) <==> cap < U64_MAX
  {
    assert SaturatingAdd(U64_MAX, 1) == U64_MAX;
  }

  /** A cap that limits: zero turns the guard off, and the top of the type never refuses. */
  predicate Limiting(maxPerDay: nat) { 0 < maxPerDay < U64_MAX }

  class TokenBudget {
    const maxPerDay: nat
    var window: seq<Charge>
    /** Every charge ever, with the instants the cap was checked at. */
    ghost var log: seq<Charge>
    ghost var checks: seq<int>
    ghost var clock: int
    ghost var cutoff: int

    ghost predicate Limited()
      reads this`log, this`checks
    {
      Limiting(maxPerDay) ==> Checked(log, checks, DAY, maxPerDay)
    }

    ghost predicate Valid()
      reads this
    {
      && Ordered(log) && (forall i :: 0 <= i < |log| ==> log[i].at <= clock)
      && TrimmedTo(log, window, At, cutoff) && cutoff <= clock - DAY
    }

    constructor (maxPerDay: nat, now: int)
      ensures Valid() && Limited() && log == [] && window == [] && clock == now && this.maxPerDay == maxPerDay
    {
      this.maxPerDay, window := maxPerDay, [];
      log, checks, clock, cutoff := [], [], now, now - DAY;
    }

    method Trim(now: int)
      requires Valid() && clock <= now
      modifies this`window, this`clock, this`cutoff
      ensures Valid() && clock == now && cutoff == now - DAY
      ensures forall i :: 0 <= i < |window| ==> window[i].at >= cutoff
    {
      OrderedAt(log);
      window := PopFront(log, window, At, now - DAY);
      clock, cutoff := now, now - DAY;
      assert forall i :: 0 <= i < |window| ==> At(window[i]) == window[i].at;
    }

    method SpentToday(now: int) returns (spent: nat)
      requires Valid() && clock <= now
      modifies this`window, this`clock, this`cutoff
      ensures Valid() && clock == now && spent == Since(log, now - DAY)
    {
      Trim(now);
      spent := 0;
      for k := 0 to |window|
        invariant spent == Since(window[..k], now - DAY)
      {
        assert window[..k + 1][..k] == window[..k];
        spent := spent + window[k].cost;
      }
      assert window[..|window|] == window;
      TrimmedCounts(log, window, cutoff, now - DAY);
    }

    method HasBudget(cost: nat, now: int) returns (ok: bool)
      requires Valid() && clock <= now
      modifies this`window, this`clock, this`cutoff
      ensures Valid() && clock <= now
      ensures ok <==> TokenRoom(log, maxPerDay, cost, now)
    {
      if maxPerDay == 0 {
        return true;
      }
      var spent := SpentToday(now);
      ok := SaturatingAdd(spent, cost) <= maxPerDay;
    }

    method Consume(cost: nat, now: int, ghost checkNow: int)
      requires Valid() && Limited() && clock <= now && checkNow <= now
      requires TokenRoom(log, maxPerDay, cost, checkNow)
      modifies this`window, this`clock, this`log, this`checks
      ensures Valid() && Limited() && clock == now && log == old(log) + [Charge(now, cost)]
    {
      window := window + [Charge(now, cost)];
      if Limiting(maxPerDay) {
        CheckedGrows(log, checks, DAY, maxPerDay, Charge(now, cost), checkNow);
      }
      log, checks := log + [Charge(now, cost)], checks + [checkNow];
      clock := now;
    }
  }

  /** One tick of the life loop: whether it is paused, whether the queue is idle, the cost of the
      prompt it settles on (none if no drive asks or no prompt is found), the clock at each gate, and
      a UI snapshot taken in between. */
  datatype TickInput = TickInput(
    paused: bool,
    idle: bool,
    prompt: Option<nat>,
    trimAt: int,
    rateAt: int,
    snapshotAt: int,
    tokensAt: int,
    taskAt: int,
    costAt: int)

  /** The clock never goes back within a tick. */
  predicate ClockRuns(from: int, t: TickInput) {
    from <= t.trimAt <= t.rateAt <= t.snapshotAt <= t.tokensAt <= t.taskAt <= t.costAt
  }

  /** A quarter of the bytes, rounded up, and a flat estimate of the answer. */
  function PromptCost(promptBytes: nat): (cost: nat)
    ensures promptBytes <= 4 * (cost - 1_000) < promptBytes + 4
  {
    (promptBytes + 3) / 4 + OUTPUT_TOKEN_ESTIMATE
  }

  /** When a tick submits. */
  predicate Submits(t: TickInput, times: seq<int>, charges: seq<Charge>, perHour: nat, perDay: nat, maxTokens: nat) {
    && !t.paused && t.idle && t.prompt.Some?
    && TaskRoom(times, perHour, perDay, t.trimAt, t.rateAt)
    && TokenRoom(charges, maxTokens, PromptCost(t.prompt.value), t.tokensAt)
  }

  /** In numbers: the loop runs and is idle, a prompt is found, fewer tasks than allowed in the hour and in
      the day before, and a day's tokens that leave room for the prompt, unless their cap is off or at
      the top of the type. */
  lemma SubmitsIff(t: TickInput, times: seq<int>, charges: seq<Charge>, perHour: nat, perDay: nat, maxTokens: nat)
    requires maxTokens <= U64_MAX
    ensures Submits(t, times, charges, perHour, perDay, maxTokens) <==>
            && !t.paused && t.idle && t.prompt.Some?
            && Since(Ones(times), t.rateAt - 3600 * 1_000_000_000) < perHour
            && Since(Ones(times), t.trimAt - 24 * 3600 * 1_000_000_000) < perDay
            && (maxTokens == 0 || maxTokens == U64_MAX
                || Since(charges, t.tokensAt - 24 * 3600 * 1_000_000_000) + PromptCost(t.prompt.value) <= maxTokens)
  {
  }

  /** Ticks follow one another. */
  predicate InOrder(start: int, ticks: seq<TickInput>)
    decreases |ticks|
  {
    |ticks| > 0 ==> ClockRuns(start, ticks[0]) && InOrder(ticks[0].costAt, ticks[1..])
  }

  /** The closed interval of the span that begins at `from` stays within the cap. */
  predicate WindowHolds(log: seq<Charge>, span: nat, cap: nat, from: int) {
    Within(log, from, from + span) <= cap
  }

  class Gates {
    const limiter: RateLimiter
    const tokens: TokenBudget

    ghost predicate Valid()
      reads limiter, tokens
    {
      limiter.Valid() && limiter.Limited() && tokens.Valid() && tokens.Limited()
    }

    constructor (maxPerHour: nat, maxPerDay: nat, maxTokens: nat, now: int)
      ensures Valid() && fresh(limiter) && fresh(tokens)
      ensures limiter.maxPerHour == maxPerHour && limiter.maxPerDay == maxPerDay && tokens.maxPerDay == maxTokens
      ensures limiter.log == [] && tokens.log == [] && limiter.clock == tokens.clock == now
    {
      limiter := new RateLimiter(maxPerHour, maxPerDay, now);
      tokens := new TokenBudget(maxTokens, now);
    }

    ghost predicate NotAfter(now: int)
      reads limiter`clock, tokens`clock
    {
      limiter.clock <= now && tokens.clock <= now
    }

    /** The status page reads both records at any time. */
    method Snapshot(trimNow: int, now: int) returns (lastHour: nat, lastDay: nat, spent: nat)
      requires Valid() && NotAfter(trimNow) && trimNow <= now
      modifies limiter`window, limiter`clock, limiter`cutoff, tokens`window, tokens`clock, tokens`cutoff
      ensures Valid() && NotAfter(now)
      ensures lastHour == CountFrom(limiter.log, now - HOUR) && lastDay == CountFrom(limiter.log, trimNow - DAY)
      ensures spent == Since(tokens.log, now - DAY)
    {
      lastHour, lastDay := limiter.Snapshot(trimNow, now);
      spent := tokens.SpentToday(now);
    }

    /** The gates of one tick, in the order the loop asks them. */
    method Asked(t: TickInput) returns (submitted: bool)
      requires Valid() && NotAfter(t.trimAt) && ClockRuns(t.trimAt, t)
      modifies limiter`window, limiter`clock, limiter`cutoff, tokens`window, tokens`clock, tokens`cutoff
      ensures Valid() && limiter.clock <= t.snapshotAt && tokens.clock <= t.tokensAt
      ensures submitted <==> Submits(t, limiter.log, tokens.log, limiter.maxPerHour, limiter.maxPerDay, tokens.maxPerDay)
    {
      submitted := false;
      if t.paused {
        return;
      }
      if !t.idle {
        return;
      }
      var rate := limiter.HasBudget(t.trimAt, t.rateAt);
      if !rate {
        return;
      }
      var _, _, _ := Snapshot(t.rateAt, t.snapshotAt);
      if t.prompt.None? {
        return;
      }
      submitted := tokens.HasBudget(PromptCost(t.prompt.value), t.tokensAt);
    }

    /** One tick: the gates, then both records are charged. */
    method Tick(t: TickInput) returns (submitted: bool)
      requires Valid() && NotAfter(t.trimAt) && ClockRuns(t.trimAt, t)
      modifies limiter, tokens
      ensures Valid() && NotAfter(t.costAt)
      ensures submitted <==> Submits(t, old(limiter.log), old(tokens.log),
                                     limiter.maxPerHour, limiter.maxPerDay, tokens.maxPerDay)
      ensures limiter.log == if submitted then old(limiter.log) + [t.taskAt] else old(limiter.log)
      ensures tokens.log == if submitted then old(tokens.log) + [Charge(t.costAt, PromptCost(t.prompt.value))] else old(tokens.log)
    {
      submitted := Asked(t);
      if submitted {
        limiter.Consume(t.taskAt, t.trimAt, t.rateAt);
        tokens.Consume(PromptCost(t.prompt.value), t.costAt, t.tokensAt);
      }
    }

    /** Any number of ticks. In every closed hour and day of the whole run the tasks stay within
        their limits, and in every closed day the tokens stay within the cap. */
    method Run(start: int, ticks: seq<TickInput>)
      requires Valid() && NotAfter(start) && InOrder(start, ticks)
      modifies limiter, tokens
      ensures Valid()
      ensures forall from: int :: WindowHolds(Ones(limiter.log), HOUR, limiter.maxPerHour, from)
      ensures forall from: int :: WindowHolds(Ones(limiter.log), DAY, limiter.maxPerDay, from)
      ensures Limiting(tokens.maxPerDay) ==> forall from: int :: WindowHolds(tokens.log, DAY, tokens.maxPerDay, from)
    {
      ghost var now := start;
      for k := 0 to |ticks|
        invariant Valid() && NotAfter(now) && InOrder(now, ticks[k..])
      {
        assert ticks[k..][0] == ticks[k] && ticks[k..][1..] == ticks[k + 1..];
        var _ := Tick(ticks[k]);
        now := ticks[k].costAt;
      }
      WindowsHold(limiter, tokens);
    }
  }

  /** What the records of checked charges imply for every window. */
  lemma WindowsHold(limiter: RateLimiter, tokens: TokenBudget)
    requires limiter.Limited() && tokens.Limited()
    ensures forall from: int :: WindowHolds(Ones(limiter.log), HOUR, limiter.maxPerHour, from)
    ensures forall from: int :: WindowHolds(Ones(limiter.log), DAY, limiter.maxPerDay, from)
    ensures Limiting(tokens.maxPerDay) ==> forall from: int :: WindowHolds(tokens.log, DAY, tokens.maxPerDay, from)
  {
    forall from: int
      ensures WindowHolds(Ones(limiter.log), HOUR, limiter.maxPerHour, from)
    {
      NoWindowExceeds(Ones(limiter.log), limiter.hourChecks, HOUR, limiter.maxPerHour, from);
    }
    forall from: int
      ensures WindowHolds(Ones(limiter.log), DAY, limiter.maxPerDay, from)
    {
      NoWindowExceeds(Ones(limiter.log), limiter.dayChecks, DAY, limiter.maxPerDay, from);
    }
    if Limiting(tokens.maxPerDay) {
      forall from: int
        ensures WindowHolds(tokens.log, DAY, tokens.maxPerDay, from)
      {
        NoWindowExceeds(tokens.log, tokens.checks, DAY, tokens.maxPerDay, from);
      }
    }
  }
}
