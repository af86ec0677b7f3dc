/** The per-user message limit of the Telegram bot (bot.rs). */
module TelegramLimiter {
  import opened Windows
  import opened Limiters

  const MINUTE: nat := 60 * SECOND

  /** `retain`: the instants less than a minute before `now`. An instant after `now` is at
      saturated distance zero, so it stays. */
  function Retained(times: seq<int>, now: int): (kept: seq<int>) {
    if |times| == 0 then []
    else
      var n := |times| - 1;
      Retained(times[..n], now) + (if times[n] > now - MINUTE then [times[n]] else [])
  }

  /** What is retained is what the window counts. */
  lemma {:induction false} RetainedCounts(times: seq<int>, now: int)
    ensures |Retained(times, now)| == CountFrom(times, now - MINUTE + 1)
  {
    if |times| > 0 {
      var n := |times| - 1;
      RetainedCounts(times[..n], now);
      assert Ones(times)[..n] == Ones(times[..n]);
    }
  }

  lemma {:induction false} RetainedSplit(a: seq<int>, b: seq<int>, now: int)
    ensures Retained(a + b, now) == Retained(a, now) + Retained(b, now)
  {
    if |b| == 0 {
      assert a + b == a && Retained(a, now) + [] == Retained(a, now);
    } else {
      var n := |b| - 1;
      assert (a + b)[..|a + b| - 1] == a + b[..n];
      RetainedSplit(a, b[..n], now);
    }
  }

  /** What a past pass dropped, a later one would drop too. */
  lemma {:induction false} RetainedTwice(times: seq<int>, before: int, now: int)
    ensures Retained(Retained(times, before), now) == Retained(times, Later(before, now))
  {
    if |times| > 0 {
      var n := |times| - 1;
      var last := [times[n]];
      RetainedTwice(times[..n], before, now);
      RetainedSplit(Retained(times[..n], before), if last[0] > before - MINUTE then last else [], now);
      assert last[..0] == [];
    }
  }

  function Later(a: int, b: int): int { if a < b then b else a }

  function Of(log: map<int, seq<int>>, user: int): seq<int> {
    if user in log then log[user] else []
  }

  /** Every acceptance of the user had room when it was checked. */
  ghost predicate UserLimited(limit: nat, accepted: map<int, seq<int>>, checks: map<int, seq<int>>, user: int) {
    limit > 0 ==> Checked(Ones(Of(accepted, user)), Of(checks, user), MINUTE - 1, limit)
  }

  ghost predicate EveryUserLimited(limit: nat, accepted: map<int, seq<int>>, checks: map<int, seq<int>>) {
    forall u :: UserLimited(limit, accepted, checks, u)
  }

  /** Every user's window is what is retained of the acceptances at the latest reading. */
  predicate AllRetained(window: map<int, seq<int>>, accepted: map<int, seq<int>>, seen: map<int, int>) {
    window.Keys == accepted.Keys == seen.Keys && forall u <- window :: window[u] == Retained(accepted[u], seen[u])
  }

  lemma StaysRetained(
      window: map<int, seq<int>>, accepted: map<int, seq<int>>, seen: map<int, int>, user: int,
      entry: seq<int>, times: seq<int>, latest: int)
    requires AllRetained(window, accepted, seen) && entry == Retained(times, latest)
    ensures AllRetained(window[user := entry], accepted[user := times], seen[user := latest])
  {
  }

  lemma StaysLimited(
      limit: nat, accepted: map<int, seq<int>>, checks: map<int, seq<int>>, user: int, now: int, ok: bool)
    requires EveryUserLimited(limit, accepted, checks)
    requires ok ==> CountFrom(Of(accepted, user), now - MINUTE + 1) < limit
    ensures EveryUserLimited(
              limit,
              accepted[user := Of(accepted, user) + if ok then [now] else []],
              checks[user := Of(checks, user) + if ok then [now] else []])
  {
    var times, were := Of(accepted, user), Of(checks, user);
    var accepted' := accepted[user := times + if ok then [now] else []];
    var checks' := checks[user := were + if ok then [now] else []];
    forall u
      ensures UserLimited(limit, accepted', checks', u)
    {
      assert UserLimited(limit, accepted, checks, u);
      if u == user && ok {
        assert Ones(times + [now]) == Ones(times) + [Charge(now, 1)];
        CheckedGrows(Ones(times), were, MINUTE - 1, limit, Charge(now, 1), now);
      } else if u == user {
        assert Of(accepted', u) == times && Of(checks', u) == were;
      }
    }
  }

  /** A user's message, at the clock reading it is checked at. */
  datatype Reading = Reading(user: int, now: int)

  /** No user's readings go back. */
  predicate NoneGoesBack(seen: map<int, int>, readings: seq<Reading>)
    decreases |readings|
  {
    |readings| > 0 ==>
      var r := readings[0];
      LatestOf(seen, r.user, r.now) == r.now && NoneGoesBack(seen[r.user := r.now], readings[1..])
  }

  /** The windows, and what is remembered beside them: every acceptance of each user, the instants of
      the checks that let them in, and the latest reading each user was seen at. */
  datatype Record = Record(
    window: map<int, seq<int>>,
    accepted: map<int, seq<int>>,
    checks: map<int, seq<int>>,
    seen: map<int, int>)
  {
    /** The windows hold what counts of the full record. */
    predicate Exact() { AllRetained(window, accepted, seen) }

    ghost predicate Limited(limit: nat) { EveryUserLimited(limit, accepted, checks) }

    /** No reading of the user is a minute behind the latest one. */
    predicate Timely(user: int, now: int) { LatestOf(seen, user, now) - MINUTE < now }
  }

  predicate Admits(s: Record, limit: nat, user: int, now: int) {
    limit == 0 || |Retained(Of(s.window, user), now)| < limit
  }

  function Next(s: Record, limit: nat, user: int, now: int): Record {
    if limit == 0 then s
    else
      var added := if Admits(s, limit, user, now) then [now] else [];
      Record(
        s.window[user := Retained(Of(s.window, user), now) + added],
        s.accepted[user := Of(s.accepted, user) + added],
        s.checks[user := Of(s.checks, user) + added],
        s.seen[user := LatestOf(s.seen, user, now)])
  }

  /** Acceptance counts the user's own acceptances of the last minute, from the full record. */
  lemma AdmitsExactly(s: Record, limit: nat, user: int, now: int)
    requires limit > 0 && s.Exact() && s.Timely(user, now)
    ensures Admits(s, limit, user, now)
            <==> CountFrom(Of(s.accepted, user), LatestOf(s.seen, user, now) - MINUTE + 1) < limit
    ensures Next(s, limit, user, now).Exact()
  {
    var before := if user in s.seen then s.seen[user] else now;
    var times := Of(s.accepted, user);
    var latest := LatestOf(s.seen, user, now);
    Admitted(limit, Of(s.window, user), now, times, before);
    var added := if Admits(s, limit, user, now) then [now] else [];
    StaysRetained(s.window, s.accepted, s.seen, user, Retained(Of(s.window, user), now) + added, times + added, latest);
  }

  lemma NextLimited(s: Record, limit: nat, user: int, now: int)
    requires s.Exact() && s.Limited(limit) && LatestOf(s.seen, user, now) == now
    ensures Next(s, limit, user, now).Exact() && Next(s, limit, user, now).Limited(limit)
  {
    if limit > 0 {
      AdmitsExactly(s, limit, user, now);
      StaysLimited(limit, s.accepted, s.checks, user, now, Admits(s, limit, user, now));
    }
  }

  class UserLimiter {
    const limit: nat
    var window: map<int, seq<int>>
    ghost var accepted: map<int, seq<int>>
    ghost var checks: map<int, seq<int>>
    ghost var seen: map<int, int>

    ghost function State(): Record
      reads this
    {
      Record(window, accepted, checks, seen)
    }

    constructor (limit: nat)
      ensures State() == Record(map[], map[], map[], map[]) && this.limit == limit
      ensures State().Exact() && State().Limited(limit)
    {
      this.limit, window, accepted, checks, seen := limit, map[], map[], map[], map[];
    }

    /** `check_rate_limit`: a limit of zero accepts everything and keeps no record; otherwise the
        user's window is cleared of what is a minute old, and accepts while it holds fewer than
        `limit`. That is exactly while fewer than `limit` of the user's own acceptances are under a
        minute old at the latest reading, as long as no reading is a minute behind (the clock is read
        before the lock is taken). */
    method Check(user: int, now: int) returns (ok: bool)
      modifies this
      ensures ok == Admits(old(State()), limit, user, now) && State() == Next(old(State()), limit, user, now)
      ensures limit > 0 && old(State()).Exact() && old(State()).Timely(user, now) ==>
                (ok <==> CountFrom(Of(old(accepted), user), seen[user] - MINUTE + 1) < limit)
    {
      if limit > 0 && State().Exact() && State().Timely(user, now) {
        AdmitsExactly(State(), limit, user, now);
      }
      if limit == 0 {
        return true;
      }
      var entry := Retained(Of(window, user), now);
      assert entry + [] == entry;
      ok := |entry| < limit;
      if ok {
        entry := entry + [now];
      }
      window := window[user := entry];
      seen := seen[user := LatestOf(seen, user, now)];
      accepted := accepted[user := Of(accepted, user) + if ok then [now] else []];
      checks := checks[user := Of(checks, user) + if ok then [now] else []];
    }

    /** Any readings in order: no minute of the whole run, closed at one end, holds more than the limit
        of any user's messages. */
    method Run(readings: seq<Reading>)
      requires State().Exact() && State().Limited(limit) && NoneGoesBack(seen, readings)
      modifies this
      ensures limit > 0 ==> forall user, from :: MinuteHolds(limit, accepted, user, from)
    {
      for k := 0 to |readings|
        invariant State().Exact() && State().Limited(limit) && (limit > 0 ==> NoneGoesBack(seen, readings[k..]))
      {
        var r := readings[k];
        assert readings[k..][0] == r && readings[k..][1..] == readings[k + 1..];
        if limit > 0 {
          NextLimited(State(), limit, r.user, r.now);
        }
        var _ := Check(r.user, r.now);
      }
      if limit > 0 {
        forall user, from
          ensures MinuteHolds(limit, accepted, user, from)
        {
          NoMinuteExceeds(limit, accepted, checks, user, from);
        }
      }
    }
  }

  /** The user's acceptances from `from` to under a minute later stay within the limit. */
  predicate MinuteHolds(limit: nat, accepted: map<int, seq<int>>, user: int, from: int) {
    WindowHolds(Ones(Of(accepted, user)), MINUTE - 1, limit, from)
  }

  /** The latest reading a user was seen at, this one included. */
  function LatestOf(seen: map<int, int>, user: int, now: int): int {
    if user in seen then Later(seen[user], now) else now
  }

  /** One user's entry: what is retained counts the record, and with the new instant it is what the new
      record retains. */
  lemma Admitted(limit: nat, window: seq<int>, now: int, times: seq<int>, before: int)
    requires before - MINUTE < now && window == Retained(times, before)
    ensures var kept, ok := Retained(window, now), |Retained(window, now)| < limit;
            && (ok <==> CountFrom(times, Later(before, now) - MINUTE + 1) < limit)
            && kept + (if ok then [now] else []) == Retained(times + if ok then [now] else [], Later(before, now))
  {
    RetainedTwice(times, before, now);
    RetainedCounts(times, Later(before, now));
    RetainedSplit(times, [now], Later(before, now));
    assert Retained([now], Later(before, now)) == [now] by {
      assert [now][..0] == [];
    }
    assert times + [] == times;
  }

  /** Whoever the user, no minute of checked acceptances holds more than the limit. */
  lemma NoMinuteExceeds(limit: nat, accepted: map<int, seq<int>>, checks: map<int, seq<int>>, user: int, from: int)
    requires EveryUserLimited(limit, accepted, checks) && limit > 0
    ensures MinuteHolds(limit, accepted, user, from)
  {
    assert UserLimited(limit, accepted, checks, user);
    NoWindowExceeds(Ones(Of(accepted, user)), Of(checks, user), MINUTE - 1, limit, from);
  }
}
