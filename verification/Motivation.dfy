/** The intrinsic drives (motivation.rs) and how idle ticks of the life loop move them (life_loop.rs).
    The 32-bit floats of the program are reals here. */
module Motivation {
  import opened Text
  import opened Wrappers

  datatype Drive = Curiosity | Competence | Social | Coherence

  datatype Event =
    | TaskSucceeded | TaskFailed | TaskEscalated | UserEngaged | UserRejected
    | NewToolUsed | StalePatterns | BehaviorCoherent | BehaviorIncoherent

  datatype Action = Explore | ReviewFailures | ProposeHelpful | ReviewBehavior

  datatype Drives = Drives(curiosity: real, competence: real, social: real, coherence: real) {
    function Get(d: Drive): real {
      match d
      case Curiosity => curiosity
      case Competence => competence
      case Social => social
      case Coherence => coherence
    }

    /** Every drive lies in the unit interval. */
    predicate InRange() {
      forall d: Drive :: 0.0 <= Get(d) <= 1.0
    }
  }

  const BASELINE := Drives(0.5, 0.5, 0.5, 0.5)

  function Clamp(v: real): real {
    if v < 0.0 then 0.0 else if v > 1.0 then 1.0 else v
  }

  function Affects(e: Event): Drive {
    match e
    case TaskSucceeded | TaskFailed | TaskEscalated => Competence
    case UserEngaged | UserRejected => Social
    case NewToolUsed | StalePatterns => Curiosity
    case BehaviorCoherent | BehaviorIncoherent => Coherence
  }

  function Delta(e: Event): real {
    match e
    case TaskSucceeded | UserEngaged => 0.05
    case TaskFailed | UserRejected | BehaviorIncoherent => -0.05
    case TaskEscalated => -0.03
    case NewToolUsed => -0.10
    case StalePatterns | BehaviorCoherent => 0.02
  }

  /** A damped nudge, before the clamp: the step shrinks with the room left in its direction. */
  function Nudged(v: real, delta: real): real {
    v + delta * 2.0 * (if delta > 0.0 then 1.0 - v else v)
  }

  /** A pull toward the centre, before the clamp. */
  function Pulled(v: real, rate: real): real {
    v + (0.5 - v) * (if rate < 1.0 then rate else 1.0)
  }

  function Recorded(m: Drives, e: Event): (r: Drives) {
    var d := Affects(e);
    var v := Clamp(Nudged(m.Get(d), Delta(e)));
    match d
    case Curiosity => m.(curiosity := v)
    case Competence => m.(competence := v)
    case Social => m.(social := v)
    case Coherence => m.(coherence := v)
  }

  const SECOND: nat := 1_000_000_000

  /** Whole seconds between two readings, toward zero. */
  function Seconds(d: int): int {
    if d >= 0 then d / SECOND else -((-d) / SECOND)
  }

  /** One percent an hour. */
  function Rate(elapsed: int): real {
    0.01 * (Seconds(elapsed) as real / 3600.0)
  }

  function Decayed(m: Drives, elapsed: int): Drives {
    if Seconds(elapsed) <= 0 then m
    else
      var r := Rate(elapsed);
      Drives(Clamp(Pulled(m.curiosity, r)), Clamp(Pulled(m.competence, r)),
             Clamp(Pulled(m.social, r)), Clamp(Pulled(m.coherence, r)))
  }

  function Suggested(m: Drives): Option<Action> {
    if m.curiosity > 0.70 then Some(Explore)
    else if m.competence < 0.30 then Some(ReviewFailures)
    else if m.social > 0.70 then Some(ProposeHelpful)
    else if m.coherence < 0.30 then Some(ReviewBehavior)
    else None
  }

  // What a nudge and a pull do.

  /** A nudge never needs the clamp, and never lands on an end it did not start from. */
  lemma NudgeStaysInside(v: real, e: Event)
    requires 0.0 <= v <= 1.0
    ensures Clamp(Nudged(v, Delta(e))) == Nudged(v, Delta(e))
    ensures 0.0 < v < 1.0 ==> 0.0 < Nudged(v, Delta(e)) < 1.0
    ensures Delta(e) > 0.0 ==> 1.0 - Nudged(v, Delta(e)) == (1.0 - v) * (1.0 - 2.0 * Delta(e))
    ensures Delta(e) < 0.0 ==> Nudged(v, Delta(e)) == v * (1.0 + 2.0 * Delta(e))
  {
  }

  /** A pull never needs the clamp and shrinks the distance to the centre without changing its sign. */
  lemma PullStaysOnItsSide(v: real, rate: real)
    requires 0.0 <= v <= 1.0 && 0.0 <= rate
    ensures Clamp(Pulled(v, rate)) == Pulled(v, rate)
    ensures v >= 0.5 ==> 0.5 <= Pulled(v, rate) <= v
    ensures v <= 0.5 ==> v <= Pulled(v, rate) <= 0.5
    ensures Pulled(v, rate) - 0.5 == (v - 0.5) * (1.0 - if rate < 1.0 then rate else 1.0)
  {
    var factor := 1.0 - if rate < 1.0 then rate else 1.0;
    var u := v - 0.5;
    PullIsProduct(v, rate, factor);
    if u >= 0.0 {
      Shrinks(u, factor);
    } else {
      Shrinks(-u, factor);
      Negated(u, factor);
    }
  }

  lemma PullIsProduct(v: real, rate: real, factor: real)
    requires factor == 1.0 - if rate < 1.0 then rate else 1.0
    ensures Pulled(v, rate) == 0.5 + (v - 0.5) * factor
  {
  }

  lemma Negated(u: real, factor: real)
    ensures u * factor == -((-u) * factor)
  {
  }

  lemma Shrinks(u: real, factor: real)
    requires u >= 0.0 && 0.0 <= factor <= 1.0
    ensures 0.0 <= u * factor <= u
  {
    assert u - u * factor == u * (1.0 - factor) >= 0.0;
  }

  /** What happens to the drives: an event, or time passing. */
  datatype Happening = Recording(event: Event) | Passing(elapsed: int)

  function Happens(m: Drives, h: Happening): Drives {
    match h
    case Recording(e) => Recorded(m, e)
    case Passing(elapsed) => Decayed(m, elapsed)
  }

  function AllHappen(m: Drives, hs: seq<Happening>): Drives {
    if |hs| == 0 then m else Happens(AllHappen(m, hs[..|hs| - 1]), hs[|hs| - 1])
  }

  /** The same without any clamp. */
  function HappensFreely(m: Drives, d: Drive, h: Happening): real {
    match h
    case Recording(e) => if Affects(e) == d then Nudged(m.Get(d), Delta(e)) else m.Get(d)
    case Passing(elapsed) => if Seconds(elapsed) <= 0 then m.Get(d) else Pulled(m.Get(d), Rate(elapsed))
  }

  lemma HappeningStaysInside(m: Drives, d: Drive, h: Happening)
    requires 0.0 <= m.Get(d) <= 1.0
    ensures Happens(m, h).Get(d) == HappensFreely(m, d, h)
    ensures 0.0 <= Happens(m, h).Get(d) <= 1.0
    ensures 0.0 < m.Get(d) < 1.0 ==> 0.0 < Happens(m, h).Get(d) < 1.0
  {
    match h
    case Recording(e) => NudgeStaysInside(m.Get(d), e);
    case Passing(elapsed) =>
      if Seconds(elapsed) > 0 {
        PullStaysOnItsSide(m.Get(d), Rate(elapsed));
      }
  }

  /** Over every history from a state in range, every drive stays in range with the clamp never
      acting; from the open interval it never reaches an end. */
  lemma {:induction false} EveryHistoryStaysInside(m: Drives, hs: seq<Happening>, d: Drive)
    requires 0.0 <= m.Get(d) <= 1.0
    ensures 0.0 <= AllHappen(m, hs).Get(d) <= 1.0
    ensures 0.0 < m.Get(d) < 1.0 ==> 0.0 < AllHappen(m, hs).Get(d) < 1.0
    ensures |hs| > 0 ==> AllHappen(m, hs).Get(d) == HappensFreely(AllHappen(m, hs[..|hs| - 1]), d, hs[|hs| - 1])
  {
    if |hs| > 0 {
      EveryHistoryStaysInside(m, hs[..|hs| - 1], d);
      HappeningStaysInside(AllHappen(m, hs[..|hs| - 1]), d, hs[|hs| - 1]);
    }
  }

  function Power(x: real, n: nat): real {
    if n == 0 then 1.0 else x * Power(x, n - 1)
  }

  function Times(m: Drives, e: Event, n: nat): Drives {
    if n == 0 then m else Recorded(Times(m, e, n - 1), e)
  }

  /** What is left in the direction an event moves its drive. */
  function Room(m: Drives, e: Event): real {
    if Delta(e) > 0.0 then 1.0 - m.Get(Affects(e)) else m.Get(Affects(e))
  }

  /** The share of that room one event leaves. */
  function Left(e: Event): real {
    1.0 - 2.0 * if Delta(e) > 0.0 then Delta(e) else -Delta(e)
  }

  lemma RecordedRoom(m: Drives, e: Event)
    requires m.InRange()
    ensures Room(Recorded(m, e), e) == Room(m, e) * Left(e)
    ensures Recorded(m, e).InRange()
  {
    NudgeStaysInside(m.Get(Affects(e)), e);
    forall d: Drive
      ensures 0.0 <= Recorded(m, e).Get(d) <= 1.0
    {
      assert d != Affects(e) ==> Recorded(m, e).Get(d) == m.Get(d);
    }
  }

  /** A geometric sequence. */
  function Shrunk(room: real, factor: real, n: nat): real {
    if n == 0 then room else Shrunk(room, factor, n - 1) * factor
  }

  lemma {:induction false} ShrunkIsPower(room: real, factor: real, n: nat)
    ensures Shrunk(room, factor, n) == room * Power(factor, n)
  {
    if n > 0 {
      ShrunkIsPower(room, factor, n - 1);
    }
  }

  /** Repeating an event is geometric: the room left in its direction is multiplied by one factor each
      time. */
  lemma {:induction false} RepeatedEventIsGeometric(m: Drives, e: Event, n: nat)
    requires m.InRange()
    ensures Times(m, e, n).InRange()
    ensures Room(Times(m, e, n), e) == Shrunk(Room(m, e), Left(e), n)
  {
    if n > 0 {
      RepeatedEventIsGeometric(m, e, n - 1);
      RecordedRoom(Times(m, e, n - 1), e);
    }
  }

  /** And the other drives stay put. */
  lemma {:induction false} OthersStay(m: Drives, e: Event, n: nat, d: Drive)
    requires d != Affects(e)
    ensures Times(m, e, n).Get(d) == m.Get(d)
  {
    if n > 0 {
      OthersStay(m, e, n - 1, d);
    }
  }

  /** Success, engagement, staleness and coherence raise their drive; failure, escalation, rejection,
      novelty and incoherence lower it. */
  predicate Raises(e: Event) {
    e.TaskSucceeded? || e.UserEngaged? || e.StalePatterns? || e.BehaviorCoherent?
  }

  /** The drive an event is about. */
  predicate IsAbout(e: Event, d: Drive) {
    match d
    case Competence => e.TaskSucceeded? || e.TaskFailed? || e.TaskEscalated?
    case Social => e.UserEngaged? || e.UserRejected?
    case Curiosity => e.NewToolUsed? || e.StalePatterns?
    case Coherence => e.BehaviorCoherent? || e.BehaviorIncoherent?
  }

  /** Which way every event moves every drive that is not at an end. */
  lemma EventsMove(m: Drives, e: Event, d: Drive)
    requires 0.0 < m.Get(d) < 1.0
    ensures IsAbout(e, d) && Raises(e) ==> Recorded(m, e).Get(d) > m.Get(d)
    ensures IsAbout(e, d) && !Raises(e) ==> Recorded(m, e).Get(d) < m.Get(d)
    ensures !IsAbout(e, d) ==> Recorded(m, e).Get(d) == m.Get(d)
  {
    if IsAbout(e, d) {
      assert d == Affects(e);
      NudgeStaysInside(m.Get(d), e);
      MovesBy(m.Get(d), Delta(e));
    }
  }

  lemma MovesBy(v: real, delta: real)
    requires 0.0 < v < 1.0 && delta != 0.0
    ensures delta > 0.0 ==> Nudged(v, delta) > v
    ensures delta < 0.0 ==> Nudged(v, delta) < v
  {
    if delta > 0.0 {
      assert delta * 2.0 * (1.0 - v) > 0.0;
    } else {
      assert (-delta) * 2.0 * v > 0.0;
    }
  }

  lemma {:induction false} ShrunkUnder(room: real, factor: real, n: nat)
    requires 0.0 <= room <= 1.0 && 0.0 <= factor <= 1.0
    ensures 0.0 <= Shrunk(room, factor, n) <= Shrunk(1.0, factor, n)
  {
    if n > 0 {
      ShrunkUnder(room, factor, n - 1);
      BothShrink(Shrunk(room, factor, n - 1), Shrunk(1.0, factor, n - 1), factor);
    }
  }

  predicate FallsAt(g: nat -> real, n: nat) { g(n + 1) <= g(n) }

  lemma {:induction false} Falls(g: nat -> real, n: nat, k: nat)
    requires k <= n && forall i: nat :: FallsAt(g, i)
    ensures g(n) <= g(k)
    decreases n
  {
    if k < n {
      Falls(g, n - 1, k);
      assert FallsAt(g, n - 1);
    }
  }

  lemma OneFall(factor: real, n: nat)
    requires 0.0 <= factor <= 1.0
    ensures Shrunk(1.0, factor, n + 1) <= Shrunk(1.0, factor, n)
  {
    ShrunkUnder(1.0, factor, n);
    Shrinks(Shrunk(1.0, factor, n), factor);
  }

  lemma ShrunkFalls(factor: real, n: nat, k: nat)
    requires 0.0 <= factor <= 1.0 && k <= n
    ensures Shrunk(1.0, factor, n) <= Shrunk(1.0, factor, k)
  {
    var g := (i: nat) => Shrunk(1.0, factor, i);
    forall i: nat
      ensures FallsAt(g, i)
    {
      OneFall(factor, i);
    }
    Falls(g, n, k);
  }

  lemma BothShrink(u: real, v: real, factor: real)
    requires 0.0 <= u <= v && 0.0 <= factor <= 1.0
    ensures 0.0 <= u * factor <= v * factor <= v
  {
    assert v * factor - u * factor == (v - u) * factor;
    Shrinks(v - u, factor);
    Shrinks(u, factor);
    Shrinks(v, factor);
  }

  lemma ThreeMore(n: nat)
    ensures Shrunk(1.0, 0.9, n + 3) == Shrunk(1.0, 0.9, n) * 0.729
  {
    assert Shrunk(1.0, 0.9, n + 1) == Shrunk(1.0, 0.9, n) * 0.9;
    assert Shrunk(1.0, 0.9, n + 2) == Shrunk(1.0, 0.9, n + 1) * 0.9;
  }

  lemma ThreeFewer(n: nat)
    ensures Shrunk(1.0, 0.96, n + 3) == Shrunk(1.0, 0.96, n) * 0.884736
  {
    assert Shrunk(1.0, 0.96, n + 1) == Shrunk(1.0, 0.96, n) * 0.96;
    assert Shrunk(1.0, 0.96, n + 2) == Shrunk(1.0, 0.96, n + 1) * 0.96;
  }

  /** Twelve times a tenth less, or thirty times four percent less, is under 0.30. */
  lemma EnoughRepeats()
    ensures Shrunk(1.0, 0.9, 12) < 0.30 && Shrunk(1.0, 0.96, 30) < 0.30
  {
    assert Shrunk(1.0, 0.9, 0) == 1.0 && Shrunk(1.0, 0.96, 0) == 1.0;
    ThreeMore(0);
    ThreeMore(3);
    ThreeMore(6);
    ThreeMore(9);
    ThreeFewer(0);
    ThreeFewer(3);
    ThreeFewer(6);
    ThreeFewer(9);
    ThreeFewer(12);
    ThreeFewer(15);
    ThreeFewer(18);
    ThreeFewer(21);
    ThreeFewer(24);
    ThreeFewer(27);
  }

  /** The events whose repetition calls for an action, and how often is enough from anywhere. */
  function Calls(e: Event): Option<(Action, nat)> {
    match e
    case StalePatterns => Some((Explore, 30))
    case TaskFailed => Some((ReviewFailures, 12))
    case UserEngaged => Some((ProposeHelpful, 12))
    case BehaviorIncoherent => Some((ReviewBehavior, 12))
    case _ => None
  }

  /** No drive calls for an action that goes before this event's. */
  predicate CalmBefore(m: Drives, e: Event) {
    && (e != StalePatterns ==> m.curiosity <= 0.70)
    && (e == UserEngaged || e == BehaviorIncoherent ==> m.competence >= 0.30)
    && (e == BehaviorIncoherent ==> m.social <= 0.70)
  }

  /** From any drives, enough of such an event in a row make its action the suggestion, unless one that
      goes before it already is. */
  lemma RepeatsCall(m: Drives, e: Event, n: nat)
    requires m.InRange() && Calls(e).Some? && n >= Calls(e).value.1 && CalmBefore(m, e)
    ensures Suggested(Times(m, e, n)) == Some(Calls(e).value.0)
  {
    RepeatsLeave(m, e, n);
    var after := Times(m, e, n);
    forall d: Drive | d != Affects(e)
      ensures after.Get(d) == m.Get(d)
    {
      OthersStay(m, e, n, d);
    }
    assert after.curiosity == after.Get(Curiosity) && after.competence == after.Get(Competence)
        && after.social == after.Get(Social) && after.coherence == after.Get(Coherence);
    assert m.curiosity == m.Get(Curiosity) && m.competence == m.Get(Competence) && m.social == m.Get(Social);
  }

  lemma RepeatsLeave(m: Drives, e: Event, n: nat)
    requires m.InRange() && Calls(e).Some? && n >= Calls(e).value.1
    ensures Room(Times(m, e, n), e) < 0.30
  {
    RepeatedEventIsGeometric(m, e, n);
    assert 0.0 <= m.Get(Affects(e)) <= 1.0;
    ShrunkUnder(Room(m, e), Left(e), n);
    ShrunkFalls(Left(e), n, Calls(e).value.1);
    EnoughRepeats();
  }

  /** From baseline the fifth failure in a row is the first to call for a review. */
  lemma FifthFailureCalls()
    ensures Suggested(Times(BASELINE, TaskFailed, 4)) == None
    ensures Suggested(Times(BASELINE, TaskFailed, 5)) == Some(ReviewFailures)
  {
    var one, two := Recorded(BASELINE, TaskFailed), Times(BASELINE, TaskFailed, 2);
    assert Times(BASELINE, TaskFailed, 0) == BASELINE && Times(BASELINE, TaskFailed, 1) == one;
    assert one == BASELINE.(competence := 0.45);
    assert two == BASELINE.(competence := 0.405);
    assert Times(BASELINE, TaskFailed, 3) == BASELINE.(competence := 0.3645);
    assert Times(BASELINE, TaskFailed, 4) == BASELINE.(competence := 0.32805);
    assert Times(BASELINE, TaskFailed, 5) == BASELINE.(competence := 0.295245);
  }

  // Idle ticks of the life loop.

  const STALE_TICK_THRESHOLD: nat := 3

  /** What the loop carries from tick to tick. */
  datatype Life = Life(drives: Drives, updatedAt: int, ticks: nat, stale: nat)

  /** The clock when a tick decays the drives and, later, when it may record. */
  datatype Reading = Reading(decayAt: int, recordAt: int)

  /** The drives a tick decides on. */
  function Decision(s: Life, t: Reading): Drives {
    Decayed(s.drives, t.decayAt - s.updatedAt)
  }

  /** A tick whose gates are open. */
  function Ticked(s: Life, t: Reading): Life {
    var m := Decision(s, t);
    var moved := Seconds(t.decayAt - s.updatedAt) > 0;
    var updatedAt := if moved then t.decayAt else s.updatedAt;
    var ticks := if moved then s.ticks + 1 else s.ticks;
    if Suggested(m).Some? then Life(m, updatedAt, ticks, 0)
    else
      var stale := if s.stale < U32_MAX then s.stale + 1 else U32_MAX;
      if stale >= STALE_TICK_THRESHOLD then Life(Recorded(m, StalePatterns), t.recordAt, ticks, stale)
      else Life(m, updatedAt, ticks, stale)
  }

  /** The state before tick `n`, counted from zero. */
  function Before(start: Life, clock: nat -> Reading, n: nat): Life {
    if n == 0 then start else Ticked(Before(start, clock, n - 1), clock(n - 1))
  }

  /** What tick `n` decides. */
  function Decides(start: Life, clock: nat -> Reading, n: nat): Option<Action> {
    Suggested(Decision(Before(start, clock, n), clock(n)))
  }

  /** What the first `n` ticks decide. */
  function Decisions(start: Life, clock: nat -> Reading, n: nat): seq<Option<Action>> {
    if n == 0 then [] else Decisions(start, clock, n - 1) + [Decides(start, clock, n - 1)]
  }

  /** Ticks from baseline: no drive has moved and no tick has been idle yet. */
  predicate FromBaseline(start: Life) {
    start.drives == BASELINE && start.stale == 0
  }

  /** The whole seconds of decay that tick `n`'s decision takes off the last nudge. */
  function Gap(clock: nat -> Reading, n: nat): int
    requires n > 0
  {
    Seconds(clock(n).decayAt - clock(n - 1).recordAt)
  }

  ghost predicate GapsAtMost(clock: nat -> Reading, seconds: int) {
    forall n: nat :: n > 0 ==> Gap(clock, n) <= seconds
  }

  ghost predicate GapsAtLeast(clock: nat -> Reading, seconds: int) {
    forall n: nat :: n > 0 ==> Gap(clock, n) >= seconds
  }

  /** The curiosity a tick decides on. */
  function Level(start: Life, clock: nat -> Reading, n: nat): real {
    Decision(Before(start, clock, n), clock(n)).curiosity
  }

  /** Only curiosity moves, and it starts to after two idle ticks. */
  predicate Idle(s: Life, clock: nat -> Reading, n: nat) {
    && s.stale == (if n < U32_MAX then n else U32_MAX)
    && s.drives == BASELINE.(curiosity := s.drives.curiosity)
    && 0.5 <= s.drives.curiosity <= 1.0
    && (n < STALE_TICK_THRESHOLD ==> s.drives.curiosity == 0.5)
    && (n >= STALE_TICK_THRESHOLD ==> s.updatedAt == clock(n - 1).recordAt)
  }

  lemma IdleDecision(s: Life, clock: nat -> Reading, n: nat)
    requires Idle(s, clock, n)
    ensures var m := Decision(s, clock(n));
            && m == BASELINE.(curiosity := m.curiosity)
            && 0.5 <= m.curiosity <= s.drives.curiosity
            && (Suggested(m) == if m.curiosity > 0.70 then Some(Explore) else None)
  {
    var elapsed := clock(n).decayAt - s.updatedAt;
    if Seconds(elapsed) > 0 {
      PullStaysOnItsSide(s.drives.curiosity, Rate(elapsed));
    }
  }

  lemma IdleStep(s: Life, clock: nat -> Reading, n: nat)
    requires Idle(s, clock, n) && Decision(s, clock(n)).curiosity <= 0.70
    ensures Idle(Ticked(s, clock(n)), clock, n + 1)
    ensures Ticked(s, clock(n)).drives.curiosity - 0.5
         == (if n < 2 then 0.0 else 0.96 * (Decision(s, clock(n)).curiosity - 0.5) + 0.02)
  {
    IdleDecision(s, clock, n);
    NudgeStaysInside(Decision(s, clock(n)).curiosity, StalePatterns);
  }

  /** Until the first Explore every tick is idle. */
  lemma {:induction false} IdleUntil(start: Life, clock: nat -> Reading, n: nat)
    requires FromBaseline(start)
    requires forall k :: 0 <= k < n ==> Level(start, clock, k) <= 0.70
    ensures Idle(Before(start, clock, n), clock, n)
    ensures Decides(start, clock, n) == if Level(start, clock, n) > 0.70 then Some(Explore) else None
  {
    if n > 0 {
      IdleUntil(start, clock, n - 1);
      assert Level(start, clock, n - 1) <= 0.70;
      IdleStep(Before(start, clock, n - 1), clock, n - 1);
    }
    IdleDecision(Before(start, clock, n), clock, n);
  }

  function Factor(gap: int): real {
    var rate := if gap <= 0 then 0.0 else 0.01 * (gap as real / 3600.0);
    1.0 - if rate < 1.0 then rate else 1.0
  }

  /** A decision sees the drive pulled by the gap. */
  lemma DecisionLevel(s: Life, clock: nat -> Reading, n: nat)
    requires Idle(s, clock, n) && n >= STALE_TICK_THRESHOLD
    ensures Decision(s, clock(n)).curiosity - 0.5 == (s.drives.curiosity - 0.5) * Factor(Gap(clock, n))
  {
    var gap := Gap(clock, n);
    if gap > 0 {
      PullStaysOnItsSide(s.drives.curiosity, 0.01 * (gap as real / 3600.0));
    }
  }

  /** A nudged level, decayed over the gap. */
  lemma LevelFrom(after: Life, clock: nat -> Reading, n: nat, level: real)
    requires n >= STALE_TICK_THRESHOLD && Idle(after, clock, n) && after.drives.curiosity == 0.5 + Nudge(level)
    ensures Decision(after, clock(n)).curiosity == Next(level, Factor(Gap(clock, n)))
  {
    DecisionLevel(after, clock, n);
  }

  /** From one decision to the next: a nudge, then the decay of the gap. */
  lemma LevelStep(s: Life, clock: nat -> Reading, n: nat)
    requires n >= 3 && Idle(s, clock, n - 1) && Decision(s, clock(n - 1)).curiosity <= 0.70
    ensures Decision(Ticked(s, clock(n - 1)), clock(n)).curiosity
         == Next(Decision(s, clock(n - 1)).curiosity, Factor(Gap(clock, n)))
  {
    IdleStep(s, clock, n - 1);
    LevelFrom(Ticked(s, clock(n - 1)), clock, n, Decision(s, clock(n - 1)).curiosity);
  }

  /** How far above the centre a nudge takes a level. */
  function Nudge(level: real): real {
    0.96 * (level - 0.5) + 0.02
  }

  function Next(level: real, factor: real): real {
    0.5 + Nudge(level) * factor
  }

  /** No tick before `n` saw enough curiosity to explore. */
  ghost predicate QuietBefore(start: Life, clock: nat -> Reading, n: nat) {
    forall k: nat :: k < n ==> Level(start, clock, k) <= 0.70
  }

  lemma LevelChain(start: Life, clock: nat -> Reading, n: nat)
    requires FromBaseline(start) && n >= 3 && QuietBefore(start, clock, n)
    ensures Level(start, clock, n) == Next(Level(start, clock, n - 1), Factor(Gap(clock, n)))
    ensures Level(start, clock, n - 1) >= 0.5
  {
    IdleUntil(start, clock, n - 1);
    assert Level(start, clock, n - 1) <= 0.70;
    IdleDecision(Before(start, clock, n - 1), clock, n - 1);
    LevelStep(Before(start, clock, n - 1), clock, n);
  }

  /** The first three ticks decide on the baseline. */
  lemma FirstLevels(start: Life, clock: nat -> Reading, n: nat)
    requires FromBaseline(start) && n <= 2
    ensures Level(start, clock, n) == 0.5
  {
    forall k: nat | k < n
      ensures Level(start, clock, k) <= 0.70
    {
      FirstLevels(start, clock, k);
    }
    IdleUntil(start, clock, n);
    IdleDecision(Before(start, clock, n), clock, n);
  }

  // Where the levels go, on plain numbers.

  lemma Larger(n: real, a: real, b: real)
    requires n >= 0.0 && a <= b
    ensures n * a <= n * b
  {
    assert n * b - n * a == n * (b - a) >= 0.0;
  }

  lemma NextGrows(level: real, a: real, b: real)
    requires 0.5 <= level && a <= b
    ensures Next(level, a) <= Next(level, b)
  {
    Larger(Nudge(level), a, b);
  }

  /** Gaps of 1080000/53 seconds or more take back all that a nudge gives. */
  lemma LongGapHolds(level: real, gap: int)
    requires 0.5 <= level <= 0.70 && 53 * gap >= 1_080_000
    ensures Next(level, Factor(gap)) <= 0.70
  {
    assert gap as real >= 1_080_000.0 / 53.0;
    assert Factor(gap) <= 50.0 / 53.0;
    NextGrows(level, Factor(gap), 50.0 / 53.0);
  }

  /** What every shorter gap gains at least. */
  function Gain(seconds: nat): real {
    0.012 - 0.212 * (seconds as real / 360_000.0)
  }

  lemma ShortGapGains(level: real, gap: int, most: nat)
    requires 0.5 <= level <= 0.70 && gap <= most && 53 * most < 1_080_000
    ensures Next(level, Factor(gap)) >= level + Gain(most)
    ensures Gain(most) > 0.0
  {
    var r := most as real / 360_000.0;
    assert Factor(gap) >= 1.0 - r;
    NextGrows(level, 1.0 - r, Factor(gap));
    DecayedNudge(level - 0.5, r);
  }

  lemma DecayedNudge(above: real, r: real)
    requires 0.0 <= above <= 0.2 && 0.0 <= r
    ensures Next(above + 0.5, 1.0 - r) >= above + 0.5 + 0.012 - 0.212 * r
  {
    Larger(r, above, 0.2);
    assert Nudge(above + 0.5) * (1.0 - r) == Nudge(above + 0.5) - 0.96 * (r * above) - 0.02 * r;
  }

  /** The highest and, for gaps up to 300 seconds, the lowest a level can be after `n` nudges. */
  function Highest(n: nat): real {
    if n == 0 then 0.5 else 0.5 + Nudge(Highest(n - 1))
  }

  function Lowest(n: nat): real {
    if n == 0 then 0.5 else 0.5 + Nudge(Lowest(n - 1)) * (1199.0 / 1200.0)
  }

  lemma BetweenStep(level: real, gap: int, n: nat)
    requires 0.5 <= Lowest(n) <= level <= Highest(n) && gap <= 300
    ensures 0.5 <= Lowest(n + 1) <= Next(level, Factor(gap)) <= Highest(n + 1)
  {
    assert 1199.0 / 1200.0 <= Factor(gap) <= 1.0;
    NextGrows(level, 1199.0 / 1200.0, Factor(gap));
    NextGrows(level, Factor(gap), 1.0);
  }

  // The three results about idle ticks.

  /** Long gaps: curiosity never gets there. */
  lemma {:induction false} LongGapsStayQuiet(start: Life, clock: nat -> Reading, seconds: int, n: nat)
    requires FromBaseline(start) && GapsAtLeast(clock, seconds) && 53 * seconds >= 1_080_000
    ensures QuietBefore(start, clock, n)
  {
    if n > 0 {
      LongGapsStayQuiet(start, clock, seconds, n - 1);
      if n <= 3 {
        FirstLevels(start, clock, n - 1);
      } else {
        LevelChain(start, clock, n - 1);
        assert Level(start, clock, n - 2) <= 0.70;
        LongGapHolds(Level(start, clock, n - 2), Gap(clock, n - 1));
      }
    }
  }

  lemma {:induction false} ShortGapsClimb(start: Life, clock: nat -> Reading, seconds: nat, n: nat)
    requires FromBaseline(start) && GapsAtMost(clock, seconds) && 53 * seconds < 1_080_000
    requires n >= 2 && QuietBefore(start, clock, n)
    ensures Level(start, clock, n) >= 0.5 + Climbed(Gain(seconds), n - 2)
  {
    if n == 2 {
      FirstLevels(start, clock, 2);
    } else {
      ShortGapsClimb(start, clock, seconds, n - 1);
      LevelChain(start, clock, n);
      assert Level(start, clock, n - 1) <= 0.70;
      ShortGapGains(Level(start, clock, n - 1), Gap(clock, n), seconds);
    }
  }

  function Climbed(gain: real, n: nat): real {
    if n == 0 then 0.0 else Climbed(gain, n - 1) + gain
  }

  lemma {:induction false} ClimbedIs(gain: real, n: nat)
    ensures Climbed(gain, n) == n as real * gain
  {
    if n > 0 {
      ClimbedIs(gain, n - 1);
      assert n as real * gain == (n - 1) as real * gain + gain;
    }
  }

  /** Enough ticks of a positive gain exceed any height. */
  lemma Enough(gain: real) returns (n: nat)
    requires gain > 0.0
    ensures Climbed(gain, n) > 0.2
  {
    var q := 0.2 / gain;
    n := q.Floor + 1;
    Product(q, gain);
    Product(n as real - q, gain);
    ClimbedIs(gain, n);
    assert n as real * gain == q * gain + (n as real - q) * gain;
  }

  lemma Product(a: real, b: real)
    requires b > 0.0
    ensures a > 0.0 ==> a * b > 0.0
    ensures a == 0.2 / b ==> a * b == 0.2
  {
  }

  /** Short gaps: some tick explores, and no tick before it does anything. */
  lemma ShortGapsExplore(start: Life, clock: nat -> Reading, seconds: nat) returns (n: nat)
    requires FromBaseline(start) && GapsAtMost(clock, seconds) && 53 * seconds < 1_080_000
    ensures Decides(start, clock, n) == Some(Explore)
    ensures forall k: nat :: k < n ==> Decides(start, clock, k) == None
  {
    ShortGapGains(0.5, seconds, seconds);
    var enough := Enough(Gain(seconds));
    n := 0;
    while Level(start, clock, n) <= 0.70
      invariant QuietBefore(start, clock, n) && n <= enough + 2
      invariant forall k: nat :: k < n ==> Decides(start, clock, k) == None
      decreases enough + 3 - n
    {
      IdleUntil(start, clock, n);
      if n >= 2 {
        ShortGapsClimb(start, clock, seconds, n);
        assert n < enough + 2;
      }
      n := n + 1;
    }
    IdleUntil(start, clock, n);
  }

  /** For a constant gap, idle ticks from baseline ever lead to a proposal to explore exactly when the
      gap is under 1080000/53 seconds, about 5.66 hours: the decision is made after the decay. */
  lemma ExploreIsReachedIff(start: Life, clock: nat -> Reading, seconds: nat)
    requires FromBaseline(start) && forall n: nat :: n > 0 ==> Gap(clock, n) == seconds
    ensures (exists n: nat :: Decides(start, clock, n) == Some(Explore)) <==> 53 * seconds < 1_080_000
  {
    if 53 * seconds < 1_080_000 {
      var n := ShortGapsExplore(start, clock, seconds);
    } else {
      forall n: nat
        ensures Decides(start, clock, n) != Some(Explore)
      {
        LongGapsStayQuiet(start, clock, seconds, n + 1);
        IdleUntil(start, clock, n);
        assert Level(start, clock, n) <= 0.70;
      }
    }
  }

  lemma {:induction false} LevelsBetween(start: Life, clock: nat -> Reading, n: nat)
    requires FromBaseline(start) && GapsAtMost(clock, 300)
    requires n >= 2 && QuietBefore(start, clock, n)
    ensures 0.5 <= Lowest(n - 2) <= Level(start, clock, n) <= Highest(n - 2)
  {
    if n == 2 {
      FirstLevels(start, clock, 2);
    } else {
      LevelsBetween(start, clock, n - 1);
      LevelChain(start, clock, n);
      BetweenStep(Level(start, clock, n - 1), Gap(clock, n), n - 3);
    }
  }

  lemma {:induction false} HighestGrows(n: nat)
    ensures 0.5 <= Highest(n) <= Highest(n + 1) <= 1.0
  {
    if n > 0 {
      HighestGrows(n - 1);
    }
  }

  lemma {:induction false} HighestAtMost(n: nat)
    requires n <= 12
    ensures Highest(n) <= 0.70
    decreases 12 - n
  {
    if n < 12 {
      HighestAtMost(n + 1);
      HighestGrows(n);
    } else {
      TwelveNudges();
    }
  }

  /** Twelve nudges are too few even without decay; thirteen are enough at five-minute gaps. */
  lemma TwelveNudges()
    ensures Highest(12) < 0.70 < Lowest(13)
  {
    assert Highest(6) < 0.60864;
    assert Lowest(6) > 0.6078;
    assert Lowest(10) > 0.6662;
  }

  /** One of the first fifteen ticks. */
  lemma EarlyTickQuiet(start: Life, clock: nat -> Reading, n: nat)
    requires FromBaseline(start) && GapsAtMost(clock, 300) && n < 15 && QuietBefore(start, clock, n)
    ensures Level(start, clock, n) <= 0.70 && Decides(start, clock, n) == None
  {
    if n <= 2 {
      FirstLevels(start, clock, n);
    } else {
      LevelsBetween(start, clock, n);
      HighestAtMost(n - 2);
    }
    IdleUntil(start, clock, n);
  }

  /** With gaps of up to 300 seconds, however they vary, the sixteenth idle tick from baseline is the
      first to explore. */
  lemma SixteenthTickExplores(start: Life, clock: nat -> Reading)
    requires FromBaseline(start) && GapsAtMost(clock, 300)
    ensures Decides(start, clock, 15) == Some(Explore)
    ensures forall k: nat :: k < 15 ==> Decides(start, clock, k) == None
  {
    var n := 0;
    while n < 15
      invariant n <= 15 && QuietBefore(start, clock, n)
      invariant forall k: nat :: k < n ==> Decides(start, clock, k) == None
    {
      EarlyTickQuiet(start, clock, n);
      n := n + 1;
    }
    SixteenthDecides(start, clock);
  }

  lemma SixteenthDecides(start: Life, clock: nat -> Reading)
    requires FromBaseline(start) && GapsAtMost(clock, 300) && QuietBefore(start, clock, 15)
    ensures Decides(start, clock, 15) == Some(Explore)
  {
    LevelsBetween(start, clock, 15);
    TwelveNudges();
    IdleUntil(start, clock, 15);
  }
}
