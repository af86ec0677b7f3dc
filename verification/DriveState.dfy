/** The drives and the idle counter as the program keeps them, updated in place. */
module DriveState {
  import opened Wrappers
  import opened Motivation
  import opened Text

  class MotivationState {
    var curiosity: real
    var competence: real
    var social: real
    var coherence: real
    var updatedAt: int
    var ticks: nat

    function Value(): Drives
      reads this
    {
      Drives(curiosity, competence, social, coherence)
    }

    constructor (now: int)
      ensures Value() == BASELINE && updatedAt == now && ticks == 0
    {
      curiosity, competence, social, coherence := 0.5, 0.5, 0.5, 0.5;
      updatedAt, ticks := now, 0;
    }

    method Set(d: Drive, v: real)
      modifies this`curiosity, this`competence, this`social, this`coherence
      ensures Value().Get(d) == Clamp(v)
      ensures forall o :: o != d ==> Value().Get(o) == old(Value()).Get(o)
    {
      match d
      case Curiosity => curiosity := Clamp(v);
      case Competence => competence := Clamp(v);
      case Social => social := Clamp(v);
      case Coherence => coherence := Clamp(v);
    }

    method Adjust(d: Drive, delta: real)
      modifies this`curiosity, this`competence, this`social, this`coherence
      ensures delta == 0.0 ==> Value() == old(Value())
      ensures delta != 0.0 ==> Value().Get(d) == Clamp(Nudged(old(Value()).Get(d), delta))
      ensures forall o :: o != d ==> Value().Get(o) == old(Value()).Get(o)
    {
      if delta == 0.0 {
        return;
      }
      var v := Value().Get(d);
      var room := if delta > 0.0 then 1.0 - v else v;
      var effective := delta * 2.0 * room;
      Set(d, v + effective);
    }

    method Record(e: Event, now: int)
      modifies this
      ensures Value() == Recorded(old(Value()), e) && updatedAt == now && ticks == old(ticks)
    {
      Adjust(Affects(e), Delta(e));
      SameDrives(Value(), Recorded(old(Value()), e));
      updatedAt := now;
    }

    /** Each drive in turn is pulled by the time since the last update. */
    method Decay(now: int)
      modifies this
      ensures Value() == Decayed(old(Value()), now - old(updatedAt))
      ensures updatedAt == if Seconds(now - old(updatedAt)) > 0 then now else old(updatedAt)
      ensures ticks == old(ticks) + if Seconds(now - old(updatedAt)) > 0 then 1 else 0
    {
      if Seconds(now - updatedAt) <= 0 {
        return;
      }
      var rate := Rate(now - updatedAt);
      ghost var was := Value();
      var order := [Curiosity, Competence, Social, Coherence];
      for k := 0 to 4
        invariant updatedAt == old(updatedAt) && ticks == old(ticks)
        invariant forall j :: 0 <= j < k ==> Value().Get(order[j]) == Clamp(Pulled(was.Get(order[j]), rate))
        invariant forall j :: k <= j < 4 ==> Value().Get(order[j]) == was.Get(order[j])
      {
        Set(order[k], Pulled(Value().Get(order[k]), rate));
      }
      assert Value().Get(order[0]) == Clamp(Pulled(was.Get(order[0]), rate));
      assert Value().Get(order[1]) == Clamp(Pulled(was.Get(order[1]), rate));
      assert Value().Get(order[2]) == Clamp(Pulled(was.Get(order[2]), rate));
      assert Value().Get(order[3]) == Clamp(Pulled(was.Get(order[3]), rate));
      updatedAt := now;
      ticks := ticks + 1;
    }
  }

  /** Equal drive by drive is equal. */
  lemma SameDrives(a: Drives, b: Drives)
    requires forall d :: a.Get(d) == b.Get(d)
    ensures a == b
  {
    assert a.Get(Curiosity) == b.Get(Curiosity) && a.Get(Competence) == b.Get(Competence);
    assert a.Get(Social) == b.Get(Social) && a.Get(Coherence) == b.Get(Coherence);
  }

  /** The part of the life loop that decides: drives decay on every tick that is not paused, and the
      idle counter moves only once the gates are open. */
  class Heartbeat {
    const motivation: MotivationState
    var stale: nat

    ghost function State(): Life
      reads this, motivation
    {
      Life(motivation.Value(), motivation.updatedAt, motivation.ticks, stale)
    }

    constructor (now: int)
      ensures fresh(motivation) && State() == Life(BASELINE, now, 0, 0)
    {
      motivation := new MotivationState(now);
      stale := 0;
    }

    method Tick(paused: bool, gatesOpen: bool, t: Reading) returns (action: Option<Action>)
      modifies this, motivation
      ensures paused ==> State() == old(State()) && action == None
      ensures !paused && !gatesOpen ==> action == None && stale == old(stale)
                                        && motivation.Value() == Decision(old(State()), t)
      ensures !paused && gatesOpen ==> (State() == Ticked(old(State()), t)
                                        && action == Suggested(Decision(old(State()), t)))
    {
      action := None;
      if paused {
        return;
      }
      motivation.Decay(t.decayAt);
      if !gatesOpen {
        return;
      }
      action := Suggested(motivation.Value());
      if action == None {
        stale := if stale < U32_MAX then stale + 1 else U32_MAX;
        if stale >= STALE_TICK_THRESHOLD {
          motivation.Record(StalePatterns, t.recordAt);
        }
        return;
      }
      stale := 0;
    }

    /** Idle ticks one after another are the run the results about `Before` speak of. */
    method IdleTicks(clock: nat -> Reading, n: nat) returns (actions: seq<Option<Action>>)
      modifies this, motivation
      ensures State() == Before(old(State()), clock, n)
      ensures actions == Decisions(old(State()), clock, n)
    {
      actions := [];
      ghost var start := State();
      for k := 0 to n
        invariant State() == Before(start, clock, k)
        invariant actions == Decisions(start, clock, k)
      {
        var action := Tick(false, true, clock(k));
        actions := actions + [action];
      }
    }
  }
}
