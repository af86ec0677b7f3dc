/** The iteration budget (budget.rs). */
module Budget {
  const USIZE_MAX: nat := 0xFFFF_FFFF_FFFF_FFFF

  class IterationBudget {
    var remaining: nat
    var interrupted: bool
    const max: nat

    constructor (maxIterations: nat)
      ensures remaining == max == maxIterations && !interrupted
    {
      remaining, max, interrupted := maxIterations, maxIterations, false;
    }

    /** `fetch_sub` wraps at zero; the method then stores zero back. */
    method Decrement() returns (ok: bool)
      modifies this`remaining
      ensures ok <==> old(remaining) > 0
      ensures remaining == if old(remaining) > 0 then old(remaining) - 1 else 0
    {
      var prev := remaining;
      remaining := if prev == 0 then USIZE_MAX else prev - 1;
      if prev == 0 {
        remaining := 0;
        ok := false;
      } else {
        ok := true;
      }
    }

    method Interrupt()
      modifies this`interrupted
      ensures interrupted
    {
      interrupted := true;
    }

    method Reset()
      modifies this
      ensures remaining == max && !interrupted
    {
      remaining := max;
      interrupted := false;
    }

    method ShouldStop() returns (stop: bool)
      ensures stop <==> interrupted || remaining == 0
    {
      stop := interrupted || remaining == 0;
    }
  }
}
