/** Sliding windows over a log of timed charges. */
module Windows {
  /** A charge at an instant. */
  datatype Charge = Charge(at: int, cost: nat)

  predicate Ordered(log: seq<Charge>) {
    forall i, j :: 0 <= i < j < |log| ==> log[i].at <= log[j].at
  }

  /** Total cost of the charges at or after `from`. */
  function Since(log: seq<Charge>, from: int): nat {
    if |log| == 0 then 0
    else Since(log[..|log| - 1], from) + (if log[|log| - 1].at >= from then log[|log| - 1].cost else 0)
  }

  /** Total cost of the charges in the closed interval. */
  function Within(log: seq<Charge>, from: int, to: int): nat {
    if |log| == 0 then 0
    else Within(log[..|log| - 1], from, to) + (if from <= log[|log| - 1].at <= to then log[|log| - 1].cost else 0)
  }

  lemma {:induction false} WithinSince(log: seq<Charge>, from: int, to: int, start: int)
    requires start <= from
    ensures Within(log, from, to) <= Since(log, start)
  {
    if |log| > 0 {
      WithinSince(log[..|log| - 1], from, to, start);
    }
  }

  lemma {:induction false} SinceSplit(a: seq<Charge>, b: seq<Charge>, from: int)
    ensures Since(a + b, from) == Since(a, from) + Since(b, from)
  {
    if |b| == 0 {
      assert a + b == a;
    } else {
      assert (a + b)[..|a + b| - 1] == a + b[..|b| - 1];
      SinceSplit(a, b[..|b| - 1], from);
    }
  }

  lemma {:induction false} OldChargesDoNotCount(log: seq<Charge>, from: int)
    requires forall i :: 0 <= i < |log| ==> log[i].at < from
    ensures Since(log, from) == 0
  {
    if |log| > 0 {
      OldChargesDoNotCount(log[..|log| - 1], from);
    }
  }

  /** Charge `k` was made after a check that, at an instant no later, found room for it within `span`
      of that instant. */
  predicate RoomAt(log: seq<Charge>, checkedAt: seq<int>, span: nat, cap: nat, k: nat)
    requires k < |log| == |checkedAt|
  {
    checkedAt[k] <= log[k].at && Since(log[..k], checkedAt[k] - span) + log[k].cost <= cap
  }

  predicate Checked(log: seq<Charge>, checkedAt: seq<int>, span: nat, cap: nat) {
    |checkedAt| == |log| && forall k :: 0 <= k < |log| ==> RoomAt(log, checkedAt, span, cap, k)
  }

  lemma CheckedFront(log: seq<Charge>, checkedAt: seq<int>, span: nat, cap: nat)
    requires |log| > 0 && Checked(log, checkedAt, span, cap)
    ensures Checked(log[..|log| - 1], checkedAt[..|log| - 1], span, cap)
  {
    var n := |log| - 1;
    forall k | 0 <= k < n
      ensures RoomAt(log[..n], checkedAt[..n], span, cap, k)
    {
      assert RoomAt(log, checkedAt, span, cap, k);
      assert log[..n][..k] == log[..k];
    }
  }

  /** However the check and the charge are spaced, no closed interval of the span exceeds the cap. */
  lemma {:induction false} NoWindowExceeds(log: seq<Charge>, checkedAt: seq<int>, span: nat, cap: nat, from: int)
    requires Checked(log, checkedAt, span, cap)
    ensures Within(log, from, from + span) <= cap
  {
    if |log| > 0 {
      var k := |log| - 1;
      CheckedFront(log, checkedAt, span, cap);
      NoWindowExceeds(log[..k], checkedAt[..k], span, cap, from);
      if from <= log[k].at <= from + span {
        assert RoomAt(log, checkedAt, span, cap, k);
        WithinSince(log[..k], from, from + span, checkedAt[k] - span);
      }
    }
  }
}
