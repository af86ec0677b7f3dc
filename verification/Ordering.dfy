/** What `ORDER BY key` may return: any sorted permutation, ties in any order. */
module Ordering {
  predicate Sorted<T>(s: seq<T>, key: T -> int) {
    forall i, j :: 0 <= i < j < |s| ==> key(s[i]) <= key(s[j])
  }

  predicate StrictlyIncreasing<T>(s: seq<T>, key: T -> int) {
    forall i, j :: 0 <= i < j < |s| ==> key(s[i]) < key(s[j])
  }

  predicate Distinct<T(==)>(s: seq<T>) {
    forall i, j :: 0 <= i < j < |s| ==> s[i] != s[j]
  }

  /** `answer` is one of the orders in which `s` may come back. */
  predicate Orders<T(==)>(s: seq<T>, key: T -> int, answer: seq<T>) {
    multiset(answer) == multiset(s) && Sorted(answer, key)
  }

  lemma HeadAndRest<T>(s: seq<T>)
    requires |s| > 0
    ensures multiset(s) == multiset{s[0]} + multiset(s[1..])
  {
    assert s == [s[0]] + s[1..];
  }

  lemma SameHead<T>(a: seq<T>, b: seq<T>, key: T -> int)
    requires |a| > 0 && StrictlyIncreasing(a, key) && Orders(a, key, b)
    ensures |b| > 0 && a[0] == b[0]
  {
    assert a[0] in multiset(b);
    var k :| 0 <= k < |b| && b[k] == a[0];
    assert b[0] in multiset(a);
    var j :| 0 <= j < |a| && a[j] == b[0];
  }

  lemma RestOrders<T>(a: seq<T>, b: seq<T>, key: T -> int)
    requires |a| > 0 && |b| > 0 && a[0] == b[0] && Orders(a, key, b)
    ensures Orders(a[1..], key, b[1..])
  {
    HeadAndRest(a);
    HeadAndRest(b);
    assert multiset(a[1..]) == multiset(a) - multiset{a[0]};
    assert multiset(b[1..]) == multiset(b) - multiset{b[0]};
  }

  lemma SameLength<T>(a: seq<T>, b: seq<T>)
    requires multiset(a) == multiset(b)
    ensures |a| == |b|
  {
    assert |multiset(a)| == |a|;
  }

  lemma {:induction false} SortedPermutationUnique<T>(a: seq<T>, b: seq<T>, key: T -> int)
    requires StrictlyIncreasing(a, key) && Orders(a, key, b)
    ensures a == b
  {
    SameLength(a, b);
    if |a| > 0 {
      SameHead(a, b, key);
      RestOrders(a, b, key);
      SortedPermutationUnique(a[1..], b[1..], key);
      assert a == [a[0]] + a[1..] && b == [b[0]] + b[1..];
    }
  }

  lemma {:induction false} Slot<T>(s: seq<T>, key: T -> int, at: int) returns (p: nat)
    requires Sorted(s, key)
    ensures p <= |s|
    ensures forall i :: 0 <= i < p ==> key(s[i]) < at
    ensures forall i :: p <= i < |s| ==> at <= key(s[i])
  {
    p := 0;
    while p < |s| && key(s[p]) < at
      invariant p <= |s|
      invariant forall i :: 0 <= i < p ==> key(s[i]) < at
    {
      p := p + 1;
    }
  }

  lemma Insert<T>(s: seq<T>, key: T -> int, x: T) returns (grown: seq<T>)
    requires Sorted(s, key)
    ensures Sorted(grown, key) && multiset(grown) == multiset{x} + multiset(s)
  {
    var p := Slot(s, key, key(x));
    grown := s[..p] + [x] + s[p..];
    assert multiset(grown) == multiset{x} + multiset(s) by {
      assert s == s[..p] + s[p..];
    }
  }

  lemma {:induction false} SortedPermutationExists<T>(s: seq<T>, key: T -> int) returns (sorted: seq<T>)
    ensures Orders(s, key, sorted)
  {
    if |s| == 0 {
      return [];
    }
    var rest := SortedPermutationExists(s[1..], key);
    HeadAndRest(s);
    sorted := Insert(rest, key, s[0]);
  }

  lemma SwapMultiset<T>(a: seq<T>, x: T, y: T, b: seq<T>)
    ensures multiset(a + [x, y] + b) == multiset(a + [y, x] + b)
  {
  }

  lemma SwapTie<T>(s: seq<T>, key: T -> int, i: nat) returns (other: seq<T>)
    requires Distinct(s) && Sorted(s, key) && i + 1 < |s| && key(s[i]) == key(s[i + 1])
    ensures Orders(s, key, other) && other != s
  {
    other := s[i := s[i + 1]][i + 1 := s[i]];
    assert other[i] != s[i];
    SwapMultiset(s[..i], s[i], s[i + 1], s[i + 2..]);
    assert s == s[..i] + [s[i], s[i + 1]] + s[i + 2..];
    assert other == s[..i] + [s[i + 1], s[i]] + s[i + 2..];
  }

  /** The answer is the stored order, whatever happens to ties, exactly when the keys strictly increase. */
  lemma StoredOrderForced<T(!new)>(s: seq<T>, key: T -> int)
    requires Distinct(s)
    ensures (forall answer :: Orders(s, key, answer) ==> answer == s) <==> StrictlyIncreasing(s, key)
  {
    if StrictlyIncreasing(s, key) {
      forall answer | Orders(s, key, answer)
        ensures answer == s
      {
        SortedPermutationUnique(s, answer, key);
      }
    } else if !Sorted(s, key) {
      var other := SortedPermutationExists(s, key);
      assert Orders(s, key, other);
    } else {
      var i, q :| 0 <= i < q < |s| && key(s[i]) >= key(s[q]);
      assert key(s[i]) <= key(s[i + 1]);
      assert i + 1 < q ==> key(s[i + 1]) <= key(s[q]);
      var other := SwapTie(s, key, i);
      assert Orders(s, key, other);
    }
  }
}
