/** Quotients and remainders. */
module Division {
  lemma DivMod(n: nat, d: nat)
    requires d > 0
    ensures n == (n / d) * d + n % d && n % d < d
  {
  }

  lemma AtLeast(q: int, d: nat)
    requires q >= 1
    ensures q * d >= d
  {
  }

  /** There is one quotient and one remainder. */
  lemma DivModUnique(n: nat, d: nat, q: nat, r: nat)
    requires r < d && n == q * d + r
    ensures n / d == q && n % d == r
  {
    DivMod(n, d);
    var diff := n / d - q;
    assert diff * d == (n / d) * d - q * d;
    assert diff * d == r - n % d;
    if diff >= 1 {
      AtLeast(diff, d);
    } else if diff <= -1 {
      AtLeast(-diff, d);
    }
  }

  /** A row of a grid ends before the next begins. */
  lemma RowWithin(y: nat, h: nat, w: nat)
    ensures y < h ==> y * w + w <= h * w
    ensures y >= h ==> y * w >= h * w
  {
    if y < h {
      assert h * w - y * w == (h - y) * w;
      AtLeast(h - y, w);
    } else if y > h {
      assert y * w - h * w == (y - h) * w;
      AtLeast(y - h, w);
    }
  }
}
