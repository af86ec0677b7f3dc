/** Rotating captured pixels by quarter turns (display.rs). */
module Rotation {
  import opened Division

  newtype byte = n: int | 0 <= n < 256

  datatype Turn = R0 | R90 | R180 | R270 {
    function Quarters(): (q: nat)
      ensures q < 4
    {
      match this
      case R0 => 0
      case R90 => 1
      case R180 => 2
      case R270 => 3
    }

    function Degrees(): nat {
      match this
      case R0 => 0
      case R90 => 90
      case R180 => 180
      case R270 => 270
    }
  }

  function OfQuarters(q: nat): (t: Turn)
    requires q < 4
    ensures t.Quarters() == q
  {
    if q == 0 then R0 else if q == 1 then R90 else if q == 2 then R180 else R270
  }

  /** The four turns add up modulo a full one. */
  function Plus(a: Turn, b: Turn): (c: Turn)
    ensures c.Quarters() == (a.Quarters() + b.Quarters()) % 4
  {
    var q := a.Quarters() + b.Quarters();
    OfQuarters(if q < 4 then q else q - 4)
  }

  function Inverse(t: Turn): Turn {
    match t
    case R0 => R0
    case R90 => R270
    case R180 => R180
    case R270 => R90
  }

  // Where pixels go.

  /** A pixel count. */
  function Area(w: nat, h: nat): nat { w * h }

  function OutWidth(t: Turn, w: nat, h: nat): nat { if t == R0 || t == R180 then w else h }

  function OutHeight(t: Turn, w: nat, h: nat): nat { if t == R0 || t == R180 then h else w }

  /** The new place of the pixel at column `x` and row `y`. */
  function MovedX(t: Turn, w: nat, h: nat, x: nat, y: nat): nat
    requires x < w && y < h
  {
    match t
    case R0 => x
    case R90 => h - 1 - y
    case R180 => w - 1 - x
    case R270 => y
  }

  function MovedY(t: Turn, w: nat, h: nat, x: nat, y: nat): nat
    requires x < w && y < h
  {
    match t
    case R0 => y
    case R90 => x
    case R180 => h - 1 - y
    case R270 => w - 1 - x
  }

  /** Raster order: the place of a pixel in the buffer. */
  function At(w: nat, x: nat, y: nat): nat { y * w + x }

  lemma AtWithin(w: nat, h: nat, x: nat, y: nat)
    requires x < w && y < h
    ensures At(w, x, y) < Area(w, h)
  {
    RowWithin(y, h, w);
  }

  /** Column and row of a place. */
  lemma PlaceOf(w: nat, x: nat, y: nat)
    requires x < w
    ensures At(w, x, y) % w == x && At(w, x, y) / w == y
  {
    DivModUnique(At(w, x, y), w, y, x);
  }

  lemma PlaceWithin(w: nat, h: nat, s: nat)
    requires s < Area(w, h)
    ensures w > 0 && s % w < w && s / w < h && At(w, s % w, s / w) == s
  {
    if w > 0 {
      DivMod(s, w);
      RowWithin(s / w, h, w);
    }
  }

  /** The new place of the pixel at place `s`. */
  function Dest(t: Turn, w: nat, h: nat, s: nat): (d: nat)
    requires s < Area(w, h)
    ensures d < Area(OutWidth(t, w, h), OutHeight(t, w, h))
  {
    PlaceWithin(w, h, s);
    var x, y := s % w, s / w;
    AtWithin(OutWidth(t, w, h), OutHeight(t, w, h), MovedX(t, w, h, x, y), MovedY(t, w, h, x, y));
    At(OutWidth(t, w, h), MovedX(t, w, h, x, y), MovedY(t, w, h, x, y))
  }

  lemma OutArea(t: Turn, w: nat, h: nat)
    ensures Area(OutWidth(t, w, h), OutHeight(t, w, h)) == Area(w, h)
  {
  }

  lemma MovedAdds(a: Turn, b: Turn, w: nat, h: nat, x: nat, y: nat)
    requires x < w && y < h
    ensures var w', h' := OutWidth(a, w, h), OutHeight(a, w, h);
            var x', y' := MovedX(a, w, h, x, y), MovedY(a, w, h, x, y);
            && x' < w' && y' < h'
            && OutWidth(b, w', h') == OutWidth(Plus(a, b), w, h) && OutHeight(b, w', h') == OutHeight(Plus(a, b), w, h)
            && MovedX(b, w', h', x', y') == MovedX(Plus(a, b), w, h, x, y)
            && MovedY(b, w', h', x', y') == MovedY(Plus(a, b), w, h, x, y)
  {
  }

  /** Turning twice moves a pixel where the sum of the turns does. */
  lemma DestAdds(a: Turn, b: Turn, w: nat, h: nat, s: nat)
    requires s < Area(w, h)
    ensures Dest(b, OutWidth(a, w, h), OutHeight(a, w, h), Dest(a, w, h, s)) == Dest(Plus(a, b), w, h, s)
  {
    PlaceWithin(w, h, s);
    var x, y := s % w, s / w;
    PlaceOf(OutWidth(a, w, h), MovedX(a, w, h, x, y), MovedY(a, w, h, x, y));
    MovedAdds(a, b, w, h, x, y);
  }

  lemma DestOfR0(w: nat, h: nat, s: nat)
    requires s < Area(w, h)
    ensures Dest(R0, w, h, s) == s
  {
    PlaceWithin(w, h, s);
  }

  /** The place the pixel at place `p` of the turned buffer comes from. */
  function Source(t: Turn, w: nat, h: nat, p: nat): (s: nat)
    requires p < Area(w, h)
    ensures s < Area(w, h)
  {
    OutArea(t, w, h);
    var outW, outH := OutWidth(t, w, h), OutHeight(t, w, h);
    OutArea(Inverse(t), outW, outH);
    Dest(Inverse(t), outW, outH, p)
  }

  /** A turn and its inverse bring every pixel back. */
  lemma DestBack(a: Turn, b: Turn, w: nat, h: nat, s: nat)
    requires s < Area(w, h) && Plus(a, b) == R0
    ensures Dest(b, OutWidth(a, w, h), OutHeight(a, w, h), Dest(a, w, h, s)) == s
  {
    DestAdds(a, b, w, h, s);
    DestOfR0(w, h, s);
  }

  lemma TurnsBack(t: Turn, w: nat, h: nat)
    ensures Plus(t, Inverse(t)) == R0 && Plus(Inverse(t), t) == R0
    ensures OutWidth(Inverse(t), OutWidth(t, w, h), OutHeight(t, w, h)) == w
    ensures OutHeight(Inverse(t), OutWidth(t, w, h), OutHeight(t, w, h)) == h
  {
  }

  /** Every pixel goes to exactly one place, and every place is filled from exactly one. */
  lemma DestIsBijective(t: Turn, w: nat, h: nat, s: nat)
    requires s < Area(w, h)
    ensures Dest(t, w, h, s) < Area(w, h)
    ensures Source(t, w, h, Dest(t, w, h, s)) == s
    ensures Dest(t, w, h, Source(t, w, h, s)) == s
  {
    OutArea(t, w, h);
    TurnsBack(t, w, h);
    DestBack(t, Inverse(t), w, h, s);
    DestBack(Inverse(t), t, OutWidth(t, w, h), OutHeight(t, w, h), s);
  }
}
