/** Turned buffers: four bytes a pixel, moved by the loops of display.rs. */
module Pixels {
  import opened Division
  import opened Rotation

  datatype Buffer = Buffer(data: seq<byte>, width: nat, height: nat) {
    /** Four bytes for every pixel and no others. */
    predicate WellSized() { |data| == 4 * Area(width, height) }
  }

  /** The place whose pixel feeds the byte, if the turned picture has one there and both pixels lie
      whole within the data. */
  predicate Feeds(src: Buffer, t: Turn, i: nat) {
    var p := i / 4;
    && p < Area(src.width, src.height) && 4 * p + 4 <= |src.data|
    && 4 * Source(t, src.width, src.height, p) + 4 <= |src.data|
  }

  /** A byte of the output once the first `n` pixels of the source have been moved. */
  function ByteAfter(src: Buffer, t: Turn, n: nat, i: nat): byte {
    if Feeds(src, t, i) && Source(t, src.width, src.height, i / 4) < n
    then src.data[4 * Source(t, src.width, src.height, i / 4) + i % 4]
    else 0
  }

  function Rotated(src: Buffer, t: Turn): Buffer {
    if t == R0 then src
    else
      Buffer(seq(|src.data|, i requires 0 <= i < |src.data| => ByteAfter(src, t, Area(src.width, src.height), i)),
             OutWidth(t, src.width, src.height), OutHeight(t, src.width, src.height))
  }

  /** The dimensions a capture reports. */
  function Dimensions(t: Turn, w: nat, h: nat): (nat, nat) {
    match t
    case R0 | R180 => (w, h)
    case R90 | R270 => (h, w)
  }

  /** Moving one more pixel changes the four bytes of its new place. */
  lemma OnePixelMore(src: Buffer, t: Turn, n: nat, i: nat)
    requires n < Area(src.width, src.height) && i < |src.data|
    ensures var d := Dest(t, src.width, src.height, n);
            ByteAfter(src, t, n + 1, i)
            == if 4 * d <= i < 4 * d + 4 && 4 * n + 4 <= |src.data| && 4 * d + 4 <= |src.data|
               then src.data[4 * n + (i - 4 * d)]
               else ByteAfter(src, t, n, i)
  {
    var w, h := src.width, src.height;
    DestIsBijective(t, w, h, n);
    if i / 4 < Area(w, h) {
      DestIsBijective(t, w, h, i / 4);
    }
  }

  /** Past the end of the data no pixel is moved. */
  lemma NothingLeft(src: Buffer, t: Turn, n: nat, m: nat, i: nat)
    requires n <= m && 4 * n + 4 > |src.data|
    ensures ByteAfter(src, t, m, i) == ByteAfter(src, t, n, i)
  {
  }

  /** The buffer holds what moving the first `n` pixels gives. */
  ghost predicate Moved(src: Buffer, t: Turn, n: nat, out: array<byte>)
    reads out
  {
    out.Length == |src.data| && forall i :: 0 <= i < |src.data| ==> out[i] == ByteAfter(src, t, n, i)
  }

  method CopyPixel(data: seq<byte>, from: nat, out: array<byte>, to: nat)
    requires from + 4 <= |data| && to + 4 <= out.Length
    modifies out
    ensures forall i :: 0 <= i < out.Length ==> out[i] == if to <= i < to + 4 then data[from + (i - to)] else old(out[i])
  {
    out[to], out[to + 1], out[to + 2], out[to + 3] := data[from], data[from + 1], data[from + 2], data[from + 3];
  }

  /** Where the loop writes is where the pixel goes. */
  lemma DestAt(t: Turn, w: nat, h: nat, x: nat, y: nat)
    requires x < w && y < h
    ensures At(w, x, y) < Area(w, h)
    ensures At(OutWidth(t, w, h), MovedX(t, w, h, x, y), MovedY(t, w, h, x, y)) == Dest(t, w, h, At(w, x, y))
  {
    AtWithin(w, h, x, y);
    PlaceOf(w, x, y);
  }

  /** One pixel: its four bytes are copied, if they fit. */
  method MovePixel(src: Buffer, t: Turn, x: nat, y: nat, out: array<byte>)
    requires x < src.width && y < src.height && 4 * At(src.width, x, y) + 4 <= |src.data|
    requires Moved(src, t, At(src.width, x, y), out)
    modifies out
    ensures Moved(src, t, At(src.width, x, y) + 1, out)
  {
    var w, h := src.width, src.height;
    var n := At(w, x, y);
    var d := At(OutWidth(t, w, h), MovedX(t, w, h, x, y), MovedY(t, w, h, x, y));
    DestAt(t, w, h, x, y);
    ghost var before := out[..];
    if 4 * d + 4 <= out.Length {
      CopyPixel(src.data, 4 * n, out, 4 * d);
    }
    forall i | 0 <= i < |src.data|
      ensures out[i] == ByteAfter(src, t, n + 1, i)
    {
      OnePixelMore(src, t, n, i);
      assert before[i] == ByteAfter(src, t, n, i);
    }
  }

  /** `rotate_rgba`, whatever the size of the data: pixels that do not fit are passed over and the
      bytes nobody writes stay zero. */
  method RotateRgba(src: Buffer, t: Turn) returns (r: Buffer)
    ensures r == Rotated(src, t)
  {
    if t == R0 {
      return src;
    }
    var w, h := src.width, src.height;
    var out := new byte[|src.data|](_ => 0);
    assert At(w, 0, 0) == 0;
    for y := 0 to h
      invariant Moved(src, t, At(w, 0, y), out)
    {
      var x := 0;
      while x < w
        invariant x <= w && Moved(src, t, At(w, x, y), out)
      {
        if 4 * At(w, x, y) + 4 > |src.data| {
          break;
        }
        MovePixel(src, t, x, y, out);
        x := x + 1;
      }
      RowEnds(w, x, y);
      if x < w {
        forall i | 0 <= i < |src.data|
          ensures ByteAfter(src, t, At(w, 0, y + 1), i) == ByteAfter(src, t, At(w, x, y), i)
        {
          NothingLeft(src, t, At(w, x, y), At(w, 0, y + 1), i);
        }
      }
    }
    assert At(w, 0, h) == Area(w, h);
    r := Buffer(out[..], OutWidth(t, w, h), OutHeight(t, w, h));
  }

  lemma RowEnds(w: nat, x: nat, y: nat)
    requires x <= w
    ensures At(w, x, y) <= At(w, 0, y + 1)
    ensures x == w ==> At(w, x, y) == At(w, 0, y + 1)
  {
    assert (y + 1) * w == y * w + w;
  }

  // Turning as a group action.

  lemma RotatedByte(src: Buffer, t: Turn, i: nat)
    requires src.WellSized() && i < |src.data|
    ensures i / 4 < Area(src.width, src.height)
    ensures var s := Source(t, src.width, src.height, i / 4);
            Rotated(src, t).WellSized() && |Rotated(src, t).data| == |src.data|
            && Rotated(src, t).data[i] == src.data[4 * s + i % 4]
  {
    OutArea(t, src.width, src.height);
    if t == R0 {
      DestOfR0(src.width, src.height, i / 4);
    }
  }

  /** Sources compose the other way round. */
  lemma SourceAdds(a: Turn, b: Turn, w: nat, h: nat, p: nat)
    requires p < Area(w, h)
    ensures Area(OutWidth(a, w, h), OutHeight(a, w, h)) == Area(w, h)
    ensures Source(a, w, h, Source(b, OutWidth(a, w, h), OutHeight(a, w, h), p)) == Source(Plus(a, b), w, h, p)
  {
    var w', h' := OutWidth(a, w, h), OutHeight(a, w, h);
    OutArea(a, w, h);
    var q := Source(b, w', h', p);
    var s := Source(a, w, h, q);
    DestIsBijective(b, w', h', p);
    DestIsBijective(a, w, h, q);
    DestAdds(a, b, w, h, s);
    DestIsBijective(Plus(a, b), w, h, s);
  }

  lemma OutDimensionsAdd(a: Turn, b: Turn, w: nat, h: nat)
    ensures OutWidth(b, OutWidth(a, w, h), OutHeight(a, w, h)) == OutWidth(Plus(a, b), w, h)
    ensures OutHeight(b, OutWidth(a, w, h), OutHeight(a, w, h)) == OutHeight(Plus(a, b), w, h)
  {
  }

  /** Rotating by one turn and then another is rotating by their sum. */
  lemma RotationsAdd(src: Buffer, a: Turn, b: Turn)
    requires src.WellSized()
    ensures Rotated(Rotated(src, a), b) == Rotated(src, Plus(a, b))
  {
    var once := Rotated(src, a);
    var twice, direct := Rotated(once, b), Rotated(src, Plus(a, b));
    OutDimensionsAdd(a, b, src.width, src.height);
    assert |twice.data| == |direct.data| == |src.data|;
    forall i | 0 <= i < |src.data|
      ensures twice.data[i] == direct.data[i]
    {
      TwiceByte(src, a, b, i / 4, i % 4);
    }
    assert twice.data == direct.data;
  }

  /** Pixel and channel of a byte. */
  lemma ByteOf(p: nat, c: nat)
    requires c < 4
    ensures (4 * p + c) / 4 == p && (4 * p + c) % 4 == c
  {
  }

  /** A channel of a pixel of the turned buffer. */
  lemma PixelByte(src: Buffer, t: Turn, p: nat, c: nat)
    requires src.WellSized() && p < Area(src.width, src.height) && c < 4
    ensures var out := Rotated(src, t);
            && out.WellSized() && 4 * p + c < |out.data| == |src.data|
            && out.data[4 * p + c] == src.data[4 * Source(t, src.width, src.height, p) + c]
  {
    ByteOf(p, c);
    RotatedByte(src, t, 4 * p + c);
  }

  lemma TwiceByte(src: Buffer, a: Turn, b: Turn, p: nat, c: nat)
    requires src.WellSized() && p < Area(src.width, src.height) && c < 4
    ensures var twice, direct := Rotated(Rotated(src, a), b), Rotated(src, Plus(a, b));
            && 4 * p + c < |twice.data| == |direct.data| == |src.data|
            && twice.data[4 * p + c] == direct.data[4 * p + c]
  {
    var once := Rotated(src, a);
    PixelByte(src, a, p, c);
    OutArea(a, src.width, src.height);
    PixelByte(once, b, p, c);
    PixelByte(src, a, Source(b, once.width, once.height, p), c);
    PixelByte(src, Plus(a, b), p, c);
    SourceAdds(a, b, src.width, src.height, p);
  }

  /** So a turn is undone by its inverse: a quarter by three quarters, a half by a half. */
  lemma InverseUndoes(src: Buffer, t: Turn)
    requires src.WellSized()
    ensures Rotated(Rotated(src, t), Inverse(t)) == src
  {
    RotationsAdd(src, t, Inverse(t));
    assert Plus(t, Inverse(t)) == R0;
  }

  /** The dimensions of a rotated capture are the ones reported. */
  lemma DimensionsAgree(src: Buffer, t: Turn)
    ensures (Rotated(src, t).width, Rotated(src, t).height) == Dimensions(t, src.width, src.height)
  {
  }

  /** Every pixel of a well-sized buffer arrives whole at its one new place. */
  lemma PixelArrives(src: Buffer, t: Turn, x: nat, y: nat, c: nat)
    requires src.WellSized() && x < src.width && y < src.height && c < 4
    ensures var w, h := src.width, src.height;
            var to := At(OutWidth(t, w, h), MovedX(t, w, h, x, y), MovedY(t, w, h, x, y));
            && At(w, x, y) < Area(w, h) && to < Area(w, h)
            && |Rotated(src, t).data| == |src.data|
            && Rotated(src, t).data[4 * to + c] == src.data[4 * At(w, x, y) + c]
  {
    var w, h := src.width, src.height;
    AtWithin(w, h, x, y);
    PlaceOf(w, x, y);
    var n := At(w, x, y);
    DestIsBijective(t, w, h, n);
    PixelByte(src, t, Dest(t, w, h, n), c);
  }

  /** A quarter turn is clockwise: the top row becomes the right column, read downwards. */
  lemma QuarterIsClockwise(src: Buffer, x: nat, y: nat, c: nat)
    requires src.WellSized() && x < src.width && y < src.height && c < 4
    ensures var w, h, out := src.width, src.height, Rotated(src, R90);
            && out.width == h && out.height == w
            && 0 <= 4 * (y * w + x) + c < |src.data| && 0 <= 4 * (x * h + (h - 1 - y)) + c < |out.data|
            && out.data[4 * (x * h + (h - 1 - y)) + c] == src.data[4 * (y * w + x) + c]
  {
    PixelArrives(src, R90, x, y, c);
  }

  /** The pixel lies whole within the data, here and at its new place. */
  predicate Fits(src: Buffer, t: Turn, x: nat, y: nat)
    requires x < src.width && y < src.height
  {
    var w, h := src.width, src.height;
    && 4 * At(w, x, y) + 4 <= |src.data|
    && 4 * At(OutWidth(t, w, h), MovedX(t, w, h, x, y), MovedY(t, w, h, x, y)) + 4 <= |src.data|
  }

  /** Data of any size: the pixels that fit arrive. */
  lemma FittingPixelArrives(src: Buffer, t: Turn, x: nat, y: nat, c: nat)
    requires t != R0 && x < src.width && y < src.height && c < 4 && Fits(src, t, x, y)
    ensures var w, h := src.width, src.height;
            var to := At(OutWidth(t, w, h), MovedX(t, w, h, x, y), MovedY(t, w, h, x, y));
            && |Rotated(src, t).data| == |src.data|
            && Rotated(src, t).data[4 * to + c] == src.data[4 * At(w, x, y) + c]
  {
    var w, h := src.width, src.height;
    var n := At(w, x, y);
    DestAt(t, w, h, x, y);
    DestIsBijective(t, w, h, n);
    ByteOf(Dest(t, w, h, n), c);
  }

  /** Column and row of the pixel a place is filled from. */
  lemma SourcePlace(t: Turn, w: nat, h: nat, p: nat) returns (x: nat, y: nat)
    requires p < Area(w, h)
    ensures x < w && y < h && At(w, x, y) == Source(t, w, h, p)
    ensures At(OutWidth(t, w, h), MovedX(t, w, h, x, y), MovedY(t, w, h, x, y)) == p
  {
    DestIsBijective(t, w, h, p);
    x, y := PlaceAt(t, w, h, Source(t, w, h, p));
  }

  lemma PlaceAt(t: Turn, w: nat, h: nat, n: nat) returns (x: nat, y: nat)
    requires n < Area(w, h)
    ensures x < w && y < h && At(w, x, y) == n
    ensures At(OutWidth(t, w, h), MovedX(t, w, h, x, y), MovedY(t, w, h, x, y)) == Dest(t, w, h, n)
  {
    PlaceWithin(w, h, n);
    x, y := n % w, n / w;
    DestAt(t, w, h, x, y);
  }

  /** And every byte that is not zero came with such a pixel. */
  lemma OnlyFittingPixels(src: Buffer, t: Turn, i: nat) returns (x: nat, y: nat)
    requires t != R0 && i < |src.data| && Rotated(src, t).data[i] != 0
    ensures x < src.width && y < src.height && Fits(src, t, x, y)
    ensures var w, h := src.width, src.height;
            i / 4 == At(OutWidth(t, w, h), MovedX(t, w, h, x, y), MovedY(t, w, h, x, y))
  {
    assert Feeds(src, t, i);
    x, y := SourcePlace(t, src.width, src.height, i / 4);
  }

  // Readings of the rotation.

  /** `from_degrees`: the remainder brought to a positive one. */
  function FromDegrees(deg: int): Turn {
    var d := (Remainder(deg, 360) + 360) % 360;
    if d == 90 then R90 else if d == 180 then R180 else if d == 270 then R270 else R0
  }

  /** `%` of the program, with the sign of the dividend. */
  function Remainder(n: int, d: nat): int
    requires d > 0
  {
    if n >= 0 then n % d else -((-n) % d)
  }

  function FromQuarterTurns(q: int): Turn {
    FromDegrees((Remainder(q, 4) + 4) % 4 * 90)
  }

  /** The kernel's number: above three it is in degrees, otherwise in quarter turns. */
  function FromKernel(q: int): Turn {
    if q > 3 then FromDegrees(q) else FromQuarterTurns(q)
  }

  lemma QuarterTurnsModFour(q: int)
    ensures FromQuarterTurns(q).Quarters() == q % 4
  {
    RemainderMod(q, 4);
  }

  lemma RemainderMod(n: int, d: nat)
    requires d > 0
    ensures (Remainder(n, d) + d) % d == n % d
  {
    if n >= 0 {
      DivModUnique(n % d + d, d, 1, n % d);
    } else {
      var m := -n;
      var q, r := m / d, m % d;
      assert m == q * d + r;
      if r == 0 {
        DivModUnique(d, d, 1, 0);
        EuclideanUnique(n, d, -q, 0);
      } else {
        DivModUnique(d - r, d, 0, d - r);
        assert (-q - 1) * d == -(q * d) - d;
        EuclideanUnique(n, d, -q - 1, d - r);
      }
    }
  }

  lemma EuclideanUnique(n: int, d: nat, q: int, r: nat)
    requires r < d && n == q * d + r
    ensures n % d == r
  {
    var diff := n / d - q;
    assert diff * d == (n / d) * d - q * d;
    assert n == (n / d) * d + n % d;
    if diff >= 1 {
      AtLeast(diff, d);
    } else if diff <= -1 {
      AtLeast(-diff, d);
    }
  }

  /** Quarter turns are a homomorphism from the integers: negative and many turns included. */
  lemma QuarterTurnsAdd(a: int, b: int)
    ensures FromQuarterTurns(a + b) == Plus(FromQuarterTurns(a), FromQuarterTurns(b))
  {
    QuarterTurnsModFour(a);
    QuarterTurnsModFour(b);
    QuarterTurnsModFour(a + b);
    ModFourAdds(a, b);
    SameTurn(FromQuarterTurns(a + b), Plus(FromQuarterTurns(a), FromQuarterTurns(b)));
  }

  lemma ModFourAdds(a: int, b: int)
    ensures (a + b) % 4 == (a % 4 + b % 4) % 4
  {
  }

  lemma SameTurn(a: Turn, b: Turn)
    requires a.Quarters() == b.Quarters()
    ensures a == b
  {
  }

  /** The remainder by a full turn, for a whole number of quarters and for any other angle. */
  lemma QuartersOfTurn(deg: int)
    ensures deg % 90 == 0 ==> deg % 360 == 90 * ((deg / 90) % 4)
    ensures deg % 90 != 0 ==> deg % 360 !in {0, 90, 180, 270}
  {
    if deg % 90 == 0 {
      var q := deg / 90;
      var k, m := q / 4, q % 4;
      assert deg == 90 * q && q == 4 * k + m;
      EuclideanUnique(deg, 360, k, 90 * m);
    } else {
      var k, d := deg / 360, deg % 360;
      assert deg == 360 * k + d;
      NotQuarter(deg, k, d, 0);
      NotQuarter(deg, k, d, 1);
      NotQuarter(deg, k, d, 2);
      NotQuarter(deg, k, d, 3);
    }
  }

  lemma NotQuarter(deg: int, k: int, d: int, e: nat)
    requires deg == 360 * k + d && deg % 90 != 0
    ensures d != 90 * e
  {
    if d == 90 * e {
      assert deg == (4 * k + e) * 90;
      EuclideanUnique(deg, 90, 4 * k + e, 0);
    }
  }

  /** Degrees that are a number of quarter turns are read as that many; all others as none. */
  lemma DegreesOfQuarters(deg: int)
    ensures FromDegrees(deg) == if deg % 90 == 0 then FromQuarterTurns(deg / 90) else R0
  {
    RemainderMod(deg, 360);
    QuartersOfTurn(deg);
    if deg % 90 == 0 {
      QuarterTurnsModFour(deg / 90);
      SameTurn(FromDegrees(deg), FromQuarterTurns(deg / 90));
    }
  }

  /** The guess about the kernel's unit is right for degrees above three, and for the others exactly
      when both readings are the same: a whole number of turns, or an angle that is no quarter and a
      multiple of four. */
  lemma KernelDegreesIff(deg: int)
    ensures FromKernel(deg) == FromDegrees(deg)
            <==> deg > 3 || (if deg % 90 == 0 then deg % 360 == 0 else deg % 4 == 0)
  {
    DegreesOfQuarters(deg);
    QuarterTurnsModFour(deg);
    if deg % 90 == 0 {
      var q := deg / 90;
      QuarterTurnsModFour(q);
      QuartersOfTurn(deg);
      assert deg == 90 * q && deg % 4 == (2 * (q % 4)) % 4;
    }
  }
}
