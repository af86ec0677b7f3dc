/** Strings as the Rust code sees them: UTF-8 sizes, joining, decimal numerals. */
module Text {
  import opened Wrappers

  /** Bytes one character takes in UTF-8. */
  function CharBytes(c: char): (n: nat)
    ensures 1 <= n <= 4
    ensures n == 1 <==> IsAscii(c)
  {
    if c as int < 0x80 then 1
    else if c as int < 0x800 then 2
    else if c as int < 0x10000 then 3
    else 4
  }

  predicate IsAscii(c: char) { c as int < 0x80 }

  /** `str::len`. */
  function Bytes(s: string): (n: nat)
    ensures n >= |s|
  {
    if s == "" then 0 else CharBytes(s[0]) + Bytes(s[1..])
  }

  /** `[T]::join`. */
  function Join(parts: seq<string>, sep: string): string {
    if |parts| == 0 then ""
    else if |parts| == 1 then parts[0]
    else parts[0] + sep + Join(parts[1..], sep)
  }

  /** The pieces of a `format!`, put together. */
  function Format(pieces: seq<string>): string {
    if |pieces| == 0 then "" else pieces[0] + Format(pieces[1..])
  }

  predicate PartAt(s: string, i: int, part: string) {
    0 <= i && i + |part| <= |s| && s[i..i + |part|] == part
  }

  /** The text occurs in the other. */
  ghost predicate HasPart(s: string, part: string) {
    exists i :: PartAt(s, i, part)
  }

  lemma PartBetween(a: string, part: string, b: string)
    ensures HasPart(a + part + b, part)
  {
    assert PartAt(a + part + b, |a|, part);
  }

  lemma PartInside(a: string, s: string, b: string, part: string)
    requires HasPart(s, part)
    ensures HasPart(a + s + b, part)
  {
    var i :| PartAt(s, i, part);
    assert (a + s + b)[|a|..|a| + |s|] == s;
    assert PartAt(a + s + b, |a| + i, part);
  }

  /** Every piece of a `format!` is in it. */
  lemma {:induction false} FormatHas(pieces: seq<string>, k: nat)
    requires k < |pieces|
    ensures HasPart(Format(pieces), pieces[k])
    decreases k
  {
    var rest := Format(pieces[1..]);
    if k == 0 {
      assert "" + pieces[0] + rest == pieces[0] + rest;
      PartBetween("", pieces[0], rest);
    } else {
      FormatHas(pieces[1..], k - 1);
      assert pieces[0] + rest + "" == pieces[0] + rest;
      PartInside(pieces[0], rest, "", pieces[k]);
    }
  }

  /** And every two that follow one another are. */
  lemma {:induction false} FormatHasPair(pieces: seq<string>, k: nat)
    requires k + 1 < |pieces|
    ensures HasPart(Format(pieces), pieces[k] + pieces[k + 1])
    decreases k
  {
    var rest := Format(pieces[1..]);
    if k == 0 {
      var after := Format(pieces[1..][1..]);
      assert "" + (pieces[0] + pieces[1]) + after == pieces[0] + (pieces[1] + after);
      PartBetween("", pieces[0] + pieces[1], after);
    } else {
      FormatHasPair(pieces[1..], k - 1);
      assert pieces[0] + rest + "" == pieces[0] + rest;
      PartInside(pieces[0], rest, "", pieces[k] + pieces[k + 1]);
    }
  }

  /** Every part of a `join` is in it. */
  lemma {:induction false} JoinHas(parts: seq<string>, sep: string, k: nat)
    requires k < |parts|
    ensures HasPart(Join(parts, sep), parts[k])
    decreases k
  {
    if |parts| == 1 {
      assert "" + parts[0] + "" == parts[0];
      PartBetween("", parts[0], "");
    } else {
      var rest := Join(parts[1..], sep);
      if k == 0 {
        assert "" + parts[0] + (sep + rest) == parts[0] + sep + rest;
        PartBetween("", parts[0], sep + rest);
      } else {
        JoinHas(parts[1..], sep, k - 1);
        assert (parts[0] + sep) + rest + "" == parts[0] + sep + rest;
        PartInside(parts[0] + sep, rest, "", parts[k]);
      }
    }
  }

  /** `str::trim`: no white space is left at either end. */
  function Trimmed(white: char -> bool, s: string): (r: string)
    ensures r == "" || (!white(r[0]) && !white(r[|r| - 1]))
    ensures |r| <= |s|
    decreases |s|
  {
    if s == "" then ""
    else if white(s[0]) then Trimmed(white, s[1..])
    else if white(s[|s| - 1]) then Trimmed(white, s[..|s| - 1])
    else s
  }

  /** The characters with the Unicode property White_Space. */
  predicate IsWhitespace(c: char) {
    var n := c as int;
    || 0x09 <= n <= 0x0D || n == 0x20 || n == 0x85 || n == 0xA0 || n == 0x1680 || 0x2000 <= n <= 0x200A
    || n == 0x2028 || n == 0x2029 || n == 0x202F || n == 0x205F || n == 0x3000
  }

  function Trim(s: string): string { Trimmed(IsWhitespace, s) }

  predicate NoOuterWhitespace(s: string) {
    s != "" ==> !IsWhitespace(s[0]) && !IsWhitespace(s[|s| - 1])
  }

  predicate AllWhitespace(s: string) {
    forall k :: 0 <= k < |s| ==> IsWhitespace(s[k])
  }

  /** What is between the white space is what trimming leaves. */
  lemma {:induction false} TrimBetween(pre: string, core: string, post: string)
    requires AllWhitespace(pre) && AllWhitespace(post) && NoOuterWhitespace(core)
    ensures Trim(pre + core + post) == core
    decreases |pre| + |post|
  {
    var s := pre + core + post;
    if pre != "" {
      assert s[1..] == pre[1..] + core + post;
      TrimBetween(pre[1..], core, post);
    } else if post != "" {
      if core == "" {
        assert s == post + core + "";
        TrimBetween(post[1..], core, "");
        assert s[1..] == post[1..] + core + "";
      } else {
        var n := |post| - 1;
        assert s[..|s| - 1] == pre + core + post[..n];
        TrimBetween(pre, core, post[..n]);
      }
    } else {
      assert s == core;
    }
  }

  lemma TrimId(s: string)
    ensures Trim(s) == s <==> NoOuterWhitespace(s)
  {
    if NoOuterWhitespace(s) {
      TrimBetween("", s, "");
      assert "" + s + "" == s;
    }
  }

  /** Trimming takes a part of the text. */
  lemma {:induction false} TrimIsPart(s: string) returns (from: nat, to: nat)
    ensures from <= to <= |s| && Trim(s) == s[from..to]
    decreases |s|
  {
    if s == "" {
      return 0, 0;
    }
    if IsWhitespace(s[0]) {
      var a, b := TrimIsPart(s[1..]);
      return a + 1, b + 1;
    }
    if IsWhitespace(s[|s| - 1]) {
      var a, b := TrimIsPart(s[..|s| - 1]);
      return a, b;
    }
    return 0, |s|;
  }

  predicate IsDigit(c: char) { '0' <= c <= '9' }

  function Digit(d: nat): (c: char)
    requires d < 10
    ensures IsDigit(c)
  {
    '0' + d as char
  }

  /** `Display` for an unsigned integer. */
  function Decimal(n: nat): (s: string)
    ensures |s| > 0
    ensures forall i :: 0 <= i < |s| ==> IsDigit(s[i])
  {
    if n < 10 then [Digit(n)] else Decimal(n / 10) + [Digit(n % 10)]
  }

  function DigitValue(c: char): (d: nat)
    requires IsDigit(c)
    ensures d < 10 && Digit(d) == c
  {
    c as int - '0' as int
  }

  /** `Display` for a signed integer. */
  function SignedDecimal(n: int): string {
    if n < 0 then "-" + Decimal(-n) else Decimal(n)
  }

  /** The number a string of digits denotes. */
  function Denotes(s: string): nat
    requires forall i :: 0 <= i < |s| ==> IsDigit(s[i])
  {
    if s == "" then 0
    else 10 * Denotes(s[..|s| - 1]) + DigitValue(s[|s| - 1])
  }

  lemma {:induction false} DecimalDenotes(n: nat)
    ensures Denotes(Decimal(n)) == n
  {
    if n >= 10 {
      var s := Decimal(n);
      assert s[..|s| - 1] == Decimal(n / 10);
      DecimalDenotes(n / 10);
    } else {
      assert Decimal(n)[..0] == "";
    }
  }

  // Splitting.

  /** `str::find`, counted in characters. */
  function Find(s: string, c: char): (r: Option<nat>)
    ensures r.Some? ==> r.value < |s| && s[r.value] == c && c !in s[..r.value]
    ensures r.None? ==> c !in s
  {
    if s == "" then None
    else if s[0] == c then Some(0)
    else
      match Find(s[1..], c)
      case None => None
      case Some(k) =>
        assert s[..k + 1] == [s[0]] + s[1..][..k];
        Some(k + 1)
  }

  lemma {:induction false} FindAfter(s: string, n: nat, c: char)
    requires n < |s| && s[n] == c && c !in s[..n]
    ensures Find(s, c) == Some(n)
  {
    if n > 0 {
      assert s[0] == s[..n][0] && s[1..][..n - 1] == s[..n][1..];
      FindAfter(s[1..], n - 1, c);
    }
  }

  /** `str::split` at a character. */
  function SplitOn(s: string, c: char): (parts: seq<string>)
    ensures |parts| > 0
    decreases |s|
  {
    match Find(s, c)
    case None => [s]
    case Some(k) => [s[..k]] + SplitOn(s[k + 1..], c)
  }

  predicate Free(parts: seq<string>, c: char) {
    forall k :: 0 <= k < |parts| ==> c !in parts[k]
  }

  lemma {:induction false} SplitOfJoin(parts: seq<string>, c: char)
    requires |parts| > 0 && Free(parts, c)
    ensures SplitOn(Join(parts, [c]), c) == parts
  {
    var s := Join(parts, [c]);
    if |parts| == 1 {
      assert c !in s;
    } else {
      var rest := Join(parts[1..], [c]);
      assert s == parts[0] + [c] + rest;
      assert s[..|parts[0]|] == parts[0] && s[|parts[0]| + 1..] == rest;
      FindAfter(s, |parts[0]|, c);
      SplitOfJoin(parts[1..], c);
    }
  }

  lemma {:induction false} JoinOfSplit(s: string, c: char)
    ensures Join(SplitOn(s, c), [c]) == s
    ensures Free(SplitOn(s, c), c)
    decreases |s|
  {
    match Find(s, c)
    case None =>
    case Some(k) =>
      JoinOfSplit(s[k + 1..], c);
      assert s == s[..k] + [c] + s[k + 1..];
      var rest := SplitOn(s[k + 1..], c);
      assert ([s[..k]] + rest)[1..] == rest;
  }

  /** A piece of a text. */
  ghost predicate PartOf(p: string, s: string) {
    exists i, j :: IsPiece(p, s, i, j)
  }

  predicate IsPiece(p: string, s: string, i: int, j: int) {
    0 <= i <= j <= |s| && p == s[i..j]
  }

  lemma PartOfPart(p: string, s: string, t: string)
    requires PartOf(p, s) && PartOf(s, t)
    ensures PartOf(p, t)
  {
    var i, j :| IsPiece(p, s, i, j);
    var a, b :| IsPiece(s, t, a, b);
    forall k | 0 <= k < |p|
      ensures p[k] == t[a + i + k]
    {
      assert p[k] == s[i + k];
    }
    assert IsPiece(p, t, a + i, a + j);
  }

  lemma TrimPart(s: string)
    ensures PartOf(Trim(s), s) && NoOuterWhitespace(Trim(s))
  {
    var i, j := TrimIsPart(s);
    assert IsPiece(Trim(s), s, i, j);
  }

  lemma {:induction false} SplitParts(s: string, c: char, k: nat)
    requires k < |SplitOn(s, c)|
    ensures PartOf(SplitOn(s, c)[k], s) && c !in SplitOn(s, c)[k]
    decreases |s|
  {
    match Find(s, c)
    case None => assert IsPiece(s, s, 0, |s|);
    case Some(n) =>
      if k == 0 {
        assert IsPiece(s[..n], s, 0, n);
      } else {
        var rest := s[n + 1..];
        var part := SplitOn(rest, c)[k - 1];
        SplitParts(rest, c, k - 1);
        assert IsPiece(rest, s, n + 1, |s|);
        PartOfPart(part, rest, s);
        assert SplitOn(s, c)[k] == part;
      }
  }

  // Numbers.

  const U32_MAX: nat := 0xFFFF_FFFF

  type U32 = n: nat | n <= U32_MAX

  const TWO_63: int := 0x8000_0000_0000_0000
  const TWO_64: int := 0x1_0000_0000_0000_0000

  type I64 = v: int | -TWO_63 <= v < TWO_63

  predicate AllDigits(s: string) { forall k :: 0 <= k < |s| ==> IsDigit(s[k]) }

  /** `str::parse::<u32>`: an optional plus, then at least one digit. */
  function ParseU32(s: string): Option<U32> {
    var digits := if s != "" && s[0] == '+' then s[1..] else s;
    if digits != "" && AllDigits(digits) && Denotes(digits) <= U32_MAX then Some(Denotes(digits)) else None
  }

  lemma ParseOfDecimal(n: U32)
    ensures ParseU32(Decimal(n)) == Some(n)
  {
    DecimalDenotes(n);
    assert IsDigit(Decimal(n)[0]);
  }
}
