/** Slugs of titles and the wikilinks of a note's content (notebook.rs). */
module Wikilinks {
  import opened Text

  /** What the program takes from Unicode: letters and digits, lower-casing and white space. */
  datatype Alphabet = Alphabet(alphanumeric: char -> bool, lower: char -> string, white: char -> bool) {
    /** Lower-casing gives something, and neither a letter nor a lower-cased one is a dash. */
    ghost predicate Sane() {
      && !alphanumeric('-')
      && forall c :: alphanumeric(c) ==> lower(c) != "" && '-' !in lower(c)
    }

    /** What lower-casing gives are letters or digits that lower-casing keeps. */
    ghost predicate Stable() {
      forall c, d :: alphanumeric(c) && d in lower(c) ==> alphanumeric(d) && lower(d) == [d]
    }
  }

  function AsciiLower(c: char): string {
    if 'A' <= c <= 'Z' then [c + ('a' - 'A')] else [c]
  }

  /** The ASCII part of the tables. */
  const ASCII := Alphabet(
                   c => 'a' <= c <= 'z' || 'A' <= c <= 'Z' || '0' <= c <= '9',
                   AsciiLower,
                   c => c == ' ' || 9 <= c as int <= 13)

  predicate AsciiPunctuation(c: char) {
    33 <= c as int <= 47 || 58 <= c as int <= 64 || 91 <= c as int <= 96 || 123 <= c as int <= 126
  }

  // Slugs.

  predicate Separates(al: Alphabet, c: char) {
    al.white(c) || AsciiPunctuation(c)
  }

  /** Each character on its own: letters in lower case, separators as dashes, the rest gone. */
  function Spelled(al: Alphabet, s: string): string {
    if s == "" then ""
    else Spelled(al, s[..|s| - 1]) + SpelledChar(al, s[|s| - 1])
  }

  function SpelledChar(al: Alphabet, c: char): string {
    if al.alphanumeric(c) then al.lower(c) else if Separates(al, c) then "-" else ""
  }

  /** The dashes that lead or follow a dash dropped. */
  function Squeezed(s: string): string {
    if s == "" then ""
    else
      var n := |s| - 1;
      if s[n] == '-' && (n == 0 || s[n - 1] == '-') then Squeezed(s[..n])
      else Squeezed(s[..n]) + [s[n]]
  }

  function WithoutTail(s: string): (r: string)
    ensures r <= s
    ensures r == "" || r[|r| - 1] != '-'
    ensures forall k :: |r| <= k < |s| ==> s[k] == '-'
  {
    if s != "" && s[|s| - 1] == '-' then WithoutTail(s[..|s| - 1]) else s
  }

  const CAP: nat := 80

  function Capped(s: string): string {
    if |s| > CAP then WithoutTail(s[..CAP]) else s
  }

  function Slug(al: Alphabet, title: string): string {
    Capped(WithoutTail(Squeezed(Spelled(al, title))))
  }

  /** Words of letters with single dashes between them. */
  predicate Tidy(s: string) {
    && (s != "" ==> s[0] != '-' && s[|s| - 1] != '-')
    && NoPair(s, '-')
  }

  predicate NoPair(s: string, c: char) {
    forall k :: 0 <= k < |s| - 1 ==> s[k] != c || s[k + 1] != c
  }

  lemma {:induction false} SqueezedShape(s: string)
    ensures var r := Squeezed(s);
            && NoPair(r, '-') && (r != "" ==> r[0] != '-')
            && (r != "" ==> s != "" && s[|s| - 1] == r[|r| - 1])
            && (r == "" ==> forall k :: 0 <= k < |s| ==> s[k] == '-')
  {
    if s != "" {
      SqueezedShape(s[..|s| - 1]);
    }
  }

  lemma {:induction false} SqueezedTidy(s: string)
    requires NoPair(s, '-') && (s != "" ==> s[0] != '-')
    ensures Squeezed(s) == s
  {
    if s != "" {
      var n := |s| - 1;
      SqueezedTidy(s[..n]);
      assert s == s[..n] + [s[n]];
      if n > 0 {
        assert s[n - 1] != '-' || s[n] != '-';
      }
    }
  }

  lemma CappedShape(s: string)
    requires Tidy(s)
    ensures Tidy(Capped(s)) && |Capped(s)| <= CAP && Capped(s) <= s
    ensures s != "" ==> Capped(s) != ""
  {
    if |s| > CAP {
      assert s[..CAP][0] == s[0];
    }
  }

  /** Every slug is tidy and at most 80 characters, and empty only if nothing was spelled. */
  lemma SlugShape(al: Alphabet, title: string)
    ensures Tidy(Slug(al, title)) && |Slug(al, title)| <= CAP
    ensures Slug(al, title) == "" <==> forall k :: 0 <= k < |Spelled(al, title)| ==> Spelled(al, title)[k] == '-'
  {
    var spelled := Spelled(al, title);
    var squeezed := Squeezed(spelled);
    SqueezedShape(spelled);
    CappedShape(WithoutTail(squeezed));
    if squeezed != "" {
      assert squeezed[0] != '-';
      Lettered(spelled);
    }
  }

  lemma {:induction false} Lettered(s: string)
    requires Squeezed(s) != ""
    ensures exists k :: 0 <= k < |s| && s[k] != '-'
  {
    var n := |s| - 1;
    if Squeezed(s[..n]) != "" {
      Lettered(s[..n]);
      var k :| 0 <= k < n && s[..n][k] != '-';
      assert s[k] != '-';
    } else {
      SqueezedShape(s[..n]);
      assert n > 0 ==> s[..n][n - 1] == '-';
      assert s[n] != '-';
    }
  }

  /** The characters other than dashes. */
  function Letters(s: string): string {
    if s == "" then ""
    else Letters(s[..|s| - 1]) + (if s[|s| - 1] == '-' then "" else [s[|s| - 1]])
  }

  lemma {:induction false} SqueezedLetters(s: string)
    ensures Letters(Squeezed(s)) == Letters(s)
  {
    if s != "" {
      var n := |s| - 1;
      SqueezedLetters(s[..n]);
      if !(s[n] == '-' && (n == 0 || s[n - 1] == '-')) {
        assert (Squeezed(s[..n]) + [s[n]])[..|Squeezed(s)| - 1] == Squeezed(s[..n]);
      }
    }
  }

  lemma {:induction false} WithoutTailLetters(s: string)
    ensures Letters(WithoutTail(s)) == Letters(s)
  {
    if s != "" && s[|s| - 1] == '-' {
      WithoutTailLetters(s[..|s| - 1]);
    }
  }

  lemma {:induction false} LettersPrefix(s: string, n: nat)
    requires n <= |s|
    ensures Letters(s[..n]) <= Letters(s)
  {
    if n < |s| {
      LettersPrefix(s[..|s| - 1], n);
      assert s[..|s| - 1][..n] == s[..n];
    } else {
      assert s[..n] == s;
    }
  }

  /** A slug keeps the letters of the title in order: all of them, unless the cap cut it. */
  lemma SlugKeepsLetters(al: Alphabet, title: string)
    ensures Letters(Slug(al, title)) <= Letters(Spelled(al, title))
    ensures |WithoutTail(Squeezed(Spelled(al, title)))| <= CAP ==>
              Letters(Slug(al, title)) == Letters(Spelled(al, title))
  {
    var spelled := Spelled(al, title);
    SqueezedLetters(spelled);
    WithoutTailLetters(Squeezed(spelled));
    var whole := WithoutTail(Squeezed(spelled));
    if |whole| > CAP {
      WithoutTailLetters(whole[..CAP]);
      LettersPrefix(whole, CAP);
    }
  }

  /** Every character spelled as it stands. */
  predicate SpellsItself(al: Alphabet, s: string) {
    forall k :: 0 <= k < |s| ==> SpelledChar(al, s[k]) == [s[k]]
  }

  lemma {:induction false} SpelledItself(al: Alphabet, s: string)
    requires SpellsItself(al, s)
    ensures Spelled(al, s) == s
  {
    if s != "" {
      SpelledItself(al, s[..|s| - 1]);
      assert s == s[..|s| - 1] + [s[|s| - 1]];
    }
  }

  lemma {:induction false} SpelledIsStable(al: Alphabet, s: string)
    requires al.Sane() && al.Stable()
    ensures SpellsItself(al, Spelled(al, s))
  {
    if s != "" {
      SpelledIsStable(al, s[..|s| - 1]);
    }
  }

  lemma {:induction false} SqueezedIsStable(al: Alphabet, s: string)
    requires SpellsItself(al, s)
    ensures SpellsItself(al, Squeezed(s))
  {
    if s != "" {
      SqueezedIsStable(al, s[..|s| - 1]);
    }
  }

  /** A slug is its own slug. */
  lemma SlugIdempotent(al: Alphabet, title: string)
    requires al.Sane() && al.Stable()
    ensures Slug(al, Slug(al, title)) == Slug(al, title)
  {
    var slug := Slug(al, title);
    SpelledIsStable(al, title);
    SqueezedIsStable(al, Spelled(al, title));
    SlugShape(al, title);
    var whole := WithoutTail(Squeezed(Spelled(al, title)));
    assert whole <= Squeezed(Spelled(al, title));
    assert slug <= whole;
    SpelledItself(al, slug);
    SqueezedTidy(slug);
  }

  /** Lower-casing gives no more than the cap, and each character it gives spells one at most. */
  ghost predicate Modest(al: Alphabet) {
    forall c :: al.alphanumeric(c) ==> |al.lower(c)| <= CAP && SpellsLittle(al, al.lower(c))
  }

  predicate SpellsLittle(al: Alphabet, s: string) {
    forall k :: 0 <= k < |s| ==> |SpelledChar(al, s[k])| <= 1
  }

  /** A text that comes out no longer than it was and equal to itself spells itself throughout. */
  lemma {:induction false} SpelledSame(al: Alphabet, s: string)
    requires SpellsLittle(al, s)
    ensures |Spelled(al, s)| <= |s|
    ensures Spelled(al, s) == s ==> SpellsItself(al, s)
  {
    if s != "" {
      var n := |s| - 1;
      SpelledSame(al, s[..n]);
      if Spelled(al, s) == s {
        assert Spelled(al, s)[..n] == Spelled(al, s[..n]);
      }
    }
  }

  lemma {:induction false} SqueezedShorter(s: string)
    ensures |Squeezed(s)| <= |s|
    ensures |Squeezed(s)| == |s| ==> Squeezed(s) == s
  {
    if s != "" {
      var n := |s| - 1;
      SqueezedShorter(s[..n]);
      assert s == s[..n] + [s[n]];
    }
  }

  /** A slug as long as what was spelled is what was spelled. */
  lemma SlugNotShorter(al: Alphabet, title: string)
    requires |Slug(al, title)| >= |Spelled(al, title)|
    ensures Slug(al, title) == Spelled(al, title)
  {
    SqueezedShorter(Spelled(al, title));
  }

  /** The slug of one letter is its lower case. */
  lemma SlugOfLetter(al: Alphabet, c: char)
    requires al.Sane() && al.alphanumeric(c) && |al.lower(c)| <= CAP
    ensures Slug(al, [c]) == al.lower(c)
  {
    SpelledTwo(al, c, c);
    ShortSlug(al, [c], al.lower(c));
  }

  ghost predicate Idempotent(al: Alphabet) {
    forall title :: Slug(al, Slug(al, title)) == Slug(al, title)
  }

  /** Slugs are idempotent exactly over the stable alphabets. */
  lemma SlugIdempotentIff(al: Alphabet)
    requires al.Sane() && Modest(al)
    ensures Idempotent(al) <==> al.Stable()
  {
    if al.Stable() {
      forall title
        ensures Slug(al, Slug(al, title)) == Slug(al, title)
      {
        SlugIdempotent(al, title);
      }
    }
    if Idempotent(al) {
      forall c, d | al.alphanumeric(c) && d in al.lower(c)
        ensures al.alphanumeric(d) && al.lower(d) == [d]
      {
        IdempotentSettles(al, c, d);
      }
    }
  }

  lemma IdempotentSettles(al: Alphabet, c: char, d: char)
    requires al.Sane() && Modest(al) && Idempotent(al) && al.alphanumeric(c) && d in al.lower(c)
    ensures al.alphanumeric(d) && al.lower(d) == [d]
  {
    var w := al.lower(c);
    SlugOfLetter(al, c);
    assert Slug(al, Slug(al, [c])) == Slug(al, [c]);
    SpelledSame(al, w);
    SlugNotShorter(al, w);
    var k :| 0 <= k < |w| && w[k] == d;
    assert SpelledChar(al, w[k]) == [d];
  }

  /** The ASCII tables are stable, so ASCII slugs are idempotent. */
  lemma AsciiIsStable()
    ensures ASCII.Sane() && ASCII.Stable()
  {
  }

  lemma SpelledTwo(al: Alphabet, c: char, d: char)
    ensures Spelled(al, [c]) == SpelledChar(al, c)
    ensures Spelled(al, [c, d]) == SpelledChar(al, c) + SpelledChar(al, d)
  {
    assert [c][..0] == "" && [c, d][..1] == [c];
  }

  /** A few letters are their own slug once spelled. */
  lemma ShortSlug(al: Alphabet, title: string, letters: string)
    requires Spelled(al, title) == letters && 0 < |letters| <= CAP && '-' !in letters
    ensures Slug(al, title) == letters
  {
    SqueezedTidy(letters);
    assert WithoutTail(letters) == letters;
  }

  /** Where lower-casing a letter gives a letter and a mark that is neither letter nor separator, as it
      does for the capital I with a dot, the slug of a title has another slug. */
  lemma UnstableSlug(al: Alphabet, capital: char, small: char, mark: char)
    requires al.alphanumeric(capital) && al.lower(capital) == [small, mark]
    requires al.alphanumeric(small) && al.lower(small) == [small] && small != '-'
    requires !al.alphanumeric(mark) && !Separates(al, mark)
    ensures Slug(al, [capital]) == [small, mark] && Slug(al, Slug(al, [capital])) == [small]
  {
    SpelledTwo(al, capital, small);
    ShortSlug(al, [capital], [small, mark]);
    SpelledTwo(al, small, mark);
    assert [small] + "" == [small];
    ShortSlug(al, [small, mark], [small]);
  }

  /** What the output and the flag say about the text spelled so far. */
  ghost predicate SlugState(spelled: string, out: string, lastWasDash: bool) {
    && out == Squeezed(spelled)
    && (lastWasDash <==> spelled == "" || spelled[|spelled| - 1] == '-')
    && (out == "" ==> lastWasDash)
  }

  lemma PushLetter(spelled: string, out: string, lastWasDash: bool, c: char)
    requires SlugState(spelled, out, lastWasDash) && c != '-'
    ensures SlugState(spelled + [c], out + [c], false)
  {
    assert (spelled + [c])[..|spelled|] == spelled;
  }

  lemma PushDash(spelled: string, out: string, lastWasDash: bool)
    requires SlugState(spelled, out, lastWasDash)
    ensures SlugState(spelled + "-", if lastWasDash || out == "" then out else out + "-", true)
  {
    assert (spelled + "-")[..|spelled|] == spelled;
  }

  /** The inner loop: a lower-cased letter is pushed character by character. */
  method PushWord(lower: string, ghost spelled: string, out: string, ghost lastWasDash: bool) returns (grown: string)
    requires SlugState(spelled, out, lastWasDash) && lower != "" && '-' !in lower
    ensures SlugState(spelled + lower, grown, false)
  {
    grown := out;
    ghost var flag := lastWasDash;
    assert spelled + lower[..0] == spelled;
    for j := 0 to |lower|
      invariant SlugState(spelled + lower[..j], grown, flag) && (j > 0 ==> !flag)
    {
      PushLetter(spelled + lower[..j], grown, flag, lower[j]);
      assert spelled + lower[..j] + [lower[j]] == spelled + lower[..j + 1];
      grown := grown + [lower[j]];
      flag := false;
    }
    assert lower[..|lower|] == lower;
  }

  method Slugify(al: Alphabet, title: string) returns (out: string)
    requires al.Sane()
    ensures out == Slug(al, title)
  {
    out := "";
    var lastWasDash := true;
    for i := 0 to |title|
      invariant SlugState(Spelled(al, title[..i]), out, lastWasDash)
    {
      var c := title[i];
      ghost var spelled := Spelled(al, title[..i]);
      assert title[..i + 1][..i] == title[..i];
      assert Spelled(al, title[..i + 1]) == spelled + SpelledChar(al, c);
      if al.alphanumeric(c) {
        out := PushWord(al.lower(c), spelled, out, lastWasDash);
        lastWasDash := false;
      } else if al.white(c) || c == '-' || c == '_' || AsciiPunctuation(c) {
        PushDash(spelled, out, lastWasDash);
        if !lastWasDash && out != "" {
          out := out + "-";
          lastWasDash := true;
        }
      } else {
        assert spelled + "" == spelled;
      }
    }
    assert title[..|title|] == title;
    out := PopDashes(out);
    if |out| > CAP {
      out := PopDashes(out[..CAP]);
    }
  }

  method PopDashes(s: string) returns (out: string)
    ensures out == WithoutTail(s)
  {
    out := s;
    while out != "" && out[|out| - 1] == '-'
      invariant WithoutTail(out) == WithoutTail(s)
      decreases |out|
    {
      out := out[..|out| - 1];
    }
  }

  // Links.

  predicate PairAt(s: string, k: nat, c: char) {
    k + 1 < |s| && s[k] == c && s[k + 1] == c
  }

  /** The first closing pair at or after `e`, or the last index if there is none. */
  function Close(s: string, e: nat): (end: nat)
    requires e <= |s|
    ensures e <= end <= |s|
    ensures end + 1 < |s| ==> PairAt(s, end, ']')
    ensures forall k :: e <= k < end ==> !PairAt(s, k, ']')
    decreases |s| - e
  {
    if e + 1 < |s| && !PairAt(s, e, ']') then Close(s, e + 1) else e
  }

  /** A link text that counts: one line, nothing nested, not empty. */
  predicate Usable(link: string) {
    '\n' !in link && NoPair(link, '[') && link != ""
  }

  function BeforePipe(link: string): (r: string)
    ensures r <= link && '|' !in r
    ensures |r| < |link| <==> '|' in link
  {
    if link == "" then ""
    else if link[0] == '|' then ""
    else
      assert link == [link[0]] + link[1..];
      [link[0]] + BeforePipe(link[1..])
  }

  /** The target: the part before the first pipe, trimmed. */
  function Target(al: Alphabet, link: string): string {
    Trimmed(al.white, BeforePipe(link))
  }

  /** The targets a closed link text gives. */
  type Pick = string -> seq<string>

  function Picked(al: Alphabet): Pick {
    link => if Usable(link) then [Target(al, link)] else []
  }

  /** What the scan finds at a position, and where it goes on. */
  datatype Found = Found(targets: seq<string>, next: nat)

  function Scan(pick: Pick, s: string, i: nat): (r: Found)
    requires i + 1 < |s|
    ensures i < r.next <= |s|
  {
    if PairAt(s, i, '[') then
      var end := Close(s, i + 2);
      if end + 1 < |s| then
        Found(pick(s[i + 2..end]), end + 2)
      else Found([], i + 1)
    else Found([], i + 1)
  }

  /** The targets from position `i` on. */
  function Links(pick: Pick, s: string, i: nat): seq<string>
    decreases |s| - i
  {
    if i + 1 >= |s| then []
    else
      var found := Scan(pick, s, i);
      found.targets + Links(pick, s, found.next)
  }

  /** The inner loop: on to the closing pair. */
  method FindClose(content: string, start: nat) returns (end: nat)
    requires start <= |content|
    ensures end == Close(content, start)
  {
    end := start;
    while end + 1 < |content| && !(content[end] == ']' && content[end + 1] == ']')
      invariant start <= end <= |content|
      invariant Close(content, start) == Close(content, end)
    {
      end := end + 1;
    }
  }

  method ScanAt(al: Alphabet, content: string, i: nat) returns (targets: seq<string>, next: nat)
    requires i + 1 < |content|
    ensures Found(targets, next) == Scan(Picked(al), content, i)
  {
    if content[i] == '[' && content[i + 1] == '[' {
      var end := FindClose(content, i + 2);
      if end + 1 < |content| {
        var link := content[i + 2..end];
        targets := if Usable(link) then [Target(al, link)] else [];
        return targets, end + 2;
      }
    }
    return [], i + 1;
  }

  method ParseWikilinks(al: Alphabet, content: string) returns (out: seq<string>)
    ensures out == Links(Picked(al), content, 0)
  {
    out := [];
    var i := 0;
    while i + 1 < |content|
      invariant Links(Picked(al), content, 0) == out + Links(Picked(al), content, i)
      decreases |content| - i
    {
      var targets, next := ScanAt(al, content, i);
      out := out + targets;
      i := next;
    }
  }

  /** From position `j` on, `s` reads as `b`. */
  predicate ReadsAs(s: string, j: nat, b: string) {
    |s| == j + |b| && forall k :: 0 <= k < |b| ==> s[j + k] == b[k]
  }

  lemma PairShift(s: string, j: nat, b: string, k: nat, c: char)
    requires ReadsAs(s, j, b)
    ensures PairAt(s, j + k, c) <==> PairAt(b, k, c)
  {
    if k + 1 < |b| {
      assert s[j + k] == b[k] && s[j + (k + 1)] == b[k + 1];
    }
  }

  lemma {:induction false} CloseShift(s: string, j: nat, b: string, e: nat)
    requires ReadsAs(s, j, b) && e <= |b|
    ensures Close(s, j + e) == j + Close(b, e)
    decreases |b| - e
  {
    PairShift(s, j, b, e, ']');
    if e + 1 < |b| && !PairAt(b, e, ']') {
      CloseShift(s, j, b, e + 1);
    }
  }

  lemma ScanShift(pick: Pick, s: string, j: nat, b: string, i: nat)
    requires ReadsAs(s, j, b) && i + 1 < |b|
    ensures Scan(pick, s, j + i) == Found(Scan(pick, b, i).targets, j + Scan(pick, b, i).next)
  {
    PairShift(s, j, b, i, '[');
    if PairAt(b, i, '[') {
      CloseShift(s, j, b, i + 2);
      SameLink(s, j, b, i + 2, Close(b, i + 2));
    }
  }

  lemma SameLink(s: string, j: nat, b: string, from: nat, to: nat)
    requires ReadsAs(s, j, b) && from <= to <= |b|
    ensures s[j + from..j + to] == b[from..to]
  {
    forall k | 0 <= k < to - from
      ensures s[j + from..j + to][k] == b[from..to][k]
    {
      assert s[j + (from + k)] == b[from + k];
    }
  }

  lemma LinksStep(pick: Pick, s: string, i: nat, found: Found)
    requires i + 1 < |s| && found == Scan(pick, s, i)
    ensures Links(pick, s, i) == found.targets + Links(pick, s, found.next)
  {
  }

  lemma LinksEnd(pick: Pick, s: string, i: nat)
    requires i + 1 >= |s|
    ensures Links(pick, s, i) == []
  {
  }

  /** What comes before a position does not matter to it. */
  lemma {:induction false} LinksShift(pick: Pick, s: string, j: nat, b: string, i: nat)
    requires ReadsAs(s, j, b)
    ensures Links(pick, s, j + i) == Links(pick, b, i)
    decreases |b| - i
  {
    if i + 1 >= |b| {
      LinksEnd(pick, b, i);
      LinksEnd(pick, s, j + i);
    } else {
      var found := Scan(pick, b, i);
      ScanShift(pick, s, j, b, i);
      LinksShift(pick, s, j, b, found.next);
      LinksStep(pick, b, i, found);
      LinksStep(pick, s, j + i, Found(found.targets, j + found.next));
    }
  }

  lemma {:induction false} SkipTo(pick: Pick, s: string, i: nat, n: nat)
    requires i <= n <= |s| && forall k :: i <= k < n ==> !PairAt(s, k, '[')
    ensures Links(pick, s, i) == Links(pick, s, n)
    decreases n - i
  {
    if i < n {
      SkipTo(pick, s, i + 1, n);
      assert !PairAt(s, i, '[');
    }
  }

  /** Text without an opening pair, before a text that does not complete one. */
  lemma NoneOpens(text: string, rest: string)
    requires NoPair(text, '[') && (text != "" && rest != "" ==> text[|text| - 1] != '[')
    ensures forall k :: 0 <= k < |text| ==> !PairAt(text + rest, k, '[')
  {
    var s := text + rest;
    forall k | 0 <= k < |text|
      ensures !PairAt(s, k, '[')
    {
      assert s[k] == text[k] && (k + 1 < |text| ==> s[k + 1] == text[k + 1]);
    }
  }

  /** Text without an opening pair is passed over. */
  lemma PassOver(pick: Pick, text: string, rest: string)
    requires NoPair(text, '[') && (text != "" && rest != "" ==> text[|text| - 1] != '[')
    ensures Links(pick, text + rest, 0) == Links(pick, rest, 0)
  {
    NoneOpens(text, rest);
    SkipTo(pick, text + rest, 0, |text|);
    LinksShift(pick, text + rest, |text|, rest, 0);
  }

  /** A link text that ends where the writer ended it. */
  predicate Closed(link: string) {
    NoPair(link + "]", ']')
  }

  lemma CloseOfLink(link: string, rest: string)
    requires Closed(link)
    ensures Close("[[" + link + "]]" + rest, 2) == 2 + |link|
  {
    var s := "[[" + link + "]]" + rest;
    assert forall k :: 0 <= k < |link| ==> s[2 + k] == link[k];
    assert PairAt(s, 2 + |link|, ']');
    forall k | 2 <= k < 2 + |link|
      ensures !PairAt(s, k, ']')
    {
      assert (link + "]")[k - 2] == s[k] && (link + "]")[k - 1] == s[k + 1];
    }
  }

  lemma ScanLink(pick: Pick, link: string, rest: string)
    requires Closed(link)
    ensures Scan(pick, "[[" + link + "]]" + rest, 0)
         == Found(pick(link), |link| + 4)
  {
    var s := "[[" + link + "]]" + rest;
    CloseOfLink(link, rest);
    assert s[2..2 + |link|] == link;
  }

  lemma OneLink(pick: Pick, link: string, rest: string)
    requires Closed(link)
    ensures Links(pick, "[[" + link + "]]" + rest, 0)
         == pick(link) + Links(pick, rest, 0)
  {
    var s := "[[" + link + "]]" + rest;
    var open := "[[" + link + "]]";
    assert s == open + rest;
    LinksShift(pick, s, |open|, rest, 0);
    ScanLink(pick, link, rest);
    LinksStep(pick, s, 0, Found(pick(link), |open|));
  }

  /** A piece of a note: text, then a link, possibly with a display name. */
  datatype Piece = Piece(text: string, target: string, display: seq<string>) {
    function Link(): string {
      if |display| == 0 then target else target + "|" + display[0]
    }

    /** Text that opens nothing, and a link that is closed, usable and has this trimmed, pipe-free
        target. */
    predicate Printable(al: Alphabet) {
      && NoPair(text, '[') && (text != "" ==> text[|text| - 1] != '[')
      && Closed(Link()) && Usable(Link())
      && '|' !in target && Trimmed(al.white, target) == target
    }
  }

  function Render(pieces: seq<Piece>, tail: string): string {
    if |pieces| == 0 then tail
    else pieces[0].text + ("[[" + pieces[0].Link() + "]]" + Render(pieces[1..], tail))
  }

  function Targets(pieces: seq<Piece>): seq<string> {
    if |pieces| == 0 then [] else [pieces[0].target] + Targets(pieces[1..])
  }

  lemma {:induction false} BeforeFirstPipe(target: string, rest: string)
    requires '|' !in target
    ensures BeforePipe(target + "|" + rest) == target
    ensures BeforePipe(target) == target
  {
    if target != "" {
      var s := target + "|" + rest;
      assert s[1..] == target[1..] + "|" + rest;
      BeforeFirstPipe(target[1..], rest);
    }
  }

  /** Parsing what was rendered gives exactly the targets, in order. */
  lemma {:induction false} LinksOfRender(al: Alphabet, pieces: seq<Piece>, tail: string)
    requires forall k :: 0 <= k < |pieces| ==> pieces[k].Printable(al)
    requires NoPair(tail, '[')
    ensures Links(Picked(al), Render(pieces, tail), 0) == Targets(pieces)
  {
    if |pieces| == 0 {
      PassOver(Picked(al), tail, "");
      assert tail + "" == tail;
    } else {
      var p := pieces[0];
      var rest := Render(pieces[1..], tail);
      PassOver(Picked(al), p.text, "[[" + p.Link() + "]]" + rest);
      OneLink(Picked(al), p.Link(), rest);
      if |p.display| > 0 {
        BeforeFirstPipe(p.target, p.display[0]);
      } else {
        BeforeFirstPipe(p.target, "");
      }
      LinksOfRender(al, pieces[1..], tail);
    }
  }

  /** The targets that survive being written between brackets: exactly these. */
  predicate Nameable(al: Alphabet, t: string) {
    Usable(t) && Closed(t) && '|' !in t && Trimmed(al.white, t) == t
  }

  lemma LinkSurvivesIff(al: Alphabet, t: string)
    ensures Links(Picked(al), "[[" + t + "]]", 0) == [t] <==> Nameable(al, t)
  {
    if Closed(t) {
      ClosedGives(Picked(al), t);
      TargetIsItself(al, t);
    } else {
      UnclosedShorter(al, t, "[[" + t + "]]");
      assert t in [t];
    }
  }

  lemma ClosedGives(pick: Pick, t: string)
    requires Closed(t)
    ensures Links(pick, "[[" + t + "]]", 0) == pick(t)
  {
    OneLink(pick, t, "");
    assert "[[" + t + "]]" + "" == "[[" + t + "]]";
    assert pick(t) + [] == pick(t);
  }

  lemma TargetIsItself(al: Alphabet, t: string)
    ensures Target(al, t) == t <==> '|' !in t && Trimmed(al.white, t) == t
  {
    if '|' !in t {
      BeforeFirstPipe(t, "");
    }
  }

  predicate AllShorter(targets: seq<string>, n: nat) {
    forall x <- targets :: |x| < n
  }

  lemma PickedShort(al: Alphabet, link: string, n: nat)
    requires |link| < n
    ensures AllShorter(Picked(al)(link), n)
  {
  }

  lemma BothShorter(a: seq<string>, b: seq<string>, n: nat)
    requires AllShorter(a, n) && AllShorter(b, n)
    ensures AllShorter(a + b, n)
  {
  }

  /** A text with a closing pair of its own is cut there. */
  lemma UnclosedShorter(al: Alphabet, t: string, s: string)
    requires s == "[[" + t + "]]" && !Closed(t)
    ensures AllShorter(Links(Picked(al), s, 0), |t|)
  {
    var end := Close(s, 2);
    EarlyClose(t, s);
    assert PairAt(s, 0, '[') && |s| == |t| + 4;
    CutLink(al, t, s, end);
    ShortRest(al, s, end + 2, t);
    BothShorter(Picked(al)(s[2..end]), Links(Picked(al), s, end + 2), |t|);
  }

  lemma CutLink(al: Alphabet, t: string, s: string, end: nat)
    requires |s| == |t| + 4 && PairAt(s, 0, '[') && end == Close(s, 2) < 2 + |t|
    ensures AllShorter(Picked(al)(s[2..end]), |t|)
    ensures Links(Picked(al), s, 0) == Picked(al)(s[2..end]) + Links(Picked(al), s, end + 2)
  {
    PickedShort(al, s[2..end], |t|);
    LinksStep(Picked(al), s, 0, Found(Picked(al)(s[2..end]), end + 2));
  }

  lemma EarlyClose(t: string, s: string)
    requires s == "[[" + t + "]]" && !Closed(t)
    ensures 2 <= Close(s, 2) < 2 + |t|
  {
    var k :| 0 <= k < |t + "]"| - 1 && (t + "]")[k] == ']' && (t + "]")[k + 1] == ']';
    assert s[2 + k] == ']' && s[2 + k + 1] == ']';
    assert PairAt(s, 2 + k, ']');
  }

  lemma ShortScan(al: Alphabet, s: string, i: nat, t: string)
    requires |s| == |t| + 4 && i >= 4 && i + 1 < |s|
    ensures AllShorter(Scan(Picked(al), s, i).targets, |t|)
  {
    if PairAt(s, i, '[') && Close(s, i + 2) + 1 < |s| {
      PickedShort(al, s[i + 2..Close(s, i + 2)], |t|);
    }
  }

  /** Nothing found in the remainder is as long as the whole text. */
  lemma {:induction false} ShortRest(al: Alphabet, s: string, i: nat, t: string)
    requires |s| == |t| + 4 && i >= 4
    ensures AllShorter(Links(Picked(al), s, i), |t|)
    decreases |s| - i
  {
    if i + 1 < |s| {
      var found := Scan(Picked(al), s, i);
      ShortScan(al, s, i, t);
      ShortRest(al, s, found.next, t);
      LinksStep(Picked(al), s, i, found);
      BothShorter(found.targets, Links(Picked(al), s, found.next), |t|);
    }
  }
}
