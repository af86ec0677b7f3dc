/** The scanner that cuts a JSON object out of a model's reply (reflector.rs), against the JSON
    grammar of RFC 8259. */
module JsonScan {
  import opened Wrappers
  import opened Text

  /** The loop's variables. */
  datatype State = State(depth: int, inStr: bool, escape: bool)

  const START := State(0, false, false)

  function Step(st: State, ch: char): State {
    if st.escape then st.(escape := false)
    else if ch == '\\' && st.inStr then st.(escape := true)
    else if ch == '"' then st.(inStr := !st.inStr)
    else if st.inStr then st
    else if ch == '{' then st.(depth := st.depth + 1)
    else if ch == '}' then st.(depth := st.depth - 1)
    else st
  }

  /** The character closes the object: a brace outside strings that brings the depth to zero. */
  predicate Closes(st: State, ch: char) {
    !st.escape && !st.inStr && ch == '}' && st.depth == 1
  }

  function Steps(st: State, s: string): State {
    if s == "" then st else Step(Steps(st, s[..|s| - 1]), s[|s| - 1])
  }

  /** Where the object closes, scanning from position `i`. */
  function Closing(s: string, i: nat, st: State): (r: Option<nat>)
    ensures r.Some? ==> i <= r.value < |s| && s[r.value] == '}'
    decreases |s| - i
  {
    if i >= |s| then None
    else if Closes(st, s[i]) then Some(i)
    else Closing(s, i + 1, Step(st, s[i]))
  }

  /** The byte index of the first brace says how many characters are skipped, so a prefix with
      characters of several bytes makes the scan start late. */
  function Extract(s: string): Option<string> {
    match Find(s, '{')
    case None => None
    case Some(start) =>
      match Closing(s, Bytes(s[..start]), START)
      case None => None
      case Some(i) => Some(s[start..i + 1])
  }

  method ExtractFirstJsonObject(s: string) returns (r: Option<string>)
    ensures r == Extract(s)
  {
    var found := Find(s, '{');
    if found.None? {
      return None;
    }
    var start := found.value;
    BytesAtLeast(s[..start]);
    var depth, inStr, escape := 0, false, false;
    var i := Bytes(s[..start]);
    while i < |s|
      invariant Closing(s, Bytes(s[..start]), START) == Closing(s, i, State(depth, inStr, escape))
      invariant start <= i
      decreases |s| - i
    {
      var ch := s[i];
      if escape {
        escape := false;
        i := i + 1;
        continue;
      }
      if ch == '\\' && inStr {
        escape := true;
        i := i + 1;
        continue;
      }
      if ch == '"' {
        inStr := !inStr;
        i := i + 1;
        continue;
      }
      if inStr {
        i := i + 1;
        continue;
      }
      if ch == '{' {
        depth := depth + 1;
      }
      if ch == '}' {
        depth := depth - 1;
        if depth == 0 {
          return Some(s[start..i + 1]);
        }
      }
      i := i + 1;
    }
    return None;
  }

  predicate AllAscii(s: string) {
    forall k :: 0 <= k < |s| ==> IsAscii(s[k])
  }

  /** Bytes and characters agree exactly on ASCII. */
  lemma {:induction false} BytesAtLeast(s: string)
    ensures Bytes(s) >= |s|
    ensures Bytes(s) == |s| <==> AllAscii(s)
  {
    if s != "" {
      BytesAtLeast(s[1..]);
    }
  }

  // What the scanner returns.

  /** Balanced: not empty, and at depth zero outside strings at the end. */
  predicate Balanced(t: string) {
    t != "" && Steps(START, t) == START
  }

  /** Balanced, with no shorter beginning that is. */
  predicate Shortest(t: string) {
    Balanced(t) && forall n :: 0 < n < |t| ==> !Balanced(t[..n])
  }

  /** Inside the object: past the first brace, not yet closed. */
  predicate Inside(st: State) { st.depth >= 1 && (st.escape ==> st.inStr) }

  lemma StepInside(st: State, ch: char)
    requires Inside(st)
    ensures if Closes(st, ch) then Step(st, ch) == START else Inside(Step(st, ch))
  {
  }

  /** From inside, the closing position is the first at which the text is balanced. */
  lemma {:induction false} ClosingIsFirstBalance(s: string, start: nat, i: nat)
    requires start < i <= |s| && Inside(Steps(START, s[start..i]))
    requires forall n :: start < n <= i ==> !Balanced(s[start..n])
    ensures var r := Closing(s, i, Steps(START, s[start..i]));
            if r.Some? then r.value >= i && Balanced(s[start..r.value + 1])
                            && forall n :: start < n <= r.value ==> !Balanced(s[start..n])
            else forall n :: start < n <= |s| ==> !Balanced(s[start..n])
    decreases |s| - i
  {
    if i < |s| {
      var st := Steps(START, s[start..i]);
      StepInside(st, s[i]);
      var t := s[start..i + 1];
      assert t[..|t| - 1] == s[start..i];
      assert Steps(START, t) == Step(st, s[i]);
      if !Closes(st, s[i]) {
        assert !Balanced(t);
        ClosingIsFirstBalance(s, start, i + 1);
      }
    }
  }

  /** Balanced from `start` to just after `i`, and not before. */
  predicate FirstBalance(s: string, start: nat, i: nat)
    requires start <= i < |s|
  {
    Balanced(s[start..i + 1]) && forall n :: start < n <= i ==> !Balanced(s[start..n])
  }

  lemma ClosingFromBrace(s: string, start: nat)
    requires start < |s| && s[start] == '{'
    ensures var r := Closing(s, start, START);
            if r.Some? then FirstBalance(s, start, r.value)
            else forall n :: start < n <= |s| ==> !Balanced(s[start..n])
  {
    FirstBrace(s, start);
    ClosingIsFirstBalance(s, start, start + 1);
  }

  lemma FirstBalanceIsShortest(s: string, start: nat, i: nat)
    requires start <= i < |s| && FirstBalance(s, start, i)
    ensures Shortest(s[start..i + 1])
  {
    var t := s[start..i + 1];
    forall n | 0 < n < |t|
      ensures !Balanced(t[..n])
    {
      assert t[..n] == s[start..start + n];
    }
  }

  /** The shortest balanced text from `start`, or none if there is no balanced one. */
  predicate IsShortestFrom(s: string, start: nat, r: Option<string>)
    requires start <= |s|
  {
    match r
    case Some(t) => start + |t| <= |s| && t == s[start..start + |t|] && Shortest(t)
    case None => forall n :: start < n <= |s| ==> !Balanced(s[start..n])
  }

  function Cut(s: string, start: nat, closing: Option<nat>): Option<string>
    requires start <= |s| && (closing.Some? ==> start <= closing.value < |s|)
  {
    if closing.Some? then Some(s[start..closing.value + 1]) else None
  }

  lemma CutIsShortest(s: string, start: nat)
    requires start < |s| && s[start] == '{'
    ensures IsShortestFrom(s, start, Cut(s, start, Closing(s, start, START)))
  {
    var r := Closing(s, start, START);
    if r.Some? {
      ClosingIsShortest(s, start, r.value);
    } else {
      ClosingFromBrace(s, start);
    }
  }

  lemma ClosingIsShortest(s: string, start: nat, i: nat)
    requires start < |s| && s[start] == '{' && Closing(s, start, START) == Some(i)
    ensures Shortest(s[start..i + 1])
  {
    ClosingFromBrace(s, start);
    FirstBalanceIsShortest(s, start, i);
  }

  /** Behind an ASCII prefix, what comes back is the shortest balanced text from the first brace, and
      nothing comes back only if there is none. */
  lemma ExtractIsShortest(s: string, start: nat)
    requires Find(s, '{') == Some(start) && AllAscii(s[..start])
    ensures IsShortestFrom(s, start, Extract(s))
  {
    ExtractAscii(s, start);
    CutIsShortest(s, start);
  }

  lemma ExtractAscii(s: string, start: nat)
    requires Find(s, '{') == Some(start) && AllAscii(s[..start])
    ensures Extract(s) == Cut(s, start, Closing(s, start, START))
  {
    BytesAtLeast(s[..start]);
  }

  lemma FirstBrace(s: string, start: nat)
    requires start < |s| && s[start] == '{'
    ensures Steps(START, s[start..start + 1]) == State(1, false, false)
    ensures Closing(s, start, START) == Closing(s, start + 1, State(1, false, false))
  {
    var first := s[start..start + 1];
    assert first == "{" && first[..0] == "";
  }

  // Documents.

  predicate IsWhite(c: char) { c == ' ' || c == '\t' || c == '\n' || c == '\r' }

  predicate White(s: string) { forall k :: 0 <= k < |s| ==> IsWhite(s[k]) }

  predicate IsHex(c: char) { IsDigit(c) || 'a' <= c <= 'f' || 'A' <= c <= 'F' }

  /** A character of a string (section 7). */
  datatype StrChar = Plain(c: char) | Escape(e: char) | Unicode(hex: string) {
    predicate Wellformed() {
      match this
      case Plain(c) => c != '"' && c != '\\' && c as int >= 0x20
      case Escape(e) => e in "\"\\/bfnrt"
      case Unicode(hex) => |hex| == 4 && forall k :: 0 <= k < 4 ==> IsHex(hex[k])
    }

    function Text(): string {
      match this
      case Plain(c) => [c]
      case Escape(e) => ['\\', e]
      case Unicode(hex) => "\\u" + hex
    }
  }

  /** Values (section 3), with the white space between their tokens; `Bare` is one of the three names
      or a number. */
  datatype Value =
    | Bare(text: string)
    | Str(chars: seq<StrChar>)
    | Arr(pad: string, items: Items)
    | Obj(pad: string, members: Members)

  /** The items of an array (section 5). */
  datatype Items = NoItem | Item(before: string, value: Value, after: string, rest: Items)

  /** The members of an object (section 4). */
  datatype Members =
    | NoMember
    | Member(before: string, key: seq<StrChar>, beforeColon: string, afterColon: string, value: Value, after: string,
             rest: Members)

  predicate BareText(s: string) {
    s == "null" || s == "true" || s == "false" || (s != "" && forall k :: 0 <= k < |s| ==> NumberChar(s[k]))
  }

  predicate NumberChar(c: char) { IsDigit(c) || c == '-' || c == '+' || c == '.' || c == 'e' || c == 'E' }

  predicate WellformedChars(chars: seq<StrChar>) {
    forall k :: 0 <= k < |chars| ==> chars[k].Wellformed()
  }

  predicate Wellformed(v: Value) {
    match v
    case Bare(text) => BareText(text)
    case Str(chars) => WellformedChars(chars)
    case Arr(pad, items) => White(pad) && WellformedItems(items)
    case Obj(pad, members) => White(pad) && WellformedMembers(members)
  }

  predicate WellformedItems(items: Items) {
    match items
    case NoItem => true
    case Item(before, value, after, rest) =>
      White(before) && Wellformed(value) && White(after) && WellformedItems(rest)
  }

  predicate WellformedMembers(members: Members) {
    match members
    case NoMember => true
    case Member(before, key, beforeColon, afterColon, value, after, rest) =>
      && White(before) && WellformedChars(key) && White(beforeColon)
      && White(afterColon) && Wellformed(value) && White(after) && WellformedMembers(rest)
  }

  function CharsText(chars: seq<StrChar>): string {
    if |chars| == 0 then "" else chars[0].Text() + CharsText(chars[1..])
  }

  function Quoted(chars: seq<StrChar>): string { "\"" + CharsText(chars) + "\"" }

  function Render(v: Value): string {
    match v
    case Bare(text) => text
    case Str(chars) => Quoted(chars)
    case Arr(pad, items) => "[" + pad + RenderItems(items) + "]"
    case Obj(pad, members) => "{" + (pad + RenderMembers(members)) + "}"
  }

  function RenderItems(items: Items): string {
    match items
    case NoItem => ""
    case Item(before, value, after, rest) =>
      Format([before, Render(value), after, Comma(rest != NoItem), RenderItems(rest)])
  }

  function RenderMembers(members: Members): string {
    match members
    case NoMember => ""
    case Member(before, key, beforeColon, afterColon, value, after, rest) =>
      Format([before, Quoted(key), beforeColon, ":"])
      + Format([afterColon, Render(value), after, Comma(rest != NoMember), RenderMembers(rest)])
  }

  function Comma(more: bool): string { if more then "," else "" }

  // Documents under the scanner.

  /** From this state the text is read without closing anything, and the state comes back. */
  predicate Neutral(text: string, st: State) {
    Closing(text, 0, st) == None && Steps(st, text) == st
  }

  lemma {:induction false} StepsSplit(st: State, a: string, b: string)
    ensures Steps(st, a + b) == Steps(Steps(st, a), b)
  {
    if b == "" {
      assert a + b == a;
    } else {
      assert (a + b)[..|a + b| - 1] == a + b[..|b| - 1];
      StepsSplit(st, a, b[..|b| - 1]);
    }
  }

  lemma {:induction false} StepsFirst(st: State, s: string)
    requires s != ""
    ensures Steps(st, s) == Steps(Step(st, s[0]), s[1..])
  {
    assert s == [s[0]] + s[1..];
    StepsSplit(st, [s[0]], s[1..]);
    assert [s[0]][..0] == "";
  }

  /** What comes before or after a position's text does not matter to an unclosed scan of it. */
  lemma {:induction false} ClosingSplit(pre: string, text: string, post: string, i: nat, st: State)
    requires i <= |text|
    ensures Closing(text, i, st).Some? ==>
              Closing(pre + text + post, |pre| + i, st) == Some(|pre| + Closing(text, i, st).value)
    ensures Closing(text, i, st).None? ==>
              Closing(pre + text + post, |pre| + i, st) == Closing(pre + text + post, |pre| + |text|, Steps(st, text[i..]))
    decreases |text| - i
  {
    var s := pre + text + post;
    if i < |text| {
      assert s[|pre| + i] == text[i];
      if !Closes(st, text[i]) {
        ClosingSplit(pre, text, post, i + 1, Step(st, text[i]));
        StepsFirst(st, text[i..]);
        assert text[i..][1..] == text[i + 1..];
      }
    }
  }

  lemma NeutralConcat(a: string, b: string, st: State)
    requires Neutral(a, st) && Neutral(b, st)
    ensures Neutral(a + b, st)
  {
    StepsSplit(st, a, b);
    ClosingSplit("", a, b, 0, st);
    ClosingSplit(a, b, "", 0, st);
    assert "" + a + b == a + b && a + b + "" == a + b && a[0..] == a;
    assert Closing(a + b, |a| + |b|, Steps(st, b[0..])) == None;
  }

  /** Text without braces and quotes, outside strings. */
  lemma {:induction false} PlainNeutral(s: string, st: State)
    requires !st.inStr && !st.escape
    requires '{' !in s && '}' !in s && '"' !in s
    ensures Neutral(s, st)
  {
    if s != "" {
      PlainNeutral(s[1..], st);
      OneThenRest(s, st, st);
    }
  }

  /** One unclosing step, then the rest. */
  lemma OneThenRest(s: string, st: State, st': State)
    requires s != "" && !Closes(st, s[0]) && Step(st, s[0]) == st'
    ensures Closing(s, 0, st) == None <==> Closing(s[1..], 0, st') == None
    ensures Steps(st, s) == Steps(st', s[1..])
  {
    StepsFirst(st, s);
    ClosingSplit([s[0]], s[1..], "", 0, st');
    assert [s[0]] + s[1..] + "" == s;
    assert s[1..][0..] == s[1..];
  }

  /** Inside a string, string characters change nothing. */
  lemma {:induction false} CharsNeutral(chars: seq<StrChar>, st: State)
    requires st.inStr && !st.escape && WellformedChars(chars)
    ensures Neutral(CharsText(chars), st)
  {
    if |chars| > 0 {
      CharsNeutral(chars[1..], st);
      assert chars[0].Wellformed();
      CharNeutral(chars[0], st);
      NeutralConcat(chars[0].Text(), CharsText(chars[1..]), st);
    }
  }

  lemma CharNeutral(c: StrChar, st: State)
    requires st.inStr && !st.escape && c.Wellformed()
    ensures Neutral(c.Text(), st)
  {
    var s := c.Text();
    match c
    case Plain(_) =>
      assert s[1..] == "";
      OneThenRest(s, st, st);
    case Escape(_) =>
      assert s[1..][1..] == "";
      OneThenRest(s, st, st.(escape := true));
      OneThenRest(s[1..], st.(escape := true), st);
    case Unicode(hex) =>
      assert s[1..][1..] == hex;
      OneThenRest(s, st, st.(escape := true));
      OneThenRest(s[1..], st.(escape := true), st);
      HexNeutral(hex, st);
  }

  lemma {:induction false} HexNeutral(hex: string, st: State)
    requires st.inStr && !st.escape && forall k :: 0 <= k < |hex| ==> IsHex(hex[k])
    ensures Neutral(hex, st)
  {
    if hex != "" {
      HexNeutral(hex[1..], st);
      OneThenRest(hex, st, st);
    }
  }

  lemma QuotedNeutral(chars: seq<StrChar>, st: State)
    requires !st.inStr && !st.escape && WellformedChars(chars)
    ensures Neutral(Quoted(chars), st)
  {
    var open := st.(inStr := true);
    var body := CharsText(chars);
    CharsNeutral(chars, open);
    Wrapped("\"", body, "\"", st, open);
  }

  /** A neutral body between an opening and a closing character that undo one another. */
  lemma Wrapped(l: string, body: string, r: string, st: State, open: State)
    requires |l| == 1 && |r| == 1 && Step(st, l[0]) == open && Step(open, r[0]) == st
    requires Neutral(body, open) && !Closes(st, l[0]) && !Closes(open, r[0])
    ensures Neutral(l + body + r, st)
  {
    var s := l + body + r;
    assert s[1..] == body + r;
    OneThenRest(s, st, open);
    StepsSplit(open, body, r);
    assert r[..0] == "";
    ClosingSplit("", body, r, 0, open);
    assert "" + body + r == body + r && body[0..] == body;
    assert Closing(body + r, |body|, open) == None;
  }

  lemma WhiteNeutral(s: string, st: State)
    requires White(s) && !st.inStr && !st.escape
    ensures Neutral(s, st)
  {
    PlainNeutral(s, st);
  }

  predicate Between(st: State) { !st.inStr && !st.escape && st.depth >= 1 }

  /** Inside an object, any value is neutral. */
  lemma {:induction false} ValueNeutral(v: Value, st: State)
    requires Wellformed(v) && Between(st)
    ensures Neutral(Render(v), st)
  {
    match v
    case Bare(text) => PlainNeutral(text, st);
    case Str(chars) => QuotedNeutral(chars, st);
    case Arr(pad, items) =>
      ItemsNeutral(items, st);
      WhiteNeutral(pad, st);
      PlainNeutral("[", st);
      PlainNeutral("]", st);
      NeutralConcat("[", pad, st);
      NeutralConcat("[" + pad, RenderItems(items), st);
      NeutralConcat("[" + pad + RenderItems(items), "]", st);
    case Obj(pad, members) =>
      var open := st.(depth := st.depth + 1);
      MembersNeutral(members, open);
      WhiteNeutral(pad, open);
      NeutralConcat(pad, RenderMembers(members), open);
      Wrapped("{", pad + RenderMembers(members), "}", st, open);
  }

  lemma {:induction false} ItemsNeutral(items: Items, st: State)
    requires WellformedItems(items) && Between(st)
    ensures Neutral(RenderItems(items), st)
  {
    if items.Item? {
      ItemsNeutral(items.rest, st);
      ValueNeutral(items.value, st);
      PlacedNeutral(items.before, Render(items.value), items.after, items.rest != NoItem, RenderItems(items.rest), st);
    }
  }

  lemma {:induction false} NeutralAll(texts: seq<string>, st: State)
    requires forall k :: 0 <= k < |texts| ==> Neutral(texts[k], st)
    ensures Neutral(Format(texts), st)
  {
    if |texts| > 0 {
      NeutralAll(texts[1..], st);
      NeutralConcat(texts[0], Format(texts[1..]), st);
    }
  }

  lemma {:induction false} MembersNeutral(members: Members, st: State)
    requires WellformedMembers(members) && Between(st)
    ensures Neutral(RenderMembers(members), st)
  {
    if members.Member? {
      MembersNeutral(members.rest, st);
      ValueNeutral(members.value, st);
      KeyNeutral(members.before, members.key, members.beforeColon, st);
      PlacedNeutral(members.afterColon, Render(members.value), members.after, members.rest != NoMember,
                    RenderMembers(members.rest), st);
      NeutralConcat(
        Format([members.before, Quoted(members.key), members.beforeColon, ":"]),
        Format([members.afterColon, Render(members.value), members.after, Comma(members.rest != NoMember),
                RenderMembers(members.rest)]),
        st);
    }
  }

  lemma KeyNeutral(before: string, key: seq<StrChar>, after: string, st: State)
    requires White(before) && WellformedChars(key) && White(after) && Between(st)
    ensures Neutral(Format([before, Quoted(key), after, ":"]), st)
  {
    QuotedNeutral(key, st);
    WhiteNeutral(before, st);
    WhiteNeutral(after, st);
    PlainNeutral(":", st);
    NeutralAll([before, Quoted(key), after, ":"], st);
  }

  lemma PlacedNeutral(before: string, value: string, after: string, more: bool, rest: string, st: State)
    requires White(before) && White(after) && Between(st) && Neutral(value, st) && Neutral(rest, st)
    ensures Neutral(Format([before, value, after, Comma(more), rest]), st)
  {
    WhiteNeutral(before, st);
    WhiteNeutral(after, st);
    PlainNeutral(Comma(more), st);
    NeutralAll([before, value, after, Comma(more), rest], st);
  }

  lemma ObjectCloses(prefix: string, body: string, suffix: string)
    requires Neutral(body, State(1, false, false))
    ensures Closing(prefix + "{" + body + "}" + suffix, |prefix|, START) == Some(|prefix| + 1 + |body|)
  {
    var s := prefix + "{" + body + "}" + suffix;
    var open := State(1, false, false);
    assert s == (prefix + "{") + body + ("}" + suffix);
    ClosingSplit(prefix + "{", body, "}" + suffix, 0, open);
    assert body[0..] == body;
    assert s[|prefix|] == '{' && s[|prefix| + 1 + |body|] == '}';
  }

  lemma BodyNeutral(v: Value)
    requires v.Obj? && Wellformed(v)
    ensures Neutral(v.pad + RenderMembers(v.members), State(1, false, false))
  {
    MembersNeutral(v.members, State(1, false, false));
    WhiteNeutral(v.pad, State(1, false, false));
    NeutralConcat(v.pad, RenderMembers(v.members), State(1, false, false));
  }

  /** Behind an ASCII prefix without an opening brace, any printed object is returned exactly,
      whatever follows it. */
  lemma ExtractFindsObject(prefix: string, v: Value, suffix: string)
    requires '{' !in prefix && AllAscii(prefix) && v.Obj? && Wellformed(v)
    ensures Extract(prefix + Render(v) + suffix) == Some(Render(v))
  {
    var body := v.pad + RenderMembers(v.members);
    BodyNeutral(v);
    ExtractBetween(prefix, body, suffix);
    Rewrap(prefix, body, suffix);
  }

  lemma Rewrap(prefix: string, body: string, suffix: string)
    ensures prefix + ("{" + body + "}") + suffix == prefix + "{" + body + "}" + suffix
  {
  }

  lemma ExtractBetween(prefix: string, body: string, suffix: string)
    requires '{' !in prefix && AllAscii(prefix) && Neutral(body, State(1, false, false))
    ensures Extract(prefix + "{" + body + "}" + suffix) == Some("{" + body + "}")
  {
    var s := prefix + "{" + body + "}" + suffix;
    ObjectCloses(prefix, body, suffix);
    assert s[..|prefix|] == prefix;
    FindAfter(s, |prefix|, '{');
    BytesAtLeast(prefix);
    assert s[|prefix|..|prefix| + |body| + 2] == "{" + body + "}";
  }

  ghost predicate AlwaysFound(prefix: string) {
    forall v: Value, suffix: string :: v.Obj? && Wellformed(v) ==> FoundBehind(prefix, v, suffix)
  }

  predicate FoundBehind(prefix: string, v: Value, suffix: string) {
    Extract(prefix + Render(v) + suffix) == Some(Render(v))
  }

  /** A prefix without an opening brace leaves every object to be found exactly when it is ASCII. */
  lemma PrefixIsTransparentIff(prefix: string)
    requires '{' !in prefix
    ensures AlwaysFound(prefix) <==> AllAscii(prefix)
  {
    if AllAscii(prefix) {
      forall v: Value, suffix: string | v.Obj? && Wellformed(v)
        ensures FoundBehind(prefix, v, suffix)
      {
        ExtractFindsObject(prefix, v, suffix);
      }
    } else {
      var v := Obj("", NoMember);
      EmptyObjectLost(prefix);
      assert !FoundBehind(prefix, v, "");
    }
  }

  lemma EmptyObjectLost(prefix: string)
    requires '{' !in prefix && !AllAscii(prefix)
    ensures Extract(prefix + Render(Obj("", NoMember)) + "") == None
  {
    var s := prefix + Render(Obj("", NoMember)) + "";
    assert s == prefix + "{}";
    FindAfter(s, |prefix|, '{');
    assert s[..|prefix|] == prefix;
    BytesAtLeast(prefix);
    var from := Bytes(prefix);
    if from < |s| {
      assert s[from] == '}';
      assert Closing(s, from, START) == Closing(s, from + 1, State(-1, false, false)) == None;
    }
  }
}
