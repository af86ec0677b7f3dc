/** Skill files (skills.rs): printing to markdown with front matter, and parsing it back. */
module Skills {
  import opened Wrappers
  import opened Text

  datatype Skill = Skill(
    name: string,
    description: string,
    steps: string,
    category: string,
    createdAt: string,
    updatedAt: string,
    successes: U32,
    failures: U32,
    tags: seq<string>)

  const RULE := "---"

  /** The printed front matter, line by line. */
  function Entries(s: Skill): seq<(string, string)> {
    [("name", s.name), ("description", s.description), ("category", s.category), ("created", s.createdAt),
     ("updated", s.updatedAt), ("success_count", Decimal(s.successes)), ("fail_count", Decimal(s.failures)),
     ("tags", Join(s.tags, ", "))]
  }

  function EntryLines(entries: seq<(string, string)>): seq<string> {
    seq(|entries|, i requires 0 <= i < |entries| => EntryLine(entries[i]))
  }

  function EntryLine(e: (string, string)): string { e.0 + ": " + e.1 }

  function Printed(entries: seq<(string, string)>): string {
    "\n" + Join(EntryLines(entries), "\n") + "\n"
  }

  function ToMarkdown(s: Skill): string {
    RULE + Printed(Entries(s)) + RULE + "\n\n" + s.steps
  }

  // Parsing.

  predicate RuleAt(s: string, k: int) {
    0 <= k && k + 3 <= |s| && s[k] == '-' && s[k + 1] == '-' && s[k + 2] == '-'
  }

  predicate RuleFree(s: string) {
    forall k :: 0 <= k < |s| ==> !RuleAt(s, k)
  }

  /** The first rule at or after position `i`. */
  function FindRule(s: string, i: nat): (r: Option<nat>)
    ensures r.Some? ==> i <= r.value && RuleAt(s, r.value) && forall k :: i <= k < r.value ==> !RuleAt(s, k)
    ensures r.None? ==> forall k :: i <= k < |s| ==> !RuleAt(s, k)
    decreases |s| - i
  {
    if i >= |s| then None else if RuleAt(s, i) then Some(i) else FindRule(s, i + 1)
  }

  /** The second and third part of `splitn(3, "---")`, if there are three. */
  function Parts(content: string): Option<(string, string)> {
    match FindRule(content, 0)
    case None => None
    case Some(a) =>
      match FindRule(content, a + 3)
      case None => None
      case Some(b) => Some((content[a + 3..b], content[b + 3..]))
  }

  /** `str::lines`: split at line feeds, a carriage return before one and an empty last line dropped. */
  function Lines(s: string): seq<string> {
    var parts := SplitOn(s, '\n');
    var last := parts[|parts| - 1];
    WithoutReturns(parts[..|parts| - 1]) + if last == "" then [] else [last]
  }

  function WithoutReturn(line: string): string {
    if line != "" && line[|line| - 1] == '\r' then line[..|line| - 1] else line
  }

  function WithoutReturns(lines: seq<string>): seq<string> {
    seq(|lines|, i requires 0 <= i < |lines| => WithoutReturn(lines[i]))
  }

  function KeyValue(line: string): Option<(string, string)> {
    match Find(line, ':')
    case None => None
    case Some(k) => Some((Trim(line[..k]), Trim(line[k + 1..])))
  }

  function WithLine(fields: map<string, string>, line: string): map<string, string> {
    match KeyValue(line)
    case None => fields
    case Some((key, value)) => fields[key := value]
  }

  function Fields(lines: seq<string>): map<string, string> {
    if |lines| == 0 then map[] else WithLine(Fields(lines[..|lines| - 1]), lines[|lines| - 1])
  }

  function Field(fields: map<string, string>, key: string, default: string): string {
    if key in fields then fields[key] else default
  }

  function Count(fields: map<string, string>, key: string): U32 {
    if key in fields then ParseU32(fields[key]).UnwrapOr(0) else 0
  }

  /** Trimmed, the empty ones dropped. */
  function Cleaned(parts: seq<string>): seq<string> {
    if |parts| == 0 then []
    else (if Trim(parts[0]) == "" then [] else [Trim(parts[0])]) + Cleaned(parts[1..])
  }

  function TagsOf(fields: map<string, string>): seq<string> {
    if "tags" in fields then Cleaned(SplitOn(fields["tags"], ',')) else []
  }

  function FromFields(fields: map<string, string>, steps: string): Option<Skill> {
    if "name" !in fields then None
    else Some(Skill(
                fields["name"], Field(fields, "description", ""), steps, Field(fields, "category", "general"),
                Field(fields, "created", ""), Field(fields, "updated", ""),
                Count(fields, "success_count"), Count(fields, "fail_count"), TagsOf(fields)))
  }

  function FromMarkdown(content: string): Option<Skill> {
    match Parts(content)
    case None => None
    case Some((front, body)) => FromFields(Fields(Lines(Trim(front))), Trim(body))
  }

  method ParseSkill(content: string) returns (r: Option<Skill>)
    ensures r == FromMarkdown(content)
  {
    var parts := Parts(content);
    if parts.None? {
      return None;
    }
    var lines := Lines(Trim(parts.value.0));
    var steps := Trim(parts.value.1);
    var fields: map<string, string> := map[];
    for k := 0 to |lines|
      invariant fields == Fields(lines[..k])
    {
      assert lines[..k + 1][..k] == lines[..k];
      var entry := KeyValue(lines[k]);
      if entry.Some? {
        fields := fields[entry.value.0 := entry.value.1];
      }
    }
    assert lines[..|lines|] == lines;
    return FromFields(fields, steps);
  }

  // Which skills survive.

  /** A value that one line of front matter can carry. */
  predicate PrintableValue(v: string) {
    NoOuterWhitespace(v) && '\n' !in v && RuleFree(v)
  }

  predicate PrintableTag(t: string) {
    PrintableValue(t) && t != "" && ',' !in t
  }

  predicate PrintableTags(tags: seq<string>) {
    forall k :: 0 <= k < |tags| ==> PrintableTag(tags[k])
  }

  predicate Printable(s: Skill) {
    && PrintableValue(s.name) && PrintableValue(s.description) && PrintableValue(s.category)
    && PrintableValue(s.createdAt) && PrintableValue(s.updatedAt)
    && PrintableTags(s.tags)
    && NoOuterWhitespace(s.steps)
  }

  // Everything that is parsed is printable.

  lemma PieceRuleFree(p: string, s: string)
    requires PartOf(p, s) && RuleFree(s)
    ensures RuleFree(p)
  {
    var i, j :| IsPiece(p, s, i, j);
    forall k | 0 <= k < |p|
      ensures !RuleAt(p, k)
    {
      assert !RuleAt(s, i + k);
    }
  }

  /** A line of rule-free text: on one line, and free of rules. */
  predicate PlainLine(line: string) { '\n' !in line && RuleFree(line) }

  lemma LinesPlain(s: string)
    requires RuleFree(s)
    ensures forall k :: 0 <= k < |Lines(s)| ==> PlainLine(Lines(s)[k])
  {
    var parts := SplitOn(s, '\n');
    forall k | 0 <= k < |Lines(s)|
      ensures PlainLine(Lines(s)[k])
    {
      SplitParts(s, '\n', k);
      PieceRuleFree(parts[k], s);
      var line := Lines(s)[k];
      if k < |parts| - 1 && line != parts[k] {
        assert IsPiece(line, parts[k], 0, |line|);
        PieceRuleFree(line, parts[k]);
      }
    }
  }

  lemma KeyValuePrintable(line: string)
    requires PlainLine(line)
    ensures KeyValue(line).Some? ==> PrintableValue(KeyValue(line).value.1)
  {
    var found := Find(line, ':');
    if found.Some? {
      var rest := line[found.value + 1..];
      assert IsPiece(rest, line, found.value + 1, |line|);
      TrimPart(rest);
      PartOfPart(Trim(rest), rest, line);
      PieceRuleFree(Trim(rest), line);
    }
  }

  lemma {:induction false} FieldsPrintable(lines: seq<string>)
    requires forall k :: 0 <= k < |lines| ==> PlainLine(lines[k])
    ensures forall key :: key in Fields(lines) ==> PrintableValue(Fields(lines)[key])
  {
    if |lines| > 0 {
      FieldsPrintable(lines[..|lines| - 1]);
      KeyValuePrintable(lines[|lines| - 1]);
    }
  }

  lemma {:induction false} CleanedPrintable(parts: seq<string>)
    requires forall k :: 0 <= k < |parts| ==> PlainLine(parts[k]) && ',' !in parts[k]
    ensures PrintableTags(Cleaned(parts))
  {
    if |parts| > 0 {
      CleanedPrintable(parts[1..]);
      TrimPart(parts[0]);
      PieceRuleFree(Trim(parts[0]), parts[0]);
    }
  }

  lemma TagsPrintable(v: string)
    requires PlainLine(v)
    ensures PrintableTags(Cleaned(SplitOn(v, ',')))
  {
    var parts := SplitOn(v, ',');
    forall k | 0 <= k < |parts|
      ensures PlainLine(parts[k]) && ',' !in parts[k]
    {
      SplitParts(v, ',', k);
      PieceRuleFree(parts[k], v);
    }
    CleanedPrintable(parts);
  }

  lemma FrontRuleFree(content: string)
    ensures Parts(content).Some? ==> RuleFree(Parts(content).value.0)
  {
    if Parts(content).Some? {
      var a := FindRule(content, 0).value;
      var b := FindRule(content, a + 3).value;
      var front := content[a + 3..b];
      forall k | 0 <= k < |front|
        ensures !RuleAt(front, k)
      {
        assert !RuleAt(content, a + 3 + k);
      }
    }
  }

  lemma DefaultsPrintable()
    ensures PrintableValue("") && PrintableValue("general")
  {
    assert forall k :: 0 <= k < 7 ==> "general"[k] != '-';
  }

  lemma FromFieldsPrintable(fields: map<string, string>, steps: string)
    requires forall key :: key in fields ==> PrintableValue(fields[key])
    requires NoOuterWhitespace(steps)
    ensures FromFields(fields, steps).Some? ==> Printable(FromFields(fields, steps).value)
  {
    DefaultsPrintable();
    if "tags" in fields {
      TagsPrintable(fields["tags"]);
    }
  }

  lemma ParsedIsPrintable(content: string)
    ensures FromMarkdown(content).Some? ==> Printable(FromMarkdown(content).value)
  {
    if Parts(content).Some? {
      var (front, body) := Parts(content).value;
      FrontRuleFree(content);
      TrimPart(front);
      PieceRuleFree(Trim(front), front);
      LinesPlain(Trim(front));
      FieldsPrintable(Lines(Trim(front)));
      TrimPart(body);
      FromFieldsPrintable(Fields(Lines(Trim(front))), Trim(body));
    }
  }

  // Every printable skill is parsed back.

  lemma RuleFreeConcat(a: string, b: string)
    requires RuleFree(a) && RuleFree(b)
    requires a == "" || b == "" || a[|a| - 1] != '-' || b[0] != '-'
    ensures RuleFree(a + b)
  {
    forall k | 0 <= k < |a + b|
      ensures !RuleAt(a + b, k)
    {
      if k < |a| {
        assert !RuleAt(a, k);
      } else {
        assert !RuleAt(b, k - |a|);
      }
    }
  }

  lemma {:induction false} RuleFreeJoin(parts: seq<string>, sep: string)
    requires forall k :: 0 <= k < |parts| ==> RuleFree(parts[k])
    requires sep == "\n" || sep == ", "
    ensures RuleFree(Join(parts, sep))
  {
    if |parts| > 1 {
      RuleFreeJoin(parts[1..], sep);
      RuleFreeConcat(parts[0], sep);
      RuleFreeConcat(parts[0] + sep, Join(parts[1..], sep));
    }
  }

  /** A key of the front matter: no dash, colon, line feed or white space in it. */
  predicate PlainKey(key: string) {
    key != "" && forall k :: 0 <= k < |key| ==> key[k] != '-' && key[k] != ':' && !IsWhitespace(key[k])
  }

  predicate PrintableEntry(e: (string, string)) {
    PlainKey(e.0) && PrintableValue(e.1)
  }

  lemma EntryLinePlain(e: (string, string))
    requires PrintableEntry(e)
    ensures PlainLine(EntryLine(e))
  {
    assert RuleFree(e.0) && RuleFree(": ");
    RuleFreeConcat(e.0, ": ");
    RuleFreeConcat(e.0 + ": ", e.1);
    assert IsWhitespace('\n');
  }

  /** A line with a key and a value, whatever white space is between them. */
  lemma KeyValueOf(key: string, pad: string, v: string)
    requires PlainKey(key) && AllWhitespace(pad) && NoOuterWhitespace(v)
    ensures KeyValue(key + ":" + (pad + v)) == Some((key, v))
  {
    var line := key + ":" + (pad + v);
    assert line[..|key|] == key && line[|key| + 1..] == pad + v;
    FindAfter(line, |key|, ':');
    TrimBetween(pad, v, "");
    assert pad + v + "" == pad + v;
    TrimId(key);
  }

  predicate DistinctKeys(entries: seq<(string, string)>) {
    forall i, j :: 0 <= i < j < |entries| ==> entries[i].0 != entries[j].0
  }

  predicate LinesHold(lines: seq<string>, entries: seq<(string, string)>) {
    |lines| == |entries| && forall k :: 0 <= k < |lines| ==> KeyValue(lines[k]) == Some(entries[k])
  }

  lemma {:induction false} FieldsOfLines(lines: seq<string>, entries: seq<(string, string)>)
    requires LinesHold(lines, entries) && DistinctKeys(entries)
    ensures forall k :: 0 <= k < |entries| ==> entries[k].0 in Fields(lines) && Fields(lines)[entries[k].0] == entries[k].1
  {
    if |lines| > 0 {
      var n := |lines| - 1;
      FieldsOfLines(lines[..n], entries[..n]);
      forall k | 0 <= k < |entries|
        ensures entries[k].0 in Fields(lines) && Fields(lines)[entries[k].0] == entries[k].1
      {
        if k < n {
          assert entries[..n][k] == entries[k];
        }
      }
    }
  }

  /** The entry lines after the front matter is trimmed: a last line without a value loses its space. */
  function TrimmedLines(entries: seq<(string, string)>): seq<string>
    requires |entries| > 0
  {
    var n := |entries| - 1;
    EntryLines(entries[..n]) + [if entries[n].1 == "" then entries[n].0 + ":" else EntryLine(entries[n])]
  }

  predicate PrintableEntries(entries: seq<(string, string)>) {
    |entries| > 0 && forall k :: 0 <= k < |entries| ==> PrintableEntry(entries[k])
  }

  lemma TrimmedLinesHold(entries: seq<(string, string)>)
    requires PrintableEntries(entries)
    ensures LinesHold(TrimmedLines(entries), entries)
  {
    var lines := TrimmedLines(entries);
    forall k | 0 <= k < |lines|
      ensures KeyValue(lines[k]) == Some(entries[k])
    {
      var (key, v) := entries[k];
      assert PrintableEntry(entries[k]);
      if lines[k] == EntryLine(entries[k]) {
        KeyValueOf(key, " ", v);
        assert key + ":" + (" " + v) == lines[k];
      } else {
        KeyValueOf(key, "", "");
        assert key + ":" + ("" + "") == lines[k];
      }
    }
  }

  lemma {:induction false} JoinEnds(parts: seq<string>, sep: string)
    requires |parts| > 0 && parts[0] != "" && parts[|parts| - 1] != ""
    ensures var s := Join(parts, sep); var last := parts[|parts| - 1];
            s != "" && s[0] == parts[0][0] && s[|s| - 1] == last[|last| - 1]
  {
    if |parts| > 2 {
      var middle := parts[1..];
      JoinEndsAt(middle, sep);
    } else if |parts| == 2 {
      assert Join(parts[1..], sep) == parts[1];
    }
  }

  /** Only the end matters. */
  lemma {:induction false} JoinEndsAt(parts: seq<string>, sep: string)
    requires |parts| > 0 && parts[|parts| - 1] != ""
    ensures var s := Join(parts, sep); var last := parts[|parts| - 1];
            s != "" && s[|s| - 1] == last[|last| - 1]
  {
    if |parts| > 1 {
      JoinEndsAt(parts[1..], sep);
    }
  }

  /** Growing the last part grows the joined text. */
  lemma {:induction false} JoinGrows(front: seq<string>, last: string, more: string, sep: string)
    ensures Join(front + [last + more], sep) == Join(front + [last], sep) + more
  {
    if |front| > 0 {
      JoinGrows(front[1..], last, more, sep);
      assert (front + [last])[1..] == front[1..] + [last];
      assert (front + [last + more])[1..] == front[1..] + [last + more];
    }
  }

  lemma EntryLinesSplit(entries: seq<(string, string)>)
    requires |entries| > 0
    ensures EntryLines(entries) == EntryLines(entries[..|entries| - 1]) + [EntryLine(entries[|entries| - 1])]
  {
  }

  lemma TrimPrinted(entries: seq<(string, string)>)
    requires PrintableEntries(entries)
    ensures Trim(Printed(entries)) == Join(TrimmedLines(entries), "\n")
  {
    var n := |entries| - 1;
    var (key, v) := entries[n];
    var core := Join(TrimmedLines(entries), "\n");
    TrimmedEnds(entries);
    EntryLinesSplit(entries);
    if v == "" {
      assert EntryLine(entries[n]) == key + ":" + " ";
      JoinGrows(EntryLines(entries[..n]), key + ":", " ", "\n");
      TrimBetween("\n", core, " \n");
      assert Printed(entries) == "\n" + core + " \n";
    } else {
      TrimBetween("\n", core, "\n");
    }
  }

  lemma TrimmedEnds(entries: seq<(string, string)>)
    requires PrintableEntries(entries)
    ensures NoOuterWhitespace(Join(TrimmedLines(entries), "\n"))
  {
    var n := |entries| - 1;
    assert PrintableEntry(entries[0]) && PrintableEntry(entries[n]);
    var lines := TrimmedLines(entries);
    assert lines[0][0] == entries[0].0[0];
    JoinEnds(lines, "\n");
  }

  lemma LinesOfTrimmed(entries: seq<(string, string)>)
    requires PrintableEntries(entries)
    ensures Lines(Join(TrimmedLines(entries), "\n")) == TrimmedLines(entries)
  {
    var lines := TrimmedLines(entries);
    var n := |lines| - 1;
    forall k | 0 <= k < |lines|
      ensures '\n' !in lines[k] && lines[k] != "" && (k < n ==> WithoutReturn(lines[k]) == lines[k])
    {
      assert PrintableEntry(entries[k]);
      EntryLinePlain(entries[k]);
    }
    SplitOfJoin(lines, '\n');
    assert WithoutReturns(lines[..n]) == lines[..n];
  }

  lemma FieldsOfPrinted(entries: seq<(string, string)>)
    requires PrintableEntries(entries) && DistinctKeys(entries)
    ensures var fields := Fields(Lines(Trim(Printed(entries))));
            forall k :: 0 <= k < |entries| ==> entries[k].0 in fields && fields[entries[k].0] == entries[k].1
  {
    TrimPrinted(entries);
    LinesOfTrimmed(entries);
    TrimmedLinesHold(entries);
    FieldsOfLines(TrimmedLines(entries), entries);
  }

  lemma PrintedRuleFree(entries: seq<(string, string)>)
    requires PrintableEntries(entries)
    ensures RuleFree(Printed(entries))
  {
    var lines := EntryLines(entries);
    forall k | 0 <= k < |lines|
      ensures RuleFree(lines[k])
    {
      EntryLinePlain(entries[k]);
    }
    RuleFreeJoin(lines, "\n");
    RuleFreeConcat("\n", Join(lines, "\n"));
    RuleFreeConcat("\n" + Join(lines, "\n"), "\n");
  }

  /** Between two rules, rule-free text that ends its last line is cut out exactly. */
  lemma PartsBetween(front: string, body: string)
    requires RuleFree(front) && front != "" && front[0] != '-' && front[|front| - 1] != '-'
    ensures Parts(RULE + front + RULE + body) == Some((front, body))
  {
    var s := RULE + front + RULE + body;
    var end := 3 + |front|;
    assert RuleAt(s, 0) && RuleAt(s, end);
    forall k | 3 <= k < end
      ensures !RuleAt(s, k)
    {
      assert s[end - 1] == front[|front| - 1];
      if k + 2 < end {
        assert !RuleAt(front, k - 3);
        assert s[k] == front[k - 3] && s[k + 1] == front[k - 2] && s[k + 2] == front[k - 1];
      }
    }
    assert s[3..end] == front && s[end + 3..] == body;
  }

  // Tags and counts.

  /** The tags as a split at the commas gives them. */
  function Spaced(tags: seq<string>): seq<string> {
    seq(|tags|, i requires 0 <= i < |tags| => if i == 0 then tags[0] else " " + tags[i])
  }

  lemma {:induction false} JoinSpaced(tags: seq<string>)
    ensures Join(Spaced(tags), ",") == Join(tags, ", ")
  {
    if |tags| > 1 {
      JoinSpaced(tags[1..]);
      var rest := Spaced(tags[1..]);
      assert Spaced(tags)[1..] == [" " + tags[1]] + rest[1..];
      assert rest == [tags[1]] + rest[1..];
      JoinHead(" ", rest, ",");
    }
  }

  /** Prefixing the first part prefixes the joined text. */
  lemma JoinHead(pre: string, parts: seq<string>, sep: string)
    requires |parts| > 0
    ensures Join([pre + parts[0]] + parts[1..], sep) == pre + Join(parts, sep)
  {
    var prefixed := [pre + parts[0]] + parts[1..];
    assert prefixed[1..] == parts[1..];
  }

  lemma {:induction false} CleanedSpaced(parts: seq<string>, tags: seq<string>)
    requires |parts| == |tags| && PrintableTags(tags)
    requires forall k :: 0 <= k < |parts| ==> parts[k] == tags[k] || parts[k] == " " + tags[k]
    ensures Cleaned(parts) == tags
  {
    if |parts| > 0 {
      assert PrintableTag(tags[0]);
      TrimBetween("", tags[0], "");
      assert "" + tags[0] + "" == tags[0];
      TrimBetween(" ", tags[0], "");
      assert " " + tags[0] + "" == " " + tags[0];
      CleanedSpaced(parts[1..], tags[1..]);
    }
  }

  lemma TagsSurvive(tags: seq<string>)
    requires PrintableTags(tags)
    ensures Cleaned(SplitOn(Join(tags, ", "), ',')) == tags
  {
    if |tags| == 0 {
      assert SplitOn("", ',') == [""];
      assert Cleaned([""]) == [] by {
        assert [""][1..] == [];
      }
    } else {
      JoinSpaced(tags);
      forall k | 0 <= k < |tags|
        ensures ',' !in Spaced(tags)[k]
      {
        assert PrintableTag(tags[k]);
      }
      SplitOfJoin(Spaced(tags), ',');
      CleanedSpaced(Spaced(tags), tags);
    }
  }

  lemma {:induction false} JoinedTagsOneLine(tags: seq<string>)
    requires PrintableTags(tags)
    ensures '\n' !in Join(tags, ", ")
  {
    if |tags| > 1 {
      JoinedTagsOneLine(tags[1..]);
      assert PrintableTag(tags[0]);
    } else if |tags| == 1 {
      assert PrintableTag(tags[0]);
    }
  }

  lemma JoinedTagsPrintable(tags: seq<string>)
    requires PrintableTags(tags)
    ensures PrintableValue(Join(tags, ", "))
  {
    JoinedTagsOneLine(tags);
    forall k | 0 <= k < |tags|
      ensures RuleFree(tags[k])
    {
      assert PrintableTag(tags[k]);
    }
    RuleFreeJoin(tags, ", ");
    if |tags| > 0 {
      assert PrintableTag(tags[0]) && PrintableTag(tags[|tags| - 1]);
      JoinEnds(tags, ", ");
    }
  }

  lemma DecimalPrintable(n: U32)
    ensures PrintableValue(Decimal(n))
  {
    var s := Decimal(n);
    assert IsDigit(s[0]) && IsDigit(s[|s| - 1]);
    forall k | 0 <= k < |s|
      ensures !RuleAt(s, k) && s[k] != '\n'
    {
      assert IsDigit(s[k]);
    }
  }

  lemma EntriesPrintable(s: Skill)
    requires Printable(s)
    ensures PrintableEntries(Entries(s)) && DistinctKeys(Entries(s))
  {
    JoinedTagsPrintable(s.tags);
    DecimalPrintable(s.successes);
    DecimalPrintable(s.failures);
    TextKeysPlain();
    OtherKeysPlain();
    var entries := Entries(s);
    forall k | 0 <= k < |entries|
      ensures PrintableEntry(entries[k])
    {
    }
  }

  lemma TextKeysPlain()
    ensures PlainKey("name") && PlainKey("description") && PlainKey("category")
    ensures PlainKey("created") && PlainKey("updated")
  {
  }

  lemma OtherKeysPlain()
    ensures PlainKey("success_count") && PlainKey("fail_count") && PlainKey("tags")
  {
  }

  lemma FromFieldsOfSkill(s: Skill, fields: map<string, string>)
    requires PrintableTags(s.tags)
    requires forall k :: 0 <= k < 8 ==> Entries(s)[k].0 in fields && fields[Entries(s)[k].0] == Entries(s)[k].1
    ensures FromFields(fields, s.steps) == Some(s)
  {
    var e := Entries(s);
    assert fields[e[0].0] == e[0].1 && fields[e[1].0] == e[1].1 && fields[e[2].0] == e[2].1 && fields[e[3].0] == e[3].1;
    assert fields[e[4].0] == e[4].1 && fields[e[5].0] == e[5].1 && fields[e[6].0] == e[6].1 && fields[e[7].0] == e[7].1;
    ParseOfDecimal(s.successes);
    ParseOfDecimal(s.failures);
    TagsSurvive(s.tags);
  }

  lemma PrintableSurvives(s: Skill)
    requires Printable(s)
    ensures FromMarkdown(ToMarkdown(s)) == Some(s)
  {
    var entries := Entries(s);
    EntriesPrintable(s);
    PrintedRuleFree(entries);
    PartsBetween(Printed(entries), "\n\n" + s.steps);
    assert ToMarkdown(s) == RULE + Printed(entries) + RULE + ("\n\n" + s.steps);
    FieldsOfPrinted(entries);
    TrimBetween("\n\n", s.steps, "");
    assert "\n\n" + s.steps + "" == "\n\n" + s.steps;
    FromFieldsOfSkill(s, Fields(Lines(Trim(Printed(entries)))));
  }

  /** A skill is parsed back from its file as it was exactly when it is printable: one-line trimmed
      rule-free values, clean tags, trimmed steps. Steps may hold rules and values colons. */
  lemma RoundTripIff(s: Skill)
    ensures FromMarkdown(ToMarkdown(s)) == Some(s) <==> Printable(s)
  {
    if Printable(s) {
      PrintableSurvives(s);
    } else {
      ParsedIsPrintable(ToMarkdown(s));
    }
  }

  /** What was read from any file is read again unchanged after it is written back. */
  lemma SecondRoundTrip(content: string)
    ensures var r := FromMarkdown(content); r.Some? ==> FromMarkdown(ToMarkdown(r.value)) == r
  {
    ParsedIsPrintable(content);
    if FromMarkdown(content).Some? {
      PrintableSurvives(FromMarkdown(content).value);
    }
  }

  // The file, line by line.

  lemma {:induction false} LineInJoin(lines: seq<string>, k: nat)
    requires k < |lines|
    ensures HasPart("\n" + Join(lines, "\n") + "\n", "\n" + lines[k] + "\n")
    decreases k
  {
    var nl := "\n";
    if |lines| == 1 {
      assert "" + (nl + lines[0] + nl) + "" == nl + Join(lines, nl) + nl;
      PartBetween("", nl + lines[0] + nl, "");
    } else {
      var rest := Join(lines[1..], nl);
      if k == 0 {
        assert "" + (nl + lines[0] + nl) + (rest + nl) == nl + Join(lines, nl) + nl;
        PartBetween("", nl + lines[0] + nl, rest + nl);
      } else {
        LineInJoin(lines[1..], k - 1);
        assert (nl + lines[0]) + (nl + rest + nl) + "" == nl + Join(lines, nl) + nl;
        PartInside(nl + lines[0], nl + rest + nl, "", nl + lines[k] + nl);
      }
    }
  }

  lemma LineInPrinted(entries: seq<(string, string)>, k: nat, pre: string, post: string)
    requires k < |entries|
    ensures HasPart(pre + Printed(entries) + post, "\n" + (entries[k].0 + ": " + entries[k].1) + "\n")
  {
    LineInJoin(EntryLines(entries), k);
    PartInside(pre, Printed(entries), post, "\n" + EntryLines(entries)[k] + "\n");
  }

  /** The text has this line. */
  ghost predicate HasLine(text: string, key: string, value: string) {
    HasPart(text, "\n" + (key + ": " + value) + "\n")
  }

  /** The file of a skill has a line for each of its fields, in front of its steps. */
  lemma MarkdownSays(s: Skill)
    ensures var text := ToMarkdown(s);
            && HasLine(text, "name", s.name) && HasLine(text, "description", s.description)
            && HasLine(text, "category", s.category) && HasLine(text, "created", s.createdAt)
            && HasLine(text, "updated", s.updatedAt) && HasLine(text, "success_count", Decimal(s.successes))
            && HasLine(text, "fail_count", Decimal(s.failures)) && HasLine(text, "tags", Join(s.tags, ", "))
            && |text| >= |s.steps| && text[|text| - |s.steps|..] == s.steps
  {
    var entries, pre, post := Entries(s), RULE, RULE + "\n\n" + s.steps;
    assert ToMarkdown(s) == pre + Printed(entries) + post;
    LineInPrinted(entries, 0, pre, post);
    LineInPrinted(entries, 1, pre, post);
    LineInPrinted(entries, 2, pre, post);
    LineInPrinted(entries, 3, pre, post);
    LineInPrinted(entries, 4, pre, post);
    LineInPrinted(entries, 5, pre, post);
    LineInPrinted(entries, 6, pre, post);
    LineInPrinted(entries, 7, pre, post);
  }
}
