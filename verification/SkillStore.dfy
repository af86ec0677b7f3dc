/** The skill store (skills.rs): skills in memory, a file each in a directory, re-opened from it. */
module SkillStore {
  import opened Wrappers
  import opened Text
  import opened Skills

  function SanitisedChar(alphanumeric: char -> bool, c: char): char {
    if alphanumeric(c) || c == '-' || c == '_' then c else '_'
  }

  function Sanitised(alphanumeric: char -> bool, name: string): (r: string)
    ensures |r| == |name|
  {
    seq(|name|, i requires 0 <= i < |name| => SanitisedChar(alphanumeric, name[i]))
  }

  function FileOf(alphanumeric: char -> bool, name: string): string {
    Sanitised(alphanumeric, name) + ".md"
  }

  /** `Path::extension` is `md`: a name that is only the extension is a hidden file without one. */
  predicate MdFile(f: string) {
    |f| > 3 && f[|f| - 3..] == ".md"
  }

  /** How skills are put on disk: file names, texts, and which skills come back from them. */
  datatype Disk = Disk(
    file: string -> string,
    show: Skill -> string,
    read: string -> Option<Skill>,
    printable: Skill -> bool)
  {
    /** Only the empty name hides its file, and exactly the printable skills are read back. */
    ghost predicate Lawful() {
      && (forall name :: MdFile(file(name)) <==> name != "")
      && (forall s :: read(show(s)) == Some(s) <==> printable(s))
      && (forall text :: read(text).Some? ==> printable(read(text).value))
    }
  }

  function SkillDisk(alphanumeric: char -> bool): Disk {
    Disk(name => FileOf(alphanumeric, name), ToMarkdown, FromMarkdown, Printable)
  }

  lemma SkillDiskLawful(alphanumeric: char -> bool)
    ensures SkillDisk(alphanumeric).Lawful()
  {
    var disk := SkillDisk(alphanumeric);
    forall name
      ensures MdFile(disk.file(name)) <==> name != ""
    {
      var f := FileOf(alphanumeric, name);
      assert f[|f| - 3..] == ".md";
    }
    forall s
      ensures disk.read(disk.show(s)) == Some(s) <==> disk.printable(s)
    {
      RoundTripIff(s);
    }
    forall text
      ensures disk.read(text).Some? ==> disk.printable(disk.read(text).value)
    {
      ParsedIsPrintable(text);
    }
  }

  datatype Store = Store(skills: map<string, Skill>, files: map<string, string>)

  // Opening a directory.

  function WithFile(disk: Disk, skills: map<string, Skill>, files: map<string, string>, f: string): map<string, Skill> {
    if f in files && MdFile(f) then
      match disk.read(files[f])
      case None => skills
      case Some(skill) => skills[skill.name := skill]
    else skills
  }

  /** The skills read from the files in the order listed. */
  function Loaded(disk: Disk, files: map<string, string>, order: seq<string>): map<string, Skill> {
    if |order| == 0 then map[]
    else WithFile(disk, Loaded(disk, files, order[..|order| - 1]), files, order[|order| - 1])
  }

  /** The directory listed once, in some order. */
  predicate Listing(order: seq<string>, files: map<string, string>) {
    && (forall f <- files :: f in order) && (forall f <- order :: f in files)
    && (forall i, j :: 0 <= i < j < |order| ==> order[i] != order[j])
  }

  /** Re-opening gives the same skills, whatever order the directory is read in. */
  ghost predicate ReopensSame(disk: Disk, st: Store) {
    forall order :: Listing(order, st.files) ==> Loaded(disk, st.files, order) == st.skills
  }

  // What memory and directory have to do with one another.

  predicate Holds(disk: Disk, st: Store, f: string, n: string) {
    n in st.skills && f == disk.file(n) && f in st.files && st.files[f] == disk.show(st.skills[n])
  }

  /** Every skill is under its name and has a file; every file holds the print of one that it is for. */
  ghost predicate Written(disk: Disk, st: Store) {
    && (forall n :: n in st.skills ==> st.skills[n].name == n && disk.file(n) in st.files)
    && (forall f :: f in st.files ==> exists n :: Holds(disk, st, f, n))
  }

  predicate NoCollisions(disk: Disk, st: Store) {
    forall m, n :: m in st.skills && n in st.skills && disk.file(m) == disk.file(n) ==> m == n
  }

  predicate AllPrintable(disk: Disk, st: Store) {
    forall n :: n in st.skills ==> n != "" && disk.printable(st.skills[n])
  }

  /** What the store needs for its directory to be a faithful copy. */
  predicate Copied(disk: Disk, st: Store) {
    NoCollisions(disk, st) && AllPrintable(disk, st)
  }

  lemma FileGives(disk: Disk, st: Store, skills: map<string, Skill>, f: string, n: string)
    requires disk.Lawful() && Holds(disk, st, f, n) && n != "" && disk.printable(st.skills[n]) && st.skills[n].name == n
    ensures WithFile(disk, skills, st.files, f) == skills[n := st.skills[n]]
  {
  }

  /** A file's skill is the only one it is for. */
  lemma OneOwner(disk: Disk, st: Store, f: string, m: string, n: string)
    requires NoCollisions(disk, st) && m in st.skills && f == disk.file(m)
    ensures n in st.skills && disk.file(n) == f <==> n == m
  {
  }

  /** What the listed files have given for one name. */
  predicate LoadedRight(disk: Disk, st: Store, order: seq<string>, loaded: map<string, Skill>, n: string) {
    && (n in loaded <==> n in st.skills && disk.file(n) in order)
    && (n in loaded ==> loaded[n] == st.skills[n])
  }

  lemma {:induction false} LoadedAt(disk: Disk, st: Store, order: seq<string>, n: string)
    requires disk.Lawful() && Written(disk, st) && Copied(disk, st) && forall f <- order :: f in st.files
    ensures LoadedRight(disk, st, order, Loaded(disk, st.files, order), n)
  {
    if |order| > 0 {
      var front, f := order[..|order| - 1], order[|order| - 1];
      assert order == front + [f];
      assert f in order;
      LoadedAt(disk, st, front, n);
      var m :| Holds(disk, st, f, m);
      FileGives(disk, st, Loaded(disk, st.files, front), f, m);
      OneOwner(disk, st, f, m, n);
    }
  }

  lemma LoadedOfCopied(disk: Disk, st: Store, order: seq<string>)
    requires disk.Lawful() && Written(disk, st) && Copied(disk, st) && Listing(order, st.files)
    ensures Loaded(disk, st.files, order) == st.skills
  {
    forall n
      ensures n in Loaded(disk, st.files, order) <==> n in st.skills
      ensures n in st.skills ==> Loaded(disk, st.files, order)[n] == st.skills[n]
    {
      LoadedAt(disk, st, order, n);
      InListing(disk, st, order, n);
    }
  }

  lemma InListing(disk: Disk, st: Store, order: seq<string>, n: string)
    requires Written(disk, st) && Listing(order, st.files)
    ensures n in st.skills ==> disk.file(n) in order
  {
  }

  /** Every loaded skill was parsed from a listed file. */
  lemma {:induction false} LoadedFrom(disk: Disk, files: map<string, string>, order: seq<string>, n: string) returns (f: string)
    requires n in Loaded(disk, files, order)
    ensures f in files && MdFile(f) && disk.read(files[f]) == Some(Loaded(disk, files, order)[n])
  {
    var front, last := order[..|order| - 1], order[|order| - 1];
    if last in files && MdFile(last) && disk.read(files[last]).Some? && disk.read(files[last]).value.name == n {
      f := last;
    } else {
      f := LoadedFrom(disk, files, front, n);
    }
  }

  /** Every loaded skill is under its own name. */
  lemma {:induction false} LoadedNames(disk: Disk, files: map<string, string>, order: seq<string>)
    ensures forall n :: n in Loaded(disk, files, order) ==> Loaded(disk, files, order)[n].name == n
  {
    if |order| > 0 {
      LoadedNames(disk, files, order[..|order| - 1]);
    }
  }

  lemma {:induction false} ListingExists(keys: set<string>) returns (order: seq<string>)
    ensures forall f :: f in keys <==> f in order
    ensures forall i, j :: 0 <= i < j < |order| ==> order[i] != order[j]
    decreases |keys|
  {
    if keys == {} {
      return [];
    }
    var f :| f in keys;
    var rest := ListingExists(keys - {f});
    order := rest + [f];
  }

  /** A store that re-opens the same has only printable skills, each read from its own file. */
  lemma EachFromItsOwn(disk: Disk, st: Store, order: seq<string>, n: string)
    requires disk.Lawful() && Written(disk, st) && Loaded(disk, st.files, order) == st.skills && n in st.skills
    ensures n != "" && disk.printable(st.skills[n]) && Holds(disk, st, disk.file(n), n)
  {
    var f := LoadedFrom(disk, st.files, order, n);
    var m :| Holds(disk, st, f, m);
    var g := LoadedFrom(disk, st.files, order, m);
    assert st.skills[m] == st.skills[n];
    assert m == n;
  }

  /** A written store re-opens the same exactly when no two names share a file name, no name is empty
      and every skill is printable. */
  lemma ReopensSameIff(disk: Disk, st: Store)
    requires disk.Lawful() && Written(disk, st)
    ensures ReopensSame(disk, st) <==> Copied(disk, st)
  {
    if Copied(disk, st) {
      forall order | Listing(order, st.files)
        ensures Loaded(disk, st.files, order) == st.skills
      {
        LoadedOfCopied(disk, st, order);
      }
    }
    if ReopensSame(disk, st) {
      var order := ListingExists(st.files.Keys);
      assert Listing(order, st.files);
      forall n | n in st.skills
        ensures n != "" && disk.printable(st.skills[n]) && Holds(disk, st, disk.file(n), n)
      {
        EachFromItsOwn(disk, st, order, n);
      }
      forall m, n | m in st.skills && n in st.skills && disk.file(m) == disk.file(n)
        ensures m == n
      {
      }
    }
  }

  // Operations.

  /** `+= 1` in 32 bits, wrapping. */
  function Incremented(n: U32): U32 {
    (n + 1) % 0x1_0000_0000
  }

  datatype Op =
    | Create(name: string, description: string, steps: string, category: string, tags: seq<string>, now: string)
    | Improve(name: string, steps: string, now: string)
    | Outcome(name: string, success: bool, now: string)
    | Delete(name: string)

  function Fresh(op: Op): Skill
    requires op.Create?
  {
    Skill(op.name, op.description, op.steps, op.category, op.now, op.now, 0, 0, op.tags)
  }

  function Changed(skill: Skill, op: Op): Skill
    requires op.Improve? || op.Outcome?
  {
    match op
    case Improve(_, steps, now) => skill.(steps := steps, updatedAt := now)
    case Outcome(_, success, now) =>
      if success then skill.(successes := Incremented(skill.successes), updatedAt := now)
      else skill.(failures := Incremented(skill.failures), updatedAt := now)
  }

  function Put(disk: Disk, st: Store, name: string, skill: Skill): Store {
    Store(st.skills[name := skill], st.files[disk.file(skill.name) := disk.show(skill)])
  }

  /** An operation whose file access succeeds. */
  function Applied(disk: Disk, st: Store, op: Op): Store {
    match op
    case Create(name, _, _, _, _, _) => Put(disk, st, name, Fresh(op))
    case Improve(name, _, _) => if name in st.skills then Put(disk, st, name, Changed(st.skills[name], op)) else st
    case Outcome(name, _, _) => if name in st.skills then Put(disk, st, name, Changed(st.skills[name], op)) else st
    case Delete(name) =>
      if name in st.skills then Store(st.skills - {name}, st.files - {disk.file(name)}) else st
  }

  function Ran(disk: Disk, st: Store, ops: seq<Op>): Store
    decreases |ops|
  {
    if |ops| == 0 then st else Applied(disk, Ran(disk, st, ops[..|ops| - 1]), ops[|ops| - 1])
  }

  /** What an operation makes of printable skills is printable. */
  ghost predicate KeepsPrintable(disk: Disk, op: Op) {
    match op
    case Create(name, _, _, _, _, _) => name != "" && disk.printable(Fresh(op))
    case Delete(_) => true
    case _ => forall s :: disk.printable(s) ==> disk.printable(Changed(s, op))
  }

  ghost predicate AllKeepPrintable(disk: Disk, ops: seq<Op>) {
    forall op <- ops :: KeepsPrintable(disk, op)
  }

  /** The texts an operation brings in can be put in a file. */
  predicate PrintableOp(op: Op) {
    match op
    case Create(name, description, steps, category, tags, now) =>
      && name != "" && PrintableValue(name) && PrintableValue(description) && PrintableValue(category)
      && PrintableValue(now) && PrintableTags(tags) && NoOuterWhitespace(steps)
    case Improve(_, steps, now) => PrintableValue(now) && NoOuterWhitespace(steps)
    case Outcome(_, _, now) => PrintableValue(now)
    case Delete(_) => true
  }

  lemma PrintableOpKeeps(alphanumeric: char -> bool, op: Op)
    ensures PrintableOp(op) ==> KeepsPrintable(SkillDisk(alphanumeric), op)
  {
  }

  function Created(ops: seq<Op>): set<string> {
    set op | op in ops && op.Create? :: op.name
  }

  /** Names that are created have file names of their own. */
  predicate Apart(disk: Disk, ops: seq<Op>) {
    forall m, n :: m in Created(ops) && n in Created(ops) && disk.file(m) == disk.file(n) ==> m == n
  }

  lemma HeldAfterPut(disk: Disk, st: Store, st': Store, name: string, skill: Skill, text: string, f: string)
    requires Written(disk, st) && skill.name == name && text == disk.show(skill)
    requires forall n :: n in st.skills && n != name ==> disk.file(n) != disk.file(name)
    requires st' == Store(st.skills[name := skill], st.files[disk.file(name) := text]) && f in st'.files
    ensures exists n :: Holds(disk, st', f, n)
  {
    if f == disk.file(name) {
      assert Holds(disk, st', f, name);
    } else {
      var n :| Holds(disk, st, f, n);
      assert n != name;
      assert Holds(disk, st', f, n);
    }
  }

  lemma PutKeepsWritten(disk: Disk, st: Store, name: string, skill: Skill)
    requires Written(disk, st) && skill.name == name
    requires forall n :: n in st.skills && n != name ==> disk.file(n) != disk.file(name)
    ensures Written(disk, Put(disk, st, name, skill))
  {
    var text := disk.show(skill);
    var st' := Store(st.skills[name := skill], st.files[disk.file(name) := text]);
    forall f | f in st'.files
      ensures exists n :: Holds(disk, st', f, n)
    {
      HeldAfterPut(disk, st, st', name, skill, text, f);
    }
    assert forall n :: n in st'.skills ==> st'.skills[n].name == n && disk.file(n) in st'.files;
    assert st' == Put(disk, st, name, skill);
  }

  lemma PutKeepsCopied(disk: Disk, st: Store, name: string, skill: Skill)
    requires Copied(disk, st) && name != "" && disk.printable(skill)
    requires forall n :: n in st.skills && n != name ==> disk.file(n) != disk.file(name)
    ensures Copied(disk, Put(disk, st, name, skill))
  {
  }

  lemma HeldAfterDelete(disk: Disk, st: Store, st': Store, name: string, f: string)
    requires Written(disk, st) && NoCollisions(disk, st) && name in st.skills
    requires st' == Store(st.skills - {name}, st.files - {disk.file(name)}) && f in st'.files
    ensures exists n :: Holds(disk, st', f, n)
  {
    var n :| Holds(disk, st, f, n);
    assert n != name;
    assert Holds(disk, st', f, n);
  }

  lemma DeleteKeepsWritten(disk: Disk, st: Store, name: string)
    requires Written(disk, st) && NoCollisions(disk, st) && name in st.skills
    ensures Written(disk, Store(st.skills - {name}, st.files - {disk.file(name)}))
  {
    var st' := Store(st.skills - {name}, st.files - {disk.file(name)});
    forall f | f in st'.files
      ensures exists n :: Holds(disk, st', f, n)
    {
      HeldAfterDelete(disk, st, st', name, f);
    }
    forall n | n in st'.skills
      ensures st'.skills[n].name == n && disk.file(n) in st'.files
    {
      assert n in st.skills && disk.file(n) != disk.file(name);
    }
  }

  lemma DeleteKeepsCopied(disk: Disk, st: Store, name: string)
    requires Copied(disk, st)
    ensures Copied(disk, Store(st.skills - {name}, st.files - {disk.file(name)}))
  {
  }

  lemma AppliedKeepsWritten(disk: Disk, st: Store, op: Op)
    requires Written(disk, st) && Copied(disk, st) && KeepsPrintable(disk, op)
    requires op.Create? ==> forall n :: n in st.skills && n != op.name ==> disk.file(n) != disk.file(op.name)
    ensures Written(disk, Applied(disk, st, op)) && Copied(disk, Applied(disk, st, op))
  {
    match op
    case Create(name, _, _, _, _, _) =>
      PutKeepsWritten(disk, st, name, Fresh(op));
      PutKeepsCopied(disk, st, name, Fresh(op));
    case Delete(name) =>
      if name in st.skills {
        DeleteKeepsWritten(disk, st, name);
        DeleteKeepsCopied(disk, st, name);
      }
    case _ =>
      if op.name in st.skills {
        PutKeepsWritten(disk, st, op.name, Changed(st.skills[op.name], op));
        PutKeepsCopied(disk, st, op.name, Changed(st.skills[op.name], op));
      }
  }

  lemma AppliedNames(disk: Disk, st: Store, op: Op, names: set<string>)
    requires st.skills.Keys <= names && (op.Create? ==> op.name in names)
    ensures Applied(disk, st, op).skills.Keys <= names
  {
  }

  lemma {:induction false} RunKeepsWritten(disk: Disk, ops: seq<Op>)
    requires Apart(disk, ops) && AllKeepPrintable(disk, ops)
    ensures var st := Ran(disk, Store(map[], map[]), ops);
            && Written(disk, st) && Copied(disk, st)
            && st.skills.Keys <= Created(ops)
    decreases |ops|
  {
    if |ops| > 0 {
      var n := |ops| - 1;
      var front, op := ops[..n], ops[n];
      RunKeepsWritten(disk, front);
      var before := Ran(disk, Store(map[], map[]), front);
      assert ops == front + [op];
      AppliedNames(disk, before, op, Created(ops));
      AppliedKeepsWritten(disk, before, op);
    }
  }

  lemma RunReopensSame(disk: Disk, ops: seq<Op>)
    requires disk.Lawful() && Apart(disk, ops) && AllKeepPrintable(disk, ops)
    ensures ReopensSame(disk, Ran(disk, Store(map[], map[]), ops))
  {
    RunKeepsWritten(disk, ops);
    ReopensSameIff(disk, Ran(disk, Store(map[], map[]), ops));
  }

  /** After any operations from an empty directory, with texts that files can carry and names that keep
      their file names apart, re-opening the directory gives the same store. */
  lemma SkillsSurviveReopening(alphanumeric: char -> bool, ops: seq<Op>)
    requires Apart(SkillDisk(alphanumeric), ops) && forall op <- ops :: PrintableOp(op)
    ensures ReopensSame(SkillDisk(alphanumeric), Ran(SkillDisk(alphanumeric), Store(map[], map[]), ops))
  {
    var disk := SkillDisk(alphanumeric);
    SkillDiskLawful(alphanumeric);
    forall op | op in ops
      ensures KeepsPrintable(disk, op)
    {
      PrintableOpKeeps(alphanumeric, op);
    }
    RunReopensSame(disk, ops);
  }

  /** Two names with one file name: the second overwrites the first's file, and deleting the first
      deletes the second's. */
  lemma CollisionLosesSkills(disk: Disk, first: Op, second: Op)
    requires first.Create? && second.Create? && first.name != second.name && disk.file(first.name) == disk.file(second.name)
    requires disk.Lawful()
    ensures var both := Applied(disk, Applied(disk, Store(map[], map[]), first), second);
            && |both.skills| == 2 && |both.files| == 1 && !ReopensSame(disk, both)
            && Applied(disk, both, Delete(first.name)) == Store(map[second.name := Fresh(second)], map[])
  {
    TwoInOneFile(disk, Fresh(first), Fresh(second));
  }

  lemma TwoInOneFile(disk: Disk, a: Skill, b: Skill)
    requires a.name != b.name && disk.file(a.name) == disk.file(b.name) && disk.Lawful()
    ensures var both := Put(disk, Put(disk, Store(map[], map[]), a.name, a), b.name, b);
            && |both.skills| == 2 && |both.files| == 1 && !ReopensSame(disk, both)
            && both.skills - {a.name} == map[b.name := b] && both.files - {disk.file(a.name)} == map[]
  {
    var both := Put(disk, Put(disk, Store(map[], map[]), a.name, a), b.name, b);
    var f, text := disk.file(a.name), disk.show(b);
    assert both.skills == map[a.name := a, b.name := b];
    assert both.files == map[f := text];
    assert both.skills.Keys == {a.name, b.name} && both.files.Keys == {f};
    OneFileForTwo(disk, both, a.name, b.name);
  }

  lemma OneFileForTwo(disk: Disk, st: Store, a: string, b: string)
    requires a != b && disk.file(a) == disk.file(b) && disk.Lawful() && st.skills.Keys == {a, b}
    requires st.skills[a].name == a && st.skills[b].name == b && st.files == map[disk.file(b) := disk.show(st.skills[b])]
    ensures !ReopensSame(disk, st)
  {
    assert Holds(disk, st, disk.file(b), b);
    assert a in st.skills && b in st.skills;
    assert !NoCollisions(disk, st);
    ReopensSameIff(disk, st);
  }

  /** Such names exist: a space and an underscore look the same in a file name. */
  lemma CollidingNames(alphanumeric: char -> bool)
    requires alphanumeric('a') && alphanumeric('b') && !alphanumeric(' ')
    ensures SkillDisk(alphanumeric).file("a b") == SkillDisk(alphanumeric).file("a_b")
  {
    assert Sanitised(alphanumeric, "a b") == Sanitised(alphanumeric, "a_b");
  }

  // What a run leaves of one skill.

  /** How often an outcome of this kind was recorded for the name. */
  function Outcomes(ops: seq<Op>, name: string, success: bool): nat {
    if |ops| == 0 then 0
    else
      var op := ops[|ops| - 1];
      Outcomes(ops[..|ops| - 1], name, success)
      + (if op.Outcome? && op.name == name && op.success == success then 1 else 0)
  }

  /** The operation starts or ends the skill's life. */
  predicate BirthOrEnd(op: Op, name: string) {
    op.name == name && (op.Create? || op.Delete?)
  }

  /** The skill was created by operation `i` and has been there since. */
  predicate LivesSince(ops: seq<Op>, i: nat, name: string) {
    && i < |ops| && ops[i].Create? && ops[i].name == name
    && forall j :: i < j < |ops| ==> !BirthOrEnd(ops[j], name)
  }

  /** The last operation on the name that is one of these. */
  predicate LastOf(ops: seq<Op>, k: nat, name: string, among: Op -> bool) {
    && k < |ops| && ops[k].name == name && among(ops[k])
    && forall j :: k < j < |ops| ==> !(ops[j].name == name && among(ops[j]))
  }

  /** What it says: as it was created, but for the steps of the last improvement, the time of the last
      operation on it, and the outcomes since, counted in 32 bits. */
  ghost predicate Remembers(ops: seq<Op>, i: nat, skill: Skill)
    requires i < |ops| && ops[i].Create?
  {
    var born := ops[i];
    && skill.name == born.name && skill.description == born.description && skill.category == born.category
    && skill.tags == born.tags && skill.createdAt == born.now
    && Counted(ops[i + 1..], skill)
    && LastSteps(ops, born.name, skill.steps)
    && LastTime(ops, born.name, skill.updatedAt)
  }

  predicate Counted(ops: seq<Op>, skill: Skill) {
    && skill.successes == Outcomes(ops, skill.name, true) % 0x1_0000_0000
    && skill.failures == Outcomes(ops, skill.name, false) % 0x1_0000_0000
  }

  ghost predicate LastSteps(ops: seq<Op>, name: string, steps: string) {
    forall k: nat :: LastOf(ops, k, name, GivesSteps) ==> steps == ops[k].steps
  }

  ghost predicate LastTime(ops: seq<Op>, name: string, time: string) {
    forall k: nat :: LastOf(ops, k, name, GivesTime) ==> time == ops[k].now
  }

  predicate GivesSteps(op: Op) { op.Create? || op.Improve? }

  predicate GivesTime(op: Op) { !op.Delete? }

  lemma LastOfFront(ops: seq<Op>, op: Op, k: nat, name: string, among: Op -> bool)
    requires LastOf(ops + [op], k, name, among)
    ensures op.name == name && among(op) ==> k == |ops|
    ensures !(op.name == name && among(op)) ==> LastOf(ops, k, name, among)
  {
    var all := ops + [op];
    assert all[|ops|] == op;
    assert forall j :: 0 <= j < |ops| ==> all[j] == ops[j];
  }

  lemma IncrementedCount(n: nat)
    ensures Incremented(n % 0x1_0000_0000) == (n + 1) % 0x1_0000_0000
  {
  }

  lemma CountedMore(ops: seq<Op>, op: Op, skill: Skill)
    requires Counted(ops, skill) && !BirthOrEnd(op, skill.name)
    ensures Counted(ops + [op], if op.name == skill.name then Changed(skill, op) else skill)
  {
    assert (ops + [op])[..|ops|] == ops;
    IncrementedCount(Outcomes(ops, skill.name, true));
    IncrementedCount(Outcomes(ops, skill.name, false));
  }

  lemma StepsMore(ops: seq<Op>, op: Op, name: string, steps: string)
    requires (op.name == name && GivesSteps(op)) || LastSteps(ops, name, steps)
    ensures LastSteps(ops + [op], name, if op.name == name && GivesSteps(op) then op.steps else steps)
  {
    forall k: nat | LastOf(ops + [op], k, name, GivesSteps)
      ensures (ops + [op])[k].steps == if op.name == name && GivesSteps(op) then op.steps else steps
    {
      LastOfFront(ops, op, k, name, GivesSteps);
    }
  }

  lemma TimeMore(ops: seq<Op>, op: Op, name: string, time: string)
    requires (op.name == name && GivesTime(op)) || LastTime(ops, name, time)
    ensures LastTime(ops + [op], name, if op.name == name && GivesTime(op) then op.now else time)
  {
    forall k: nat | LastOf(ops + [op], k, name, GivesTime)
      ensures (ops + [op])[k].now == if op.name == name && GivesTime(op) then op.now else time
    {
      LastOfFront(ops, op, k, name, GivesTime);
    }
  }

  /** One more operation on a skill that stays. */
  lemma RemembersMore(ops: seq<Op>, op: Op, i: nat, skill: Skill)
    requires i < |ops| && ops[i].Create? && Remembers(ops, i, skill) && !BirthOrEnd(op, ops[i].name)
    ensures Remembers(ops + [op], i, if op.name == ops[i].name then Changed(skill, op) else skill)
  {
    var name := ops[i].name;
    assert (ops + [op])[i + 1..] == ops[i + 1..] + [op];
    CountedMore(ops[i + 1..], op, skill);
    StepsMore(ops, op, name, skill.steps);
    TimeMore(ops, op, name, skill.updatedAt);
  }

  /** A skill just created. */
  lemma RemembersBirth(ops: seq<Op>, op: Op)
    requires op.Create?
    ensures Remembers(ops + [op], |ops|, Fresh(op))
  {
    assert (ops + [op])[|ops| + 1..] == [] && (ops + [op])[|ops|] == op;
    StepsMore(ops, op, op.name, op.steps);
    TimeMore(ops, op, op.name, op.now);
  }

  /** After any operations a name has a skill exactly when it was created and not deleted since, and the
      skill says what was recorded of it since then. */
  lemma {:induction false} RunRemembers(disk: Disk, ops: seq<Op>, name: string)
    ensures var skills := Ran(disk, Store(map[], map[]), ops).skills;
            && (name in skills <==> exists i: nat :: LivesSince(ops, i, name))
            && (forall i: nat :: LivesSince(ops, i, name) ==> name in skills && Remembers(ops, i, skills[name]))
    decreases |ops|
  {
    if |ops| > 0 {
      var n := |ops| - 1;
      var front, op := ops[..n], ops[n];
      assert ops == front + [op];
      RunRemembers(disk, front, name);
      var before, after := Ran(disk, Store(map[], map[]), front), Ran(disk, Store(map[], map[]), ops);
      if BirthOrEnd(op, name) {
        assert forall i: nat :: LivesSince(ops, i, name) ==> i == n;
        if op.Create? {
          assert LivesSince(ops, n, name);
          RemembersBirth(front, op);
        }
      } else {
        LivesOn(front, op, name);
        assert name in after.skills <==> name in before.skills;
        forall i: nat | LivesSince(ops, i, name)
          ensures name in after.skills && Remembers(ops, i, after.skills[name])
        {
          assert LivesSince(front, i, name);
          RemembersMore(front, op, i, before.skills[name]);
        }
      }
    }
  }

  lemma LivesOn(front: seq<Op>, op: Op, name: string)
    requires !BirthOrEnd(op, name)
    ensures forall i: nat :: LivesSince(front + [op], i, name) <==> LivesSince(front, i, name)
  {
    var all := front + [op];
    forall i: nat
      ensures LivesSince(all, i, name) <==> LivesSince(front, i, name)
    {
      assert all[|front|] == op;
      assert forall j :: 0 <= j < |front| ==> all[j] == front[j];
    }
  }
}
