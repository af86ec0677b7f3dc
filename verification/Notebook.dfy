/** The note store (notebook.rs): notes, the table of links between them and their markdown files. */
module Notebook {
  import opened Wrappers
  import opened Text
  import opened Wikilinks

  type Id = string

  /** A row of `notes`; the key is the id. */
  datatype Row = Row(slug: string, title: string, content: string, kind: string, tags: string,
                     createdAt: string, updatedAt: string)

  /** A row of `note_links`, without its context and time. */
  datatype Link = Link(source: Id, target: string)

  datatype Brain = Brain(notes: map<Id, Row>, links: set<Link>, files: map<string, string>)

  const EMPTY := Brain(map[], {}, map[])

  /** The arguments of a save. */
  datatype Draft = Draft(title: string, content: string, kind: Option<string>, tags: seq<string>)

  function KindOf(d: Draft): string {
    if d.kind.Some? then d.kind.value else "note"
  }

  // What the tables should say.

  /** The slugs a content links to. */
  function LinkSlugs(al: Alphabet, content: string): set<string> {
    SlugsOf(al, Links(Picked(al), content, 0))
  }

  function SlugsOf(al: Alphabet, titles: seq<string>): set<string> {
    (set t | t in titles :: Slug(al, t)) - {""}
  }

  /** A scan of every note for its links. */
  function Recomputed(al: Alphabet, notes: map<Id, Row>): set<Link> {
    set id, t | id in notes && t in LinkSlugs(al, notes[id].content) :: Link(id, t)
  }

  predicate UniqueSlugs(notes: map<Id, Row>) {
    forall a, b :: a in notes && b in notes && notes[a].slug == notes[b].slug ==> a == b
  }

  function FileName(slug: string): string { slug + ".md" }

  function YamlEscape(s: string): string {
    if ':' in s || '"' in s || '\n' in s || '\'' in s then Format(["\"", Escaped(s), "\""]) else s
  }

  /** Backslashes and double quotes escaped with a backslash. */
  function Escaped(s: string): string {
    if s == "" then ""
    else (if s[0] == '\\' || s[0] == '"' then ['\\', s[0]] else [s[0]]) + Escaped(s[1..])
  }

  function EscapedAll(tags: seq<string>): seq<string> {
    seq(|tags|, i requires 0 <= i < |tags| => YamlEscape(tags[i]))
  }

  /** The markdown file of a note. */
  function Export(id: Id, row: Row, tags: seq<string>): string {
    Format([
      "---\nid: ", id, "\ntitle: ", YamlEscape(row.title), "\nslug: ", row.slug, "\nkind: ", row.kind,
      "\ntags: [", Join(EscapedAll(tags), ", "), "]\ncreated_at: ", row.createdAt,
      "\nupdated_at: ", row.updatedAt, "\n---\n\n", row.content])
  }

  /** The file is the export of the row, from some list of tags that the row stores joined. */
  ghost predicate Exported(id: Id, row: Row, text: string) {
    exists tags :: IsExport(id, row, tags, text)
  }

  predicate IsExport(id: Id, row: Row, tags: seq<string>, text: string) {
    Join(tags, ",") == row.tags && text == Export(id, row, tags)
  }

  /** The rows of the link table for one pair. */
  predicate LinkRight(al: Alphabet, b: Brain, l: Link) {
    l in b.links <==> l.source in b.notes && l.target in LinkSlugs(al, b.notes[l.source].content)
  }

  ghost predicate Linked(al: Alphabet, b: Brain) {
    forall l :: LinkRight(al, b, l)
  }

  predicate Titled(al: Alphabet, notes: map<Id, Row>) {
    forall id :: id in notes ==> notes[id].slug == Slug(al, notes[id].title) != ""
  }

  /** The link table is right, a slug names one note, and no slug is empty. */
  ghost predicate Indexed(al: Alphabet, b: Brain) {
    Linked(al, b) && UniqueSlugs(b.notes) && Titled(al, b.notes)
  }

  /** Right link by link is equal to a recomputation. */
  lemma IndexedIsRecomputed(al: Alphabet, b: Brain)
    ensures Linked(al, b) <==> b.links == Recomputed(al, b.notes)
  {
    if Linked(al, b) {
      forall l
        ensures l in b.links <==> l in Recomputed(al, b.notes)
      {
        assert LinkRight(al, b, l);
      }
    } else {
      var l :| !LinkRight(al, b, l);
      assert l in b.links <==> l !in Recomputed(al, b.notes);
    }
  }

  type Naming = string -> string

  type Exporter = (Id, Row, string) -> bool

  /** One file per note, holding what `exports` says, and no others. */
  ghost predicate Mirrors(exports: Exporter, file: Naming, notes: map<Id, Row>, files: map<string, string>) {
    && (forall id <- notes :: FileHolds(exports, file, notes, files, id))
    && (forall f <- files :: exists id :: Names(file, notes, id, f))
  }

  predicate FileHolds(exports: Exporter, file: Naming, notes: map<Id, Row>, files: map<string, string>, id: Id) {
    id in notes && file(notes[id].slug) in files && exports(id, notes[id], files[file(notes[id].slug)])
  }

  predicate Names(file: Naming, notes: map<Id, Row>, id: Id, f: string) {
    id in notes && f == file(notes[id].slug)
  }

  ghost predicate Injective(file: Naming) {
    forall a, b :: file(a) == file(b) ==> a == b
  }

  /** One file per note, holding its export, and no others. */
  ghost predicate Mirrored(b: Brain) {
    Mirrors(Exported, FileName, b.notes, b.files)
  }

  // Operations.

  /** The note a slug names, if any. */
  ghost function BySlug(notes: map<Id, Row>, slug: string): (r: Option<Id>)
    ensures r.Some? ==> r.value in notes && notes[r.value].slug == slug
    ensures r.None? ==> forall id :: id in notes ==> notes[id].slug != slug
  {
    if id :| id in notes && notes[id].slug == slug then Some(id) else None
  }

  ghost function SavedId(al: Alphabet, b: Brain, d: Draft, newId: Id): Id {
    BySlug(b.notes, Slug(al, d.title)).UnwrapOr(newId)
  }

  /** The row a save writes: the identity and birth of an existing note stay. */
  function SavedRow(al: Alphabet, notes: map<Id, Row>, id: Id, d: Draft, now: string): Row {
    Row(Slug(al, d.title), d.title, d.content, KindOf(d), Join(d.tags, ","),
        if id in notes then notes[id].createdAt else now, now)
  }

  /** A row stored with its links, and its file if it could be written. */
  function Put(b: Brain, id: Id, row: Row, targets: set<string>, file: Option<string>): Brain {
    Brain(
      b.notes[id := row],
      (set l | l in b.links && l.source != id) + (set t | t in targets :: Link(id, t)),
      if file.Some? then b.files[FileName(row.slug) := file.value] else b.files)
  }

  /** A save, up to whether the markdown file could be written. */
  ghost function Saved(al: Alphabet, b: Brain, d: Draft, newId: Id, now: string, wrote: bool): Brain {
    if Slug(al, d.title) == "" then b
    else
      var id := SavedId(al, b, d, newId);
      var row := SavedRow(al, b.notes, id, d, now);
      Put(b, id, row, LinkSlugs(al, d.content), if wrote then Some(Export(id, row, d.tags)) else None)
  }

  /** A delete of the note picked among those whose id or slug is the key; the file may be missing or
      may fail to go. */
  predicate Matches(notes: map<Id, Row>, id: Id, key: string) {
    id in notes && (id == key || notes[id].slug == key)
  }

  function Deleted(b: Brain, id: Id, removed: bool): Brain
    requires id in b.notes
  {
    Brain(b.notes - {id}, set l | l in b.links && l.source != id,
          if removed then b.files - {FileName(b.notes[id].slug)} else b.files)
  }

  lemma SameFileSameSlug(a: string, b: string)
    requires FileName(a) == FileName(b)
    ensures a == b
  {
    assert a == FileName(a)[..|FileName(a)| - 3];
    assert b == FileName(b)[..|FileName(b)| - 3];
  }

  lemma PutKeepsLinks(al: Alphabet, b: Brain, id: Id, row: Row, file: Option<string>)
    requires Linked(al, b)
    ensures Linked(al, Put(b, id, row, LinkSlugs(al, row.content), file))
  {
    var b' := Put(b, id, row, LinkSlugs(al, row.content), file);
    forall l
      ensures LinkRight(al, b', l)
    {
      assert LinkRight(al, b, l);
    }
  }

  lemma PutKeepsSlugs(al: Alphabet, notes: map<Id, Row>, id: Id, row: Row)
    requires UniqueSlugs(notes) && Titled(al, notes) && row.slug == Slug(al, row.title) != ""
    requires forall o :: o in notes && o != id ==> notes[o].slug != row.slug
    ensures UniqueSlugs(notes[id := row]) && Titled(al, notes[id := row])
  {
  }

  lemma SaveKeepsIndex(al: Alphabet, b: Brain, d: Draft, newId: Id, now: string, wrote: bool)
    requires Indexed(al, b) && newId !in b.notes
    ensures Indexed(al, Saved(al, b, d, newId, now, wrote))
  {
    if Slug(al, d.title) != "" {
      var id := SavedId(al, b, d, newId);
      var row := SavedRow(al, b.notes, id, d, now);
      SavedIdIsOwner(al, b, d, newId);
      PutKeepsSlugs(al, b.notes, id, row);
      PutKeepsLinks(al, b, id, row, if wrote then Some(Export(id, row, d.tags)) else None);
    }
  }

  lemma DeleteKeepsIndex(al: Alphabet, b: Brain, id: Id, removed: bool)
    requires Indexed(al, b) && id in b.notes
    ensures Indexed(al, Deleted(b, id, removed))
  {
    var b' := Deleted(b, id, removed);
    forall l
      ensures LinkRight(al, b', l)
    {
      assert LinkRight(al, b, l);
    }
  }

  lemma MirrorsPut(exports: Exporter, file: Naming, notes: map<Id, Row>, files: map<string, string>, id: Id, row: Row, text: string)
    requires Injective(file) && Mirrors(exports, file, notes, files) && exports(id, row, text)
    requires id in notes ==> notes[id].slug == row.slug
    requires forall o :: o in notes && o != id ==> notes[o].slug != row.slug
    ensures Mirrors(exports, file, notes[id := row], files[file(row.slug) := text])
  {
    var notes', files' := notes[id := row], files[file(row.slug) := text];
    forall o | o in notes'
      ensures FileHolds(exports, file, notes', files', o)
    {
      assert o != id ==> FileHolds(exports, file, notes, files, o);
    }
    forall f | f in files'
      ensures exists o :: Names(file, notes', o, f)
    {
      if f == file(row.slug) {
        assert Names(file, notes', id, f);
      } else {
        var o :| Names(file, notes, o, f);
        assert Names(file, notes', o, f);
      }
    }
  }

  lemma MirrorsRemove(exports: Exporter, file: Naming, notes: map<Id, Row>, files: map<string, string>, id: Id)
    requires Injective(file) && Mirrors(exports, file, notes, files) && UniqueSlugs(notes) && id in notes
    ensures Mirrors(exports, file, notes - {id}, files - {file(notes[id].slug)})
  {
    var notes', files' := notes - {id}, files - {file(notes[id].slug)};
    forall o | o in notes'
      ensures FileHolds(exports, file, notes', files', o)
    {
      assert FileHolds(exports, file, notes, files, o);
    }
    forall f | f in files'
      ensures exists o :: Names(file, notes', o, f)
    {
      var o :| Names(file, notes, o, f);
      assert Names(file, notes', o, f);
    }
  }

  lemma FileNamesInjective()
    ensures Injective(FileName)
  {
    forall a, b | FileName(a) == FileName(b)
      ensures a == b
    {
      SameFileSameSlug(a, b);
    }
  }

  lemma DeleteKeepsMirror(b: Brain, id: Id)
    requires UniqueSlugs(b.notes) && Mirrored(b) && id in b.notes
    ensures Mirrored(Deleted(b, id, true))
  {
    FileNamesInjective();
    MirrorsRemove(Exported, FileName, b.notes, b.files, id);
  }

  lemma ExportKeepsMirror(b: Brain, id: Id, row: Row, targets: set<string>, tags: seq<string>)
    requires Mirrored(b) && row.tags == Join(tags, ",")
    requires id in b.notes ==> b.notes[id].slug == row.slug
    requires forall o :: o in b.notes && o != id ==> b.notes[o].slug != row.slug
    ensures Mirrored(Put(b, id, row, targets, Some(Export(id, row, tags))))
  {
    var text := Export(id, row, tags);
    assert IsExport(id, row, tags, text);
    FileNamesInjective();
    MirrorsPut(Exported, FileName, b.notes, b.files, id, row, text);
  }

  /** The note a save writes is the one with the slug, if there is one. */
  lemma SavedIdIsOwner(al: Alphabet, b: Brain, d: Draft, newId: Id)
    requires UniqueSlugs(b.notes) && newId !in b.notes
    ensures var id, slug := SavedId(al, b, d, newId), Slug(al, d.title);
            && (id in b.notes ==> b.notes[id].slug == slug)
            && forall o :: o in b.notes && o != id ==> b.notes[o].slug != slug
  {
  }

  lemma SaveKeepsMirror(al: Alphabet, b: Brain, d: Draft, newId: Id, now: string)
    requires Indexed(al, b) && Mirrored(b) && newId !in b.notes
    ensures Mirrored(Saved(al, b, d, newId, now, true))
  {
    if Slug(al, d.title) != "" {
      var id := SavedId(al, b, d, newId);
      var row := SavedRow(al, b.notes, id, d, now);
      SavedIdIsOwner(al, b, d, newId);
      ExportKeepsMirror(b, id, row, LinkSlugs(al, d.content), d.tags);
    }
  }

  // Runs.

  datatype Op =
    | Save(draft: Draft, newId: Id, now: string, wrote: bool)
    | Delete(key: string, pick: Id, removed: bool)

  /** The id is new, and the database picks a match if there is one. */
  ghost predicate Permitted(b: Brain, op: Op) {
    match op
    case Save(_, newId, _, _) => newId !in b.notes
    case Delete(key, pick, _) => (exists id :: Matches(b.notes, id, key)) ==> Matches(b.notes, pick, key)
  }

  ghost function Applied(al: Alphabet, b: Brain, op: Op): Brain {
    match op
    case Save(d, newId, now, wrote) => Saved(al, b, d, newId, now, wrote)
    case Delete(key, pick, removed) => if Matches(b.notes, pick, key) then Deleted(b, pick, removed) else b
  }

  /** The state after the operations, if each was permitted where it came. */
  ghost function Ran(al: Alphabet, b: Brain, ops: seq<Op>): Option<Brain>
    decreases |ops|
  {
    if |ops| == 0 then Some(b)
    else
      var before := Ran(al, b, ops[..|ops| - 1]);
      var op := ops[|ops| - 1];
      if before.Some? && Permitted(before.value, op) then Some(Applied(al, before.value, op)) else None
  }

  /** Files in step: every write and every removal went through. */
  predicate FilesSucceed(ops: seq<Op>) {
    forall k :: 0 <= k < |ops| ==> if ops[k].Save? then ops[k].wrote else ops[k].removed
  }

  /** After any saves and deletes, whatever happened to the files, the link table is what a scan of
      every note gives; if the files succeeded, there is one per note, holding its export. */
  lemma {:induction false} RunKeepsIndex(al: Alphabet, ops: seq<Op>)
    ensures Ran(al, EMPTY, ops).Some? ==> Indexed(al, Ran(al, EMPTY, ops).value)
    ensures Ran(al, EMPTY, ops).Some? && FilesSucceed(ops) ==> Mirrored(Ran(al, EMPTY, ops).value)
    decreases |ops|
  {
    if |ops| > 0 && Ran(al, EMPTY, ops).Some? {
      var front := ops[..|ops| - 1];
      RunKeepsIndex(al, front);
      var b := Ran(al, EMPTY, front).value;
      match ops[|ops| - 1]
      case Save(d, newId, now, wrote) =>
        SaveKeepsIndex(al, b, d, newId, now, wrote);
        if FilesSucceed(ops) {
          assert FilesSucceed(front);
          SaveKeepsMirror(al, b, d, newId, now);
        }
      case Delete(key, pick, removed) =>
        if Matches(b.notes, pick, key) {
          DeleteKeepsIndex(al, b, pick, removed);
        }
        if FilesSucceed(ops) {
          assert FilesSucceed(front);
          if Matches(b.notes, pick, key) {
            DeleteKeepsMirror(b, pick);
          }
        }
    }
  }

  // What the index answers.

  /** The join of `linked_to`. */
  function LinkedTo(b: Brain, slug: string): set<Id> {
    set id | id in b.notes && Link(id, slug) in b.links
  }

  /** The join of `linked_from`. */
  function LinkedFrom(b: Brain, id: Id): set<Id> {
    set o | o in b.notes && Link(id, b.notes[o].slug) in b.links
  }

  /** Backlinks are a scan of all notes, and outgoing links the notes whose slugs the content names. */
  lemma LinksAreAScan(al: Alphabet, b: Brain, slug: string, id: Id)
    requires Linked(al, b)
    ensures LinkedTo(b, slug) == set o | o in b.notes && slug in LinkSlugs(al, b.notes[o].content)
    ensures id in b.notes ==>
              LinkedFrom(b, id) == set o | o in b.notes && b.notes[o].slug in LinkSlugs(al, b.notes[id].content)
    ensures forall l :: l in b.links ==> l.source in b.notes && l.target != ""
  {
    forall o
      ensures LinkRight(al, b, Link(o, slug))
    {
    }
    forall o | o in b.notes
      ensures LinkRight(al, b, Link(id, b.notes[o].slug))
    {
    }
    forall l | l in b.links
      ensures l.source in b.notes && l.target != ""
    {
      assert LinkRight(al, b, l);
    }
  }

  /** The notes one link away, in either direction. */
  function Neighbours(b: Brain, id: Id): set<Id>
    requires id in b.notes
  {
    LinkedFrom(b, id) + LinkedTo(b, b.notes[id].slug)
  }

  /** Following a link out and a link in are converse. */
  lemma LinksAreConverse(b: Brain, from: Id, to: Id)
    requires from in b.notes && to in b.notes
    ensures to in LinkedFrom(b, from) <==> from in LinkedTo(b, b.notes[to].slug)
  {
  }

  /** So being neighbours is mutual: an expanded search from either note finds the other. */
  lemma NeighboursAreMutual(b: Brain, x: Id, y: Id)
    requires x in b.notes && y in b.notes
    ensures y in Neighbours(b, x) <==> x in Neighbours(b, y)
  {
    LinksAreConverse(b, x, y);
    LinksAreConverse(b, y, x);
  }

  /** Links whose target no note has. */
  function Dangling(b: Brain): set<Link> {
    set l | l in b.links && forall id :: id in b.notes ==> b.notes[id].slug != l.target
  }

  /** A link dangles exactly when its target names no note. */
  lemma DanglingIff(b: Brain, l: Link)
    ensures l in Dangling(b) <==> l in b.links && BySlug(b.notes, l.target) == None
  {
  }

  /** What a save does to one slug: its note holds the draft under the id and birth it already had,
      and every other note is untouched. A second save of the same title updates in place. */
  lemma SaveEffect(al: Alphabet, b: Brain, d: Draft, newId: Id, now: string, wrote: bool)
    requires Indexed(al, b) && newId !in b.notes && Slug(al, d.title) != ""
    ensures var b' := Saved(al, b, d, newId, now, wrote);
            var was, id := BySlug(b.notes, Slug(al, d.title)), BySlug(b'.notes, Slug(al, d.title));
            && id == Some(was.UnwrapOr(newId))
            && b'.notes == b.notes[id.value := b'.notes[id.value]]
            && (var row := b'.notes[id.value];
                && row.title == d.title && row.content == d.content && row.tags == Join(d.tags, ",")
                && row.kind == d.kind.UnwrapOr("note")
                && row.createdAt == (if was.Some? then b.notes[was.value].createdAt else now)
                && row.updatedAt == now)
  {
    var b' := Saved(al, b, d, newId, now, wrote);
    SaveKeepsIndex(al, b, d, newId, now, wrote);
    var id := SavedId(al, b, d, newId);
    assert id in b'.notes && b'.notes[id].slug == Slug(al, d.title);
  }

  /** Reading an escaped text: a backslash stands for the character after it. */
  function Unescaped(s: string): string {
    if s == "" then ""
    else if s[0] == '\\' && |s| > 1 then [s[1]] + Unescaped(s[2..])
    else [s[0]] + Unescaped(s[1..])
  }

  lemma {:induction false} EscapedIsRead(s: string)
    ensures Unescaped(Escaped(s)) == s
  {
    if s != "" {
      EscapedIsRead(s[1..]);
      var rest := Escaped(s[1..]);
      if s[0] == '\\' || s[0] == '"' {
        assert (['\\', s[0]] + rest)[2..] == rest;
      } else {
        assert ([s[0]] + rest)[1..] == rest;
      }
    }
  }

  /** The file of a note has a line for each of its columns, and its content at the end. */
  lemma ExportSays(id: Id, row: Row, tags: seq<string>)
    ensures var text := Export(id, row, tags);
            && HasPart(text, "---\nid: " + id) && HasPart(text, "\ntitle: " + YamlEscape(row.title))
            && HasPart(text, "\nslug: " + row.slug) && HasPart(text, "\nkind: " + row.kind)
            && HasPart(text, "\ntags: [" + Join(EscapedAll(tags), ", "))
            && HasPart(text, "]\ncreated_at: " + row.createdAt) && HasPart(text, "\nupdated_at: " + row.updatedAt)
            && HasPart(text, "\n---\n\n" + row.content)
  {
    var pieces := [
      "---\nid: ", id, "\ntitle: ", YamlEscape(row.title), "\nslug: ", row.slug, "\nkind: ", row.kind,
      "\ntags: [", Join(EscapedAll(tags), ", "), "]\ncreated_at: ", row.createdAt,
      "\nupdated_at: ", row.updatedAt, "\n---\n\n", row.content];
    FormatHasPair(pieces, 0);
    FormatHasPair(pieces, 2);
    FormatHasPair(pieces, 4);
    FormatHasPair(pieces, 6);
    FormatHasPair(pieces, 8);
    FormatHasPair(pieces, 10);
    FormatHasPair(pieces, 12);
    FormatHasPair(pieces, 14);
  }

  lemma PutThenDelete(b: Brain, id: Id, row: Row, targets: set<string>, text: string)
    requires id !in b.notes && FileName(row.slug) !in b.files
    requires forall l :: l in b.links ==> l.source != id
    ensures Deleted(Put(b, id, row, targets, Some(text)), id, true) == b
  {
    var b' := Put(b, id, row, targets, Some(text));
    assert b'.notes - {id} == b.notes;
    assert b'.files - {FileName(row.slug)} == b.files;
    assert (set l | l in b'.links && l.source != id) == b.links;
  }

  /** Deleting a note undoes its save exactly, files included, when the note was new. */
  lemma DeleteUndoesSave(al: Alphabet, b: Brain, d: Draft, newId: Id, now: string)
    requires Indexed(al, b) && Mirrored(b) && newId !in b.notes && Slug(al, d.title) != ""
    requires BySlug(b.notes, Slug(al, d.title)) == None
    ensures Deleted(Saved(al, b, d, newId, now, true), newId, true) == b
  {
    var row := SavedRow(al, b.notes, newId, d, now);
    if FileName(row.slug) in b.files {
      var o :| Names(FileName, b.notes, o, FileName(row.slug));
      SameFileSameSlug(row.slug, b.notes[o].slug);
    }
    LinksAreAScan(al, b, row.slug, newId);
    PutThenDelete(b, newId, row, LinkSlugs(al, d.content), Export(newId, row, d.tags));
  }
}
