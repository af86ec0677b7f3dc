/** The note store as the program updates it: two tables and a directory, statement by statement. */
module BrainStore {
  import opened Wrappers
  import opened Text
  import opened Wikilinks
  import opened Notebook
  import opened Ordering

  /** What a save returns. */
  datatype Note = Note(id: Id, slug: string, title: string, content: string, kind: string,
                       tags: seq<string>, createdAt: string, updatedAt: string)

  /** The note handed back: the draft, with the save's time as both of its times. */
  function SavedNote(id: Id, slug: string, d: Draft, now: string): Note {
    Note(id, slug, d.title, d.content, KindOf(d), d.tags, now, now)
  }

  datatype SaveError = EmptySlug(title: string) | WriteFailed(file: string)

  datatype Stats = Stats(notes: nat, links: nat, dangling: nat)

  function Min(a: nat, b: nat): nat { if a < b then a else b }

  function Members(ids: seq<Id>): set<Id> {
    set id | id in ids
  }

  /** When a note was last updated, in the order of the database. */
  function Stamp(notes: map<Id, Row>, stamp: string -> int, id: Id): int {
    if id in notes then stamp(notes[id].updatedAt) else 0
  }

  predicate NewestFirst(notes: map<Id, Row>, stamp: string -> int, ids: seq<Id>) {
    forall i, j :: 0 <= i < j < |ids| ==> Stamp(notes, stamp, ids[i]) >= Stamp(notes, stamp, ids[j])
  }

  /** What has been sorted so far, and what is left. */
  ghost predicate Sorting(notes: map<Id, Row>, stamp: string -> int, ids: set<Id>, sorted: seq<Id>, rest: set<Id>) {
    && rest <= ids && Members(sorted) == ids - rest && Distinct(sorted) && NewestFirst(notes, stamp, sorted)
    && forall a, b :: a in sorted && b in rest ==> Stamp(notes, stamp, a) >= Stamp(notes, stamp, b)
  }

  predicate IsNewest(notes: map<Id, Row>, stamp: string -> int, rest: set<Id>, id: Id) {
    id in rest && forall o <- rest :: Stamp(notes, stamp, id) >= Stamp(notes, stamp, o)
  }

  lemma SortingStep(notes: map<Id, Row>, stamp: string -> int, ids: set<Id>, sorted: seq<Id>, rest: set<Id>, id: Id)
    requires Sorting(notes, stamp, ids, sorted, rest)
    requires IsNewest(notes, stamp, rest, id)
    ensures Sorting(notes, stamp, ids, sorted + [id], rest - {id})
  {
    OneMoreMember(sorted, id);
    assert id !in Members(sorted);
    LastIsOldest(notes, stamp, sorted, id);
  }

  lemma LastIsOldest(notes: map<Id, Row>, stamp: string -> int, sorted: seq<Id>, id: Id)
    requires NewestFirst(notes, stamp, sorted)
    requires forall i :: 0 <= i < |sorted| ==> Stamp(notes, stamp, sorted[i]) >= Stamp(notes, stamp, id)
    ensures NewestFirst(notes, stamp, sorted + [id])
  {
  }

  /** `ORDER BY updated_at DESC`, ties in any order. */
  method ByRecency(notes: map<Id, Row>, stamp: string -> int, ids: set<Id>) returns (sorted: seq<Id>)
    ensures Distinct(sorted) && Members(sorted) == ids && NewestFirst(notes, stamp, sorted)
  {
    sorted := [];
    var rest := ids;
    while rest != {}
      invariant Sorting(notes, stamp, ids, sorted, rest)
      decreases |rest|
    {
      ghost var newest := Newest(rest, id => Stamp(notes, stamp, id));
      assert IsNewest(notes, stamp, rest, newest);
      var id :| IsNewest(notes, stamp, rest, id);
      SortingStep(notes, stamp, ids, sorted, rest, id);
      sorted := sorted + [id];
      rest := rest - {id};
    }
  }

  lemma OneMoreMember(ids: seq<Id>, id: Id)
    ensures Members(ids + [id]) == Members(ids) + {id}
    ensures Distinct(ids) && id !in Members(ids) ==> Distinct(ids + [id])
  {
  }

  function LinksTo(id: Id, targets: set<string>): set<Link> {
    set t | t in targets :: Link(id, t)
  }

  /** One more title adds its slug, if it has one. */
  lemma SlugsOfOneMore(al: Alphabet, titles: seq<string>, k: nat)
    requires k < |titles|
    ensures var slug := Slug(al, titles[k]);
            SlugsOf(al, titles[..k + 1]) == SlugsOf(al, titles[..k]) + if slug == "" then {} else {slug}
  {
    assert titles[..k + 1] == titles[..k] + [titles[k]];
  }

  class Store {
    const al: Alphabet
    /** Where a time's text stands in the order of the database. */
    const stamp: string -> int
    var notes: map<Id, Row>
    var links: set<Link>
    var files: map<string, string>

    ghost function State(): Brain
      reads this
    {
      Brain(notes, links, files)
    }

    ghost predicate Valid()
      reads this
    {
      al.Sane() && Indexed(al, State())
    }

    constructor (al: Alphabet, stamp: string -> int)
      requires al.Sane()
      ensures Valid() && State() == EMPTY && this.al == al
    {
      this.al, this.stamp := al, stamp;
      notes, links, files := map[], {}, map[];
    }

    /** The one note with this slug. */
    method FindBySlug(slug: string) returns (id: Option<Id>)
      requires Valid()
      ensures id == BySlug(notes, slug)
    {
      if found :| found in notes && notes[found].slug == slug {
        id := Some(found);
      } else {
        id := None;
      }
    }

    /** The links of one note: the old ones dropped, each wikilink's slug inserted unless it is there. */
    method RefreshLinks(id: Id, content: string)
      requires al.Sane()
      modifies this`links
      ensures links == (set l | l in old(links) && l.source != id)
                       + (set t | t in LinkSlugs(al, content) :: Link(id, t))
    {
      links := set l | l in links && l.source != id;
      ghost var kept := links;
      var targets := ParseWikilinks(al, content);
      for k := 0 to |targets|
        invariant links == kept + LinksTo(id, SlugsOf(al, targets[..k]))
      {
        SlugsOfOneMore(al, targets, k);
        var slug := Slugify(al, targets[k]);
        if slug == "" {
          continue;
        }
        links := links + {Link(id, slug)};
      }
      assert targets[..|targets|] == targets;
    }

    /** The row of a note, updated in place or inserted. */
    method StoreRow(slug: string, d: Draft, newId: Id, now: string) returns (id: Id, row: Row)
      requires Valid() && newId !in notes && slug == Slug(al, d.title)
      modifies this`notes
      ensures id == SavedId(al, old(State()), d, newId) && row == SavedRow(al, old(notes), id, d, now)
      ensures notes == old(notes)[id := row]
    {
      var existing := FindBySlug(slug);
      id := existing.UnwrapOr(newId);
      if existing.Some? {
        row := notes[id].(title := d.title, content := d.content, kind := KindOf(d), tags := Join(d.tags, ","), updatedAt := now);
      } else {
        row := Row(slug, d.title, d.content, KindOf(d), Join(d.tags, ","), now, now);
      }
      notes := notes[id := row];
    }

    /** The writes of a save, in order: row, links, file. */
    method StoreNote(slug: string, d: Draft, newId: Id, now: string, wrote: bool) returns (id: Id)
      requires Valid() && newId !in notes && slug == Slug(al, d.title) != ""
      modifies this
      ensures id == SavedId(al, old(State()), d, newId)
      ensures State() == Saved(al, old(State()), d, newId, now, wrote)
    {
      var row;
      id, row := StoreRow(slug, d, newId, now);
      RefreshLinks(id, d.content);
      if wrote {
        files := files[FileName(slug) := Export(id, row, d.tags)];
      }
    }

    /** `save`: rejects an empty slug before touching anything; a file that cannot be written leaves
        the tables changed. */
    method Save(d: Draft, newId: Id, now: string, wrote: bool) returns (r: Result<Note, SaveError>)
      requires Valid() && newId !in notes
      modifies this
      ensures Valid() && State() == Saved(al, old(State()), d, newId, now, wrote)
      ensures r == if Slug(al, d.title) == "" then Err(EmptySlug(d.title))
                   else if !wrote then Err(WriteFailed(FileName(Slug(al, d.title))))
                   else Ok(Note(SavedId(al, old(State()), d, newId), Slug(al, d.title), d.title, d.content,
                                d.kind.UnwrapOr("note"), d.tags, now, now))
    {
      SaveKeepsIndex(al, State(), d, newId, now, wrote);
      var slug := Slugify(al, d.title);
      if slug == "" {
        return Err(EmptySlug(d.title));
      }
      var id := StoreNote(slug, d, newId, now, wrote);
      r := if wrote then Ok(SavedNote(id, slug, d, now)) else Err(WriteFailed(FileName(slug)));
    }

    /** `delete`: any one note whose id or slug is the key goes, with its links and its file. */
    method Delete(key: string, removed: bool) returns (ok: bool, ghost gone: Id)
      requires Valid()
      modifies this
      ensures Valid()
      ensures ok <==> exists id :: Matches(old(notes), id, key)
      ensures ok ==> Matches(old(notes), gone, key) && State() == Deleted(old(State()), gone, removed)
      ensures !ok ==> State() == old(State())
    {
      if id :| id in notes && (id == key || notes[id].slug == key) {
        DeleteKeepsIndex(al, State(), id, removed);
        assert Matches(notes, id, key);
        gone := id;
        var slug := notes[id].slug;
        links := set l | l in links && l.source != id;
        notes := notes - {id};
        if removed {
          files := files - {FileName(slug)};
        }
        return true, id;
      }
      forall id
        ensures !Matches(notes, id, key)
      {
      }
      gone := "";
      ok := false;
    }

    predicate Recent(ids: seq<Id>)
      reads this`notes
    {
      NewestFirst(notes, stamp, ids)
    }

    method QueryLinkedTo(slug: string) returns (ids: seq<Id>)
      ensures Distinct(ids) && Members(ids) == LinkedTo(State(), slug) && Recent(ids)
    {
      ids := ByRecency(notes, stamp, set id | id in notes && Link(id, slug) in links);
    }

    method QueryLinkedFromId(source: Id) returns (ids: seq<Id>)
      ensures Distinct(ids) && Members(ids) == LinkedFrom(State(), source) && Recent(ids)
    {
      ids := ByRecency(notes, stamp, set o | o in notes && Link(source, notes[o].slug) in links);
    }

    method QueryLinkedFrom(slug: string) returns (ids: seq<Id>)
      requires Valid()
      ensures Distinct(ids) && Recent(ids)
      ensures Members(ids) == match BySlug(notes, slug) case None => {} case Some(id) => LinkedFrom(State(), id)
    {
      var id := FindBySlug(slug);
      if id.Some? {
        ids := QueryLinkedFromId(id.value);
      } else {
        ids := [];
      }
    }

    /** The notes linked from one note, then those that link to it. */
    method ExpandOne(id: Id, found: seq<Id>, seen: set<Id>) returns (found': seq<Id>, seen': set<Id>)
      requires id in notes && Distinct(found) && Members(found) == seen
      ensures Distinct(found') && found <= found'
      ensures Members(found') == seen' == seen + Neighbours(State(), id)
    {
      var outgoing := QueryLinkedFromId(id);
      found', seen' := AddUnseen(found, seen, outgoing);
      var backlinks := QueryLinkedTo(notes[id].slug);
      found', seen' := AddUnseen(found', seen', backlinks);
    }

    /** The neighbours of each direct hit in turn, each note once. */
    method Expand(direct: seq<Id>) returns (found: seq<Id>)
      requires Distinct(direct) && Members(direct) <= notes.Keys
      ensures Distinct(found) && direct <= found
      ensures Members(found) == Members(direct) + NeighboursOf(State(), direct)
    {
      found := direct;
      var seen := Members(direct);
      assert direct[..0] == [];
      for k := 0 to |direct|
        invariant Distinct(found) && direct <= found && Members(found) == seen
        invariant Members(direct[..k]) <= notes.Keys
        invariant seen == Members(direct) + NeighboursOf(State(), direct[..k])
      {
        OneMoreHit(State(), direct, k);
        found, seen := ExpandOne(direct[k], found, seen);
      }
      assert direct[..|direct|] == direct;
    }

    /** `search`: at most 200 of the ranked matches in their order, then, if asked, every note one link
        away from them, each once. */
    method Search(ranked: seq<Id>, limit: nat, expand: bool) returns (found: seq<Id>)
      requires Distinct(ranked) && Members(ranked) <= notes.Keys
      ensures var hits := ranked[..Min(Min(limit, 200), |ranked|)];
              && Members(hits) <= notes.Keys && Distinct(found) && hits <= found
              && (!expand ==> found == hits)
              && (expand ==> Members(found) == Members(hits) + NeighboursOf(State(), hits))
    {
      var hits := ranked[..Min(Min(limit, 200), |ranked|)];
      FrontMembers(ranked, |hits|);
      if expand {
        found := Expand(hits);
      } else {
        found := hits;
      }
    }

    method CountAll() returns (s: Stats)
      requires Valid()
      ensures s == Stats(|notes|, |Recomputed(al, notes)|, |Dangling(State())|)
    {
      IndexedIsRecomputed(al, State());
      var dangling := set l | l in links && forall id :: id in notes ==> notes[id].slug != l.target;
      assert dangling == Dangling(State());
      s := Stats(|notes|, |links|, |dangling|);
    }
  }

  /** The inner loops of the expansion. */
  method AddUnseen(found: seq<Id>, seen: set<Id>, more: seq<Id>) returns (found': seq<Id>, seen': set<Id>)
    requires Distinct(found) && Members(found) == seen
    ensures Distinct(found') && found <= found' && Members(found') == seen' == seen + Members(more)
  {
    found', seen' := found, seen;
    for k := 0 to |more|
      invariant Distinct(found') && found <= found'
      invariant Members(found') == seen' == seen + Members(more[..k])
    {
      assert Members(more[..k + 1]) == Members(more[..k]) + {more[k]};
      if more[k] !in seen' {
        OneMoreMember(found', more[k]);
        found' := found' + [more[k]];
        seen' := seen' + {more[k]};
      }
    }
    assert more[..|more|] == more;
  }

  /** Everything one link away from some of the notes. */
  function NeighboursOf(b: Brain, ids: seq<Id>): set<Id>
    requires Members(ids) <= b.notes.Keys
  {
    set id, o | id in Members(ids) && o in Neighbours(b, id) :: o
  }

  lemma FrontMembers(ids: seq<Id>, n: nat)
    requires n <= |ids|
    ensures Members(ids[..n]) <= Members(ids)
    ensures Distinct(ids) ==> Distinct(ids[..n])
  {
  }

  lemma OneMoreHit(b: Brain, hits: seq<Id>, k: nat)
    requires k < |hits| && Members(hits) <= b.notes.Keys
    ensures hits[k] in b.notes && Members(hits[..k + 1]) <= b.notes.Keys
    ensures NeighboursOf(b, hits[..k + 1])
         == NeighboursOf(b, hits[..k]) + Neighbours(b, hits[k])
  {
    assert hits[k] in Members(hits);
    FrontMembers(hits, k);
    FrontMembers(hits, k + 1);
    assert Members(hits[..k + 1]) == Members(hits[..k]) + {hits[k]};
    forall o
      ensures o in NeighboursOf(b, hits[..k + 1]) <==> o in NeighboursOf(b, hits[..k]) || o in Neighbours(b, hits[k])
    {
    }
  }

  lemma Newest(ids: set<Id>, key: Id -> int) returns (newest: Id)
    requires ids != {}
    ensures newest in ids && forall o :: o in ids ==> key(newest) >= key(o)
    decreases |ids|
  {
    var one :| one in ids;
    newest := one;
    var rest := ids - {one};
    if rest != {} {
      var other := Newest(rest, key);
      if key(other) > key(one) {
        newest := other;
      }
      assert forall o :: o in ids ==> o in rest || o == one;
    }
  }
}
