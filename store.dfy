/** The client collection store: one local-storage entry per collection, each
    holding the whole collection as a JSON array, read and rewritten in full by
    every operation (src/lib/store.ts). */
module Store {
  import opened Wrappers
  import opened Json
  import opened Seqs
  import opened Tables
  import opened Clock

  /** The four collections the client store keeps (`KEYS`). */
  datatype Kind = Projects | Documents | Snippets | Media

  function Key(k: Kind): string {
    match k
    case Projects => "labyrinth_projects"
    case Documents => "labyrinth_documents"
    case Snippets => "labyrinth_snippets"
    case Media => "labyrinth_media"
  }

  /** The four storage keys are distinct. */
  lemma KeyInjective(a: Kind, b: Kind)
    ensures Key(a) == Key(b) <==> a == b
  {
  }

  /** The browser's `localStorage`: text per key, seen through `JSON.parse`. */
  class LocalStorage {
    var entries: map<string, Stored>

    constructor (initial: map<string, Stored>)
      ensures entries == initial
    {
      entries := initial;
    }

    /** `localStorage.setItem(key, JSON.stringify(v))`. */
    method SetItem(key: string, v: Value)
      modifies this
      ensures entries == old(entries)[key := Json(v)]
    {
      entries := entries[key := Json(v)];
    }

    /** `localStorage.removeItem(key)`. */
    method RemoveItem(key: string)
      modifies this
      ensures entries == old(entries) - {key}
    {
      entries := entries - {key};
    }
  }

  /** `get(key)`: the stored array, or `[]` when the entry is missing or does not parse.
      A non-empty result is exactly what the entry holds. */
  function Get(ls: LocalStorage, key: string): (r: seq<Record>)
    reads ls
    ensures key !in ls.entries || ls.entries[key].Unparseable? ==> r == []
    ensures r != [] ==> key in ls.entries && ls.entries[key] == Encode(r)
  {
    Read(ls.entries, key)
  }

  /** `set(key, data)`: the whole array serialised into the entry. */
  method Set(ls: LocalStorage, key: string, data: seq<Record>)
    modifies ls
    ensures ls.entries == old(ls.entries)[key := Encode(data)]
  {
    ls.SetItem(key, Encode(data).value);
  }

  /** `getAll()`: the collection's entry read back, `[]` when it is missing. */
  function GetAll(ls: LocalStorage, k: Kind): (r: seq<Record>)
    reads ls
    ensures Key(k) !in ls.entries || ls.entries[Key(k)].Unparseable? ==> r == []
    ensures r != [] ==> Key(k) in ls.entries && ls.entries[Key(k)] == Encode(r)
  {
    Get(ls, Key(k))
  }

  /** `getById(id)`; the media store has none. */
  function GetById(ls: LocalStorage, k: Kind, id: string): (r: Option<Record>)
    requires k != Media
    reads ls
    ensures r.None? <==> forall i :: 0 <= i < |GetAll(ls, k)| ==> !IdIs(GetAll(ls, k)[i], id)
    ensures r.Some? ==> r.value in GetAll(ls, k) && IdIs(r.value, id)
    ensures r.Some? ==> exists i :: 0 <= i < |GetAll(ls, k)| && GetAll(ls, k)[i] == r.value
                          && forall j :: 0 <= j < i ==> !IdIs(GetAll(ls, k)[j], id)
  {
    FindById(GetAll(ls, k), id)
  }

  /** `getByProject(projectId)`: exactly the records of the project, in stored order
      and as often as stored; the project store has none. */
  function GetByProject(ls: LocalStorage, k: Kind, pid: string): (r: seq<Record>)
    requires k != Projects
    reads ls
    ensures forall x :: x in r <==> x in GetAll(ls, k) && ProjectIdIs(x, pid)
    ensures IsSubsequence(r, GetAll(ls, k))
    ensures forall x :: ProjectIdIs(x, pid) ==> multiset(r)[x] == multiset(GetAll(ls, k))[x]
  {
    ByProjectSpec(GetAll(ls, k), pid);
    ByProject(GetAll(ls, k), pid)
  }

  /** The record `create` stores: the data spread into a record with a fresh id and
      the creation time; every kind but media also gets an `updatedAt`, taken from a
      second reading of the clock. */
  function NewRecord(k: Kind, data: Record, id: string, t1: nat, t2: nat): Record {
    Stamped(data, id, Stamp(t1), if k == Media then None else Some(Stamp(t2)))
  }

  /** `create(data)`: the new record appended and the array written back. */
  method Create(ls: LocalStorage, k: Kind, data: Record, t1: nat, t2: nat) returns (item: Record)
    modifies ls
    ensures item == NewRecord(k, data, FreshId(old(GetAll(ls, k))), t1, t2)
    ensures ls.entries == old(ls.entries)[Key(k) := Encode(old(GetAll(ls, k)) + [item])]
  {
    var items := Get(ls, Key(k));
    item := NewRecord(k, data, FreshId(items), t1, t2);
    items := items + [item];
    Set(ls, Key(k), items);
  }

  /** After `create`, the collection is the old one with exactly the new record at its
      end; the new record carries the data, an id no earlier record has, and the
      stamps; no other collection changes. */
  lemma CreateAppends(cells: map<string, Stored>, k: Kind, other: Kind, data: Record, t1: nat, t2: nat)
    ensures var items := Read(cells, Key(k));
            var item := NewRecord(k, data, FreshId(items), t1, t2);
            var after := cells[Key(k) := Encode(items + [item])];
            Read(after, Key(k)) == items + [item]
            && (forall i :: 0 <= i < |items| ==> !IdIs(items[i], item["id"].s))
            && IdIs(item, item["id"].s)
            && item["createdAt"] == Str(Stamp(t1))
            && (k != Media ==> item["updatedAt"] == Str(Stamp(t2)))
            && (k == Media ==> ("updatedAt" in item <==> "updatedAt" in data))
            && (other != k ==> Read(after, Key(other)) == Read(cells, Key(other)))
  {
    var items := Read(cells, Key(k));
    var item := NewRecord(k, data, FreshId(items), t1, t2);
    ReadEncode(cells, Key(k), Key(other), items + [item]);
  }

  /** `{...old, ...data, updatedAt: now}`: supplied fields overwrite, omitted ones are
      kept, and `updatedAt` is the current time even when the data supplied one. */
  function Merge(existing: Record, data: Record, now: nat): (r: Record)
    ensures "updatedAt" in r && r["updatedAt"] == Str(Stamp(now))
    ensures forall key :: key in r <==> key in existing || key in data || key == "updatedAt"
    ensures forall key :: key in data && key != "updatedAt" ==> r[key] == data[key]
    ensures forall key :: key in existing && key !in data && key != "updatedAt" ==> r[key] == existing[key]
  {
    existing + data + map["updatedAt" := Str(Stamp(now))]
  }

  /** Merging a patch that agrees with the record on every field it names changes
      the record's `updatedAt` and nothing else. */
  lemma MergeAgreeing(existing: Record, data: Record, now: nat)
    requires forall key :: key in data ==> key in existing && existing[key] == data[key]
    ensures Merge(existing, data, now) == existing["updatedAt" := Str(Stamp(now))]
  {
  }

  /** `update(id, data)`: the first record with the id merged in place and the array
      written back, or `undefined` and no write when no record has the id. The media
      store has no update. */
  method Update(ls: LocalStorage, k: Kind, id: string, data: Record, now: nat) returns (res: Option<Record>)
    requires k != Media
    modifies ls
    ensures var items := old(GetAll(ls, k));
            var idx := FindIndex(items, id);
            if idx == -1 then res == None && ls.entries == old(ls.entries)
            else res == Some(Merge(items[idx], data, now))
                 && ls.entries == old(ls.entries)[Key(k) := Encode(items[idx := res.value])]
  {
    var items := Get(ls, Key(k));
    var idx := FindIndex(items, id);
    if idx == -1 {
      return None;
    }
    items := items[idx := Merge(items[idx], data, now)];
    Set(ls, Key(k), items);
    res := Some(items[idx]);
  }

  /** After an update of an existing id, only the first record with that id changed,
      and it changed as `Merge` says; every other position holds what it held. */
  lemma UpdateInPlace(cells: map<string, Stored>, k: Kind, id: string, data: Record, now: nat)
    requires FindIndex(Read(cells, Key(k)), id) != -1
    ensures var items := Read(cells, Key(k));
            var idx := FindIndex(items, id);
            var after := Read(cells[Key(k) := Encode(items[idx := Merge(items[idx], data, now)])], Key(k));
            |after| == |items|
            && after[idx] == Merge(items[idx], data, now)
            && (forall i :: 0 <= i < |items| && i != idx ==> after[i] == items[i])
            && (forall i :: 0 <= i < idx ==> !IdIs(items[i], id))
  {
    var items := Read(cells, Key(k));
    var idx := FindIndex(items, id);
    ReadEncode(cells, Key(k), Key(k), items[idx := Merge(items[idx], data, now)]);
  }

  /** The storage after `projectStore.delete(id)`: the project removed, and the
      documents, snippets and media that referred to it unlinked. Every one of the
      four entries is rewritten, whether or not anything matched. */
  function ProjectDeleted(cells: map<string, Stored>, id: string): map<string, Stored> {
    cells[Key(Projects) := Encode(WithoutId(Read(cells, Key(Projects)), id))]
         [Key(Documents) := Encode(Unlink(Read(cells, Key(Documents)), id))]
         [Key(Snippets) := Encode(Unlink(Read(cells, Key(Snippets)), id))]
         [Key(Media) := Encode(Unlink(Read(cells, Key(Media)), id))]
  }

  /** `delete(id)`: the records with the id filtered out and the array written back;
      for projects, followed by the unlink cascade. */
  method Delete(ls: LocalStorage, k: Kind, id: string)
    modifies ls
    ensures k != Projects ==> ls.entries == old(ls.entries)[Key(k) := Encode(WithoutId(old(GetAll(ls, k)), id))]
    ensures k == Projects ==> ls.entries == ProjectDeleted(old(ls.entries), id)
  {
    ghost var c0 := ls.entries;
    var kept := WithoutId(Get(ls, Key(k)), id);
    Set(ls, Key(k), kept);
    if k == Projects {
      ghost var c1 := ls.entries;
      ReadEncode(c0, Key(Projects), Key(Documents), kept);
      ReadEncode(c0, Key(Projects), Key(Snippets), kept);
      ReadEncode(c0, Key(Projects), Key(Media), kept);
      var docs := Unlink(Get(ls, Key(Documents)), id);
      Set(ls, Key(Documents), docs);
      ghost var c2 := ls.entries;
      ReadEncode(c1, Key(Documents), Key(Snippets), docs);
      ReadEncode(c1, Key(Documents), Key(Media), docs);
      var snippets := Unlink(Get(ls, Key(Snippets)), id);
      Set(ls, Key(Snippets), snippets);
      ReadEncode(c2, Key(Snippets), Key(Media), snippets);
      Set(ls, Key(Media), Unlink(Get(ls, Key(Media)), id));
    }
  }

  /** After deleting from a collection other than projects, it holds exactly its
      records without the id, in their old order and as often as before, and no
      other entry changes. */
  lemma DeleteRemoves(cells: map<string, Stored>, k: Kind, other: string, id: string)
    requires k != Projects && other != Key(k)
    ensures var items := Read(cells, Key(k));
            var after := cells[Key(k) := Encode(WithoutId(items, id))];
            (forall r :: r in Read(after, Key(k)) <==> r in items && !IdIs(r, id))
            && IsSubsequence(Read(after, Key(k)), items)
            && (forall r :: !IdIs(r, id) ==> multiset(Read(after, Key(k)))[r] == multiset(items)[r])
            && (other in after <==> other in cells) && (other in cells ==> after[other] == cells[other])
  {
    var items := Read(cells, Key(k));
    ReadEncode(cells, Key(k), Key(k), WithoutId(items, id));
    WithoutIdSpec(items, id);
  }

  /** What a later read of each of the four entries gives after a project delete. */
  lemma ProjectDeletedReads(cells: map<string, Stored>, id: string)
    ensures var after := ProjectDeleted(cells, id);
            Read(after, Key(Projects)) == WithoutId(Read(cells, Key(Projects)), id)
            && Read(after, Key(Documents)) == Unlink(Read(cells, Key(Documents)), id)
            && Read(after, Key(Snippets)) == Unlink(Read(cells, Key(Snippets)), id)
            && Read(after, Key(Media)) == Unlink(Read(cells, Key(Media)), id)
  {
    var p := WithoutId(Read(cells, Key(Projects)), id);
    var d := Unlink(Read(cells, Key(Documents)), id);
    var s := Unlink(Read(cells, Key(Snippets)), id);
    var m := Unlink(Read(cells, Key(Media)), id);
    var c1 := cells[Key(Projects) := Encode(p)];
    var c2 := c1[Key(Documents) := Encode(d)];
    var c3 := c2[Key(Snippets) := Encode(s)];
    ReadEncode(c3, Key(Media), Key(Projects), m);
    ReadEncode(c2, Key(Snippets), Key(Projects), s);
    ReadEncode(c1, Key(Documents), Key(Projects), d);
    ReadEncode(cells, Key(Projects), Key(Projects), p);
    ReadEncode(c3, Key(Media), Key(Documents), m);
    ReadEncode(c2, Key(Snippets), Key(Documents), s);
    ReadEncode(c1, Key(Documents), Key(Documents), d);
    ReadEncode(c3, Key(Media), Key(Snippets), m);
    ReadEncode(c2, Key(Snippets), Key(Snippets), s);
    ReadEncode(c3, Key(Media), Key(Media), m);
  }

  /** After a project delete: no project has the id, and no document, snippet or media
      item still refers to it; nothing is removed from those three collections, records
      that referred to other projects are unchanged, and every storage key other than
      the four is untouched. */
  lemma ProjectDeleteCascade(cells: map<string, Stored>, id: string)
    ensures var after := ProjectDeleted(cells, id);
            (forall r :: r in Read(after, Key(Projects)) <==> r in Read(cells, Key(Projects)) && !IdIs(r, id))
            && UnlinkedFrom(Read(cells, Key(Documents)), Read(after, Key(Documents)), id)
            && UnlinkedFrom(Read(cells, Key(Snippets)), Read(after, Key(Snippets)), id)
            && UnlinkedFrom(Read(cells, Key(Media)), Read(after, Key(Media)), id)
            && (forall key :: key != Key(Projects) && key != Key(Documents) && key != Key(Snippets) && key != Key(Media) ==>
                  (key in after <==> key in cells) && (key in cells ==> after[key] == cells[key]))
  {
    ProjectDeletedReads(cells, id);
    WithoutIdSpec(Read(cells, Key(Projects)), id);
    forall key | key != Key(Projects) && key != Key(Documents) && key != Key(Snippets) && key != Key(Media)
      ensures var after := ProjectDeleted(cells, id);
              (key in after <==> key in cells) && (key in cells ==> after[key] == cells[key])
    {
      ProjectDeleteKeeps(cells, id, key);
    }
  }

  /** A project delete leaves every key other than the four collections alone. */
  lemma ProjectDeleteKeeps(cells: map<string, Stored>, id: string, key: string)
    requires key != Key(Projects) && key != Key(Documents) && key != Key(Snippets) && key != Key(Media)
    ensures var after := ProjectDeleted(cells, id);
            (key in after <==> key in cells) && (key in cells ==> after[key] == cells[key])
  {
  }

  /** A call a page makes to a store from its save handler. */
  datatype Call = NoCall | CreateCall(data: Record) | UpdateCall(id: string, patch: Record)
}
