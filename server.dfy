/** The server's collection handlers: five collections, one JSON-array file each,
    read whole and rewritten whole by every handler (server.js). */
module Server {
  import opened Wrappers
  import opened Seqs
  import opened Json
  import opened Tables
  import opened Clock

  /** `VALID_COLLECTIONS`. */
  const ValidCollections: seq<string> := ["projects", "documents", "snippets", "media", "tasks"]

  /** The collections whose records are unlinked when a project is deleted. */
  const LinkedCollections: seq<string> := ["documents", "snippets", "media"]

  /** The check `validateCollection` makes before any handler runs. */
  predicate ValidateCollection(name: string): (ok: bool)
    ensures ok <==> name == "projects" || name == "documents" || name == "snippets"
                    || name == "media" || name == "tasks"
  {
    name in ValidCollections
  }

  /** A status code and a JSON body. */
  datatype Response = Response(status: int, body: Value)

  function ErrorBody(message: string): Value {
    Obj(map["error" := Str(message)])
  }

  /** The 400 answer for a collection name outside the allow-list; its message is
      `VALID_COLLECTIONS` joined with ", ". */
  const InvalidCollection: Response :=
    Response(400, ErrorBody("Invalid collection. Valid: projects, documents, snippets, media, tasks"))

  const NotFound: Response := Response(404, ErrorBody("Not found"))

  const Deleted: Response := Response(200, Obj(map["success" := Bool(true)]))

  /** The data directory: one file per collection, seen through `JSON.parse`. */
  class DataDir {
    var files: map<string, Stored>

    constructor (initial: map<string, Stored>)
      ensures files == initial
    {
      files := initial;
    }

    /** `readCollection(name)`: the file's array, or `[]` when reading or parsing fails. */
    function ReadCollection(name: string): (r: seq<Record>)
      reads this
      ensures name !in files || files[name].Unparseable? ==> r == []
    {
      Read(files, name)
    }

    /** `writeCollection(name, data)`: the file rewritten with the whole array. */
    method WriteCollection(name: string, data: seq<Record>)
      modifies this
      ensures files == old(files)[name := Encode(data)]
    {
      files := files[name := Encode(data)];
    }
  }

  /** `GET /api/:collection`. */
  method HandleGet(dir: DataDir, collection: string) returns (res: Response)
    ensures !ValidateCollection(collection) ==> res == InvalidCollection
    ensures ValidateCollection(collection) ==>
              res == Response(200, Encode(dir.ReadCollection(collection)).value)
              && Read(map[collection := Json(res.body)], collection) == dir.ReadCollection(collection)
  {
    if !ValidateCollection(collection) {
      return InvalidCollection;
    }
    var items := dir.ReadCollection(collection);
    ReadEncode(map[], collection, collection, items);
    res := Response(200, Encode(items).value);
  }

  /** The item `POST` stores: the body with a generated id and the creation time;
      outside `media` also `updatedAt`, from the same clock reading. */
  function NewItem(collection: string, body: Record, id: string, now: nat): Record {
    Stamped(body, id, Stamp(now), if collection != "media" then Some(Stamp(now)) else None)
  }

  /** A created item carries the generated id even when the body supplied one; it is
      created now, and updated now except in `media`, where `updatedAt` is what the
      body gave, if anything; every other body field is kept. */
  lemma NewItemSpec(collection: string, body: Record, id: string, now: nat)
    ensures var item := NewItem(collection, body, id, now);
            IdIs(item, id) && item["createdAt"] == Str(Stamp(now))
            && (collection != "media" ==> item["updatedAt"] == Str(Stamp(now)))
            && (collection == "media" ==> ("updatedAt" in item <==> "updatedAt" in body))
            && (forall k :: k in body && k != "id" && k != "createdAt" && k != "updatedAt" ==> item[k] == body[k])
  {
  }

  /** `POST /api/:collection`. */
  method HandlePost(dir: DataDir, collection: string, body: Record, now: nat) returns (res: Response)
    modifies dir
    ensures !ValidateCollection(collection) ==> res == InvalidCollection && dir.files == old(dir.files)
    ensures ValidateCollection(collection) ==>
              var items := old(dir.ReadCollection(collection));
              var item := NewItem(collection, body, FreshId(items), now);
              res == Response(201, Obj(item))
              && dir.files == old(dir.files)[collection := Encode(items + [item])]
  {
    if !ValidateCollection(collection) {
      return InvalidCollection;
    }
    var items := dir.ReadCollection(collection);
    var item := NewItem(collection, body, FreshId(items), now);
    items := items + [item];
    dir.WriteCollection(collection, items);
    res := Response(201, Obj(item));
  }

  /** `{...items[idx], ...body, id, updatedAt}`: body fields overwrite, omitted fields are
      kept, the id is forced to the path id and `updatedAt` is now, in every collection. */
  function PutItem(existing: Record, body: Record, id: string, now: nat): (r: Record)
    ensures IdIs(r, id)
    ensures "updatedAt" in r && r["updatedAt"] == Str(Stamp(now))
    ensures forall k :: k in r <==> k in existing || k in body || k == "id" || k == "updatedAt"
    ensures forall k :: k in body && k != "id" && k != "updatedAt" ==> r[k] == body[k]
    ensures forall k :: k in existing && k !in body && k != "id" && k != "updatedAt" ==> r[k] == existing[k]
  {
    existing + body + map["id" := Str(id), "updatedAt" := Str(Stamp(now))]
  }

  /** `PUT /api/:collection/:id`. */
  method HandlePut(dir: DataDir, collection: string, id: string, body: Record, now: nat) returns (res: Response)
    modifies dir
    ensures !ValidateCollection(collection) ==> res == InvalidCollection && dir.files == old(dir.files)
    ensures ValidateCollection(collection) ==>
              var items := old(dir.ReadCollection(collection));
              var idx := FindIndex(items, id);
              if idx == -1 then res == NotFound && dir.files == old(dir.files)
              else
                var item := PutItem(items[idx], body, id, now);
                res == Response(200, Obj(item))
                && dir.files == old(dir.files)[collection := Encode(items[idx := item])]
  {
    if !ValidateCollection(collection) {
      return InvalidCollection;
    }
    var items := dir.ReadCollection(collection);
    var idx := FindIndex(items, id);
    if idx == -1 {
      return NotFound;
    }
    items := items[idx := PutItem(items[idx], body, id, now)];
    dir.WriteCollection(collection, items);
    res := Response(200, Obj(items[idx]));
  }

  /** After a PUT of an existing id, a read of the collection gives the old items
      with only the first one carrying the id replaced, and no other file changes. */
  lemma PutInPlace(files: map<string, Stored>, collection: string, other: string, id: string, body: Record, now: nat)
    requires FindIndex(Read(files, collection), id) != -1
    ensures var items := Read(files, collection);
            var idx := FindIndex(items, id);
            var after := files[collection := Encode(items[idx := PutItem(items[idx], body, id, now)])];
            var now_items := Read(after, collection);
            |now_items| == |items| && now_items[idx] == PutItem(items[idx], body, id, now)
            && (forall i :: 0 <= i < |items| && i != idx ==> now_items[i] == items[i])
            && (other != collection ==> Read(after, other) == Read(files, other))
  {
    var items := Read(files, collection);
    var idx := FindIndex(items, id);
    ReadEncode(files, collection, other, items[idx := PutItem(items[idx], body, id, now)]);
  }

  /** The files after the `forEach` over `cols`: each file in turn read, unlinked from
      project `id`, and written back. */
  function UnlinkEach(files: map<string, Stored>, cols: seq<string>, id: string): map<string, Stored> {
    if cols == [] then files
    else
      var before := UnlinkEach(files, cols[..|cols| - 1], id);
      var col := cols[|cols| - 1];
      before[col := Encode(Unlink(Read(before, col), id))]
  }

  /** The files after a successful delete of `id` from `collection`. */
  function DeletedFiles(files: map<string, Stored>, collection: string, id: string): map<string, Stored> {
    var removed := files[collection := Encode(WithoutId(Read(files, collection), id))];
    if collection != "projects" then removed
    else
      var unlinked := UnlinkEach(removed, LinkedCollections, id);
      unlinked["tasks" := Encode(WithoutProject(Read(unlinked, "tasks"), id))]
  }

  /** `DELETE /api/:collection/:id`. */
  method HandleDelete(dir: DataDir, collection: string, id: string) returns (res: Response)
    modifies dir
    ensures !ValidateCollection(collection) ==> res == InvalidCollection && dir.files == old(dir.files)
    ensures ValidateCollection(collection) ==>
              var items := old(dir.ReadCollection(collection));
              if forall i :: 0 <= i < |items| ==> !IdIs(items[i], id) then
                res == NotFound && dir.files == old(dir.files)
              else
                res == Deleted && dir.files == DeletedFiles(old(dir.files), collection, id)
  {
    if !ValidateCollection(collection) {
      return InvalidCollection;
    }
    var items := dir.ReadCollection(collection);
    var before := |items|;
    assert |WithoutId(items, id)| == before <==> forall i :: 0 <= i < |items| ==> !IdIs(items[i], id) by {
      WithoutIdSpec(items, id);
    }
    items := WithoutId(items, id);
    if |items| == before {
      return NotFound;
    }
    dir.WriteCollection(collection, items);

    if collection == "projects" {
      ghost var removed := dir.files;
      for i := 0 to |LinkedCollections|
        invariant dir.files == UnlinkEach(removed, LinkedCollections[..i], id)
      {
        var col := LinkedCollections[i];
        var related := dir.ReadCollection(col);
        var updated := Unlink(related, id);
        assert LinkedCollections[..i + 1][..i] == LinkedCollections[..i];
        dir.WriteCollection(col, updated);
      }
      assert LinkedCollections[..|LinkedCollections|] == LinkedCollections;
      var tasks := WithoutProject(dir.ReadCollection("tasks"), id);
      dir.WriteCollection("tasks", tasks);
    }
    res := Deleted;
  }

  /** What a later read of each file gives after the project cascade. */
  lemma ProjectDeletedReads(files: map<string, Stored>, id: string)
    ensures var after := DeletedFiles(files, "projects", id);
            Read(after, "projects") == WithoutId(Read(files, "projects"), id)
            && Read(after, "documents") == Unlink(Read(files, "documents"), id)
            && Read(after, "snippets") == Unlink(Read(files, "snippets"), id)
            && Read(after, "media") == Unlink(Read(files, "media"), id)
            && Read(after, "tasks") == WithoutProject(Read(files, "tasks"), id)
  {
    var p := WithoutId(Read(files, "projects"), id);
    var c0 := files["projects" := Encode(p)];
    var cols := LinkedCollections;
    assert cols[..0] == [] && cols[..1][..0] == [] && cols[..2][..1] == cols[..1] && cols[..3][..2] == cols[..2];
    assert cols[..3] == cols;
    assert cols[..1][0] == "documents" && cols[..2][1] == "snippets" && cols[2] == "media";
    assert UnlinkEach(c0, cols[..1][..0], id) == c0;
    var c1 := UnlinkEach(c0, cols[..1], id);
    var c2 := UnlinkEach(c0, cols[..2], id);
    var c3 := UnlinkEach(c0, cols, id);
    var d := Unlink(Read(c0, "documents"), id);
    var s := Unlink(Read(c1, "snippets"), id);
    var m := Unlink(Read(c2, "media"), id);
    assert c1 == c0["documents" := Encode(d)];
    assert c2 == c1["snippets" := Encode(s)];
    assert c3 == c2["media" := Encode(m)];
    var t := WithoutProject(Read(c3, "tasks"), id);
    ReadEncode(files, "projects", "documents", p);
    ReadEncode(files, "projects", "snippets", p);
    ReadEncode(files, "projects", "media", p);
    ReadEncode(files, "projects", "tasks", p);
    ReadEncode(files, "projects", "projects", p);
    ReadEncode(c0, "documents", "snippets", d);
    ReadEncode(c0, "documents", "media", d);
    ReadEncode(c0, "documents", "tasks", d);
    ReadEncode(c0, "documents", "projects", d);
    ReadEncode(c0, "documents", "documents", d);
    ReadEncode(c1, "snippets", "media", s);
    ReadEncode(c1, "snippets", "tasks", s);
    ReadEncode(c1, "snippets", "projects", s);
    ReadEncode(c1, "snippets", "documents", s);
    ReadEncode(c1, "snippets", "snippets", s);
    ReadEncode(c2, "media", "tasks", m);
    ReadEncode(c2, "media", "projects", m);
    ReadEncode(c2, "media", "documents", m);
    ReadEncode(c2, "media", "snippets", m);
    ReadEncode(c2, "media", "media", m);
    ReadEncode(c3, "tasks", "projects", t);
    ReadEncode(c3, "tasks", "documents", t);
    ReadEncode(c3, "tasks", "snippets", t);
    ReadEncode(c3, "tasks", "media", t);
    ReadEncode(c3, "tasks", "tasks", t);
  }

  /** Deleting a project removes it, sets `projectId` to null on the documents,
      snippets and media that referred to it without removing any of them, leaves
      the ones that referred elsewhere unchanged, and removes exactly the tasks of
      that project, keeping the others in order. */
  lemma ProjectDeleteCascade(files: map<string, Stored>, id: string)
    ensures var after := DeletedFiles(files, "projects", id);
            (forall r :: r in Read(after, "projects") <==> r in Read(files, "projects") && !IdIs(r, id))
            && UnlinkedFrom(Read(files, "documents"), Read(after, "documents"), id)
            && UnlinkedFrom(Read(files, "snippets"), Read(after, "snippets"), id)
            && UnlinkedFrom(Read(files, "media"), Read(after, "media"), id)
            && (forall r :: r in Read(after, "tasks") <==> r in Read(files, "tasks") && !ProjectIdIs(r, id))
            && IsSubsequence(Read(after, "tasks"), Read(files, "tasks"))
            && (forall r: Record :: !ProjectIdIs(r, id) ==> multiset(Read(after, "tasks"))[r] == multiset(Read(files, "tasks"))[r])
  {
    ProjectDeletedReads(files, id);
    WithoutIdSpec(Read(files, "projects"), id);
    ByProjectSpec(Read(files, "tasks"), id);
  }

  /** Deleting from any other collection rewrites that collection only. */
  lemma OtherDeleteIsLocal(files: map<string, Stored>, collection: string, id: string, other: string)
    requires collection != "projects" && other != collection
    ensures var after := DeletedFiles(files, collection, id);
            (other in after <==> other in files) && (other in files ==> after[other] == files[other])
            && Read(after, collection) == WithoutId(Read(files, collection), id)
  {
    ReadEncode(files, collection, collection, WithoutId(Read(files, collection), id));
  }
}
