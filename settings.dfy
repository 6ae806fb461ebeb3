/** The settings page's backup operations over local storage: export of the four
    collections, import of a backup file, and clearing all data. The file picker,
    the download and the page reload are outside the model; the imported text is
    given as what `JSON.parse` made of it (`None` when it threw). */
module Settings {
  import opened Wrappers
  import opened Json
  import opened Clock
  import opened Store

  /** The property names of a backup, one per collection. */
  function FieldName(k: Kind): string {
    match k
    case Projects => "projects"
    case Documents => "documents"
    case Snippets => "snippets"
    case Media => "media"
  }

  /** The object `handleExport` serialises. */
  function ExportPayload(cells: map<string, Stored>, exportedAt: nat): (v: Value)
    ensures v.Obj? && v.fields.Keys == {"projects", "documents", "snippets", "media", "exportedAt"}
    ensures "tasks" !in v.fields
    ensures forall k: Kind :: v.fields[FieldName(k)] == Encode(Read(cells, Key(k))).value
    ensures v.fields["exportedAt"] == Str(Stamp(exportedAt))
  {
    Obj(map["projects" := Encode(Read(cells, Key(Projects))).value,
            "documents" := Encode(Read(cells, Key(Documents))).value,
            "snippets" := Encode(Read(cells, Key(Snippets))).value,
            "media" := Encode(Read(cells, Key(Media))).value,
            "exportedAt" := Str(Stamp(exportedAt))])
  }

  /** `data[name]` when `data` is a JSON value other than `null`: an object's
      property, and `undefined` (`None`) for a missing property or another value. */
  function Member(v: Value, name: string): Option<Value> {
    if v.Obj? && name in v.fields then Some(v.fields[name]) else None
  }

  /** `if (data[name]) localStorage.setItem(key, JSON.stringify(data[name]))`. */
  function ImportField(cells: map<string, Stored>, data: Value, k: Kind): map<string, Stored> {
    var m := Member(data, FieldName(k));
    if m.Some? && Truthy(m.value) then cells[Key(k) := Json(m.value)] else cells
  }

  /** The storage after importing a parsed backup. A parse failure, and a backup that
      is `null` (whose first property access throws), change nothing. */
  function Imported(cells: map<string, Stored>, parsed: Option<Value>): map<string, Stored> {
    if parsed.None? || parsed.value.Null? then cells
    else
      var data := parsed.value;
      ImportField(ImportField(ImportField(ImportField(cells, data, Projects), data, Documents), data, Snippets), data, Media)
  }

  /** `handleImport`'s reader callback. */
  method Import(ls: LocalStorage, parsed: Option<Value>)
    modifies ls
    ensures ls.entries == Imported(old(ls.entries), parsed)
  {
    if parsed.None? || parsed.value.Null? {
      return;
    }
    var data := parsed.value;
    var m := Member(data, "projects");
    if m.Some? && Truthy(m.value) { ls.SetItem("labyrinth_projects", m.value); }
    m := Member(data, "documents");
    if m.Some? && Truthy(m.value) { ls.SetItem("labyrinth_documents", m.value); }
    m := Member(data, "snippets");
    if m.Some? && Truthy(m.value) { ls.SetItem("labyrinth_snippets", m.value); }
    m := Member(data, "media");
    if m.Some? && Truthy(m.value) { ls.SetItem("labyrinth_media", m.value); }
  }

  /** Importing overwrites a collection's entry exactly when the backup has a truthy
      field of that name, and then with that field; every other entry, including
      every key that is not one of the four, is left as it was. */
  lemma ImportSpec(cells: map<string, Stored>, parsed: Option<Value>, k: Kind, key: string)
    ensures var after := Imported(cells, parsed);
            var m := if parsed.Some? then Member(parsed.value, FieldName(k)) else None;
            if m.Some? && Truthy(m.value) then Key(k) in after && after[Key(k)] == Json(m.value)
            else (Key(k) in after <==> Key(k) in cells) && (Key(k) in cells ==> after[Key(k)] == cells[Key(k)])
    ensures (forall j: Kind :: key != Key(j)) ==>
              var after := Imported(cells, parsed);
              (key in after <==> key in cells) && (key in cells ==> after[key] == cells[key])
  {
    if parsed.Some? && !parsed.value.Null? {
      var data := parsed.value;
      var c1 := ImportField(cells, data, Projects);
      var c2 := ImportField(c1, data, Documents);
      var c3 := ImportField(c2, data, Snippets);
      KeyInjective(k, Projects);
      KeyInjective(k, Documents);
      KeyInjective(k, Snippets);
      KeyInjective(k, Media);
    }
  }

  /** A failed parse changes no entry. */
  lemma ImportParseFailure(cells: map<string, Stored>)
    ensures Imported(cells, None) == cells
  {
  }

  /** Exporting and importing the backup again gives every collection back as it
      was read. */
  lemma ExportImport(cells: map<string, Stored>, exportedAt: nat, k: Kind)
    ensures Read(Imported(cells, Some(ExportPayload(cells, exportedAt))), Key(k)) == Read(cells, Key(k))
  {
    var data := ExportPayload(cells, exportedAt);
    ImportSpec(cells, Some(data), k, Key(k));
    var rs := Read(cells, Key(k));
    ReadEncode(cells, Key(k), Key(k), rs);
  }

  /** The storage after a confirmed clear: the four collection entries removed. */
  function Cleared(cells: map<string, Stored>): map<string, Stored> {
    cells - {Key(Projects), Key(Documents), Key(Snippets), Key(Media)}
  }

  /** `handleClear`, given the answer to the confirmation prompt. */
  method Clear(ls: LocalStorage, confirmed: bool)
    modifies ls
    ensures ls.entries == if confirmed then Cleared(old(ls.entries)) else old(ls.entries)
  {
    if confirmed {
      ls.RemoveItem("labyrinth_projects");
      ls.RemoveItem("labyrinth_documents");
      ls.RemoveItem("labyrinth_snippets");
      ls.RemoveItem("labyrinth_media");
    }
  }

  /** After a clear every collection reads as empty, and every other key keeps its
      entry. */
  lemma ClearedSpec(cells: map<string, Stored>, key: string)
    ensures forall k: Kind :: Key(k) !in Cleared(cells) && Read(Cleared(cells), Key(k)) == []
    ensures (forall j: Kind :: key != Key(j)) ==>
              (key in Cleared(cells) <==> key in cells) && (key in cells ==> Cleared(cells)[key] == cells[key])
  {
    assert forall k: Kind :: Key(k) in {Key(Projects), Key(Documents), Key(Snippets), Key(Media)};
  }
}
