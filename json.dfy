/** JSON values and the whole-array storage cells both stores are built on.

    A record is a JSON object, `map<string, Value>`; the object spread
    `{...a, ...b}` is the map union `a + b` (keys of `b` win).

    A storage cell (a local-storage entry, or a collection file on the server)
    is abstracted as what `JSON.parse` makes of its text: a JSON value, or a
    failure for text that does not parse (or, on the client, is empty). */
module Json {
  import opened Wrappers

  datatype Value =
    | Null
    | Bool(b: bool)
    | Num(n: int)
    | Str(s: string)
    | Arr(items: seq<Value>)
    | Obj(fields: map<string, Value>)

  type Record = map<string, Value>

  /** JavaScript truthiness of a JSON value (`if (v)`, `v || w`). */
  predicate Truthy(v: Value) {
    match v
    case Null => false
    case Bool(b) => b
    case Num(n) => n != 0
    case Str(s) => s != ""
    case Arr(_) => true
    case Obj(_) => true
  }

  /** `r.id === id`. */
  predicate IdIs(r: Record, id: string) {
    "id" in r && r["id"] == Str(id)
  }

  /** `r.projectId === pid`. */
  predicate ProjectIdIs(r: Record, pid: string) {
    "projectId" in r && r["projectId"] == Str(pid)
  }

  datatype Stored = Json(value: Value) | Unparseable

  /** The records of an array value, when every element is an object. */
  function AsRecords(xs: seq<Value>): (r: Option<seq<Record>>)
    ensures r.Some? ==> |r.value| == |xs| && forall i :: 0 <= i < |xs| ==> xs[i] == Obj(r.value[i])
  {
    if xs == [] then Some([])
    else if !xs[0].Obj? then None
    else match AsRecords(xs[1..])
      case None => None
      case Some(rest) => Some([xs[0].fields] + rest)
  }

  /** The text `JSON.stringify` writes for a collection. */
  function Encode(rs: seq<Record>): (c: Stored)
    ensures c.Json? && c.value.Arr? && |c.value.items| == |rs|
  {
    Json(Arr(seq(|rs|, i requires 0 <= i < |rs| => Obj(rs[i]))))
  }

  /** Reading a collection from a cell: the stored array, or `[]` when the cell is
      missing, does not parse, or holds something other than an array of objects. */
  function Read(cells: map<string, Stored>, key: string): (rs: seq<Record>)
    ensures key !in cells || cells[key].Unparseable? ==> rs == []
    ensures rs != [] ==> key in cells && cells[key] == Encode(rs)
  {
    if key !in cells then []
    else match cells[key]
      case Unparseable => []
      case Json(v) =>
        if !v.Arr? then []
        else match AsRecords(v.items)
          case None => []
          case Some(r) =>
            assert Encode(r).value.items == v.items;
            r
  }

  lemma {:induction false} AsRecordsObjects(rs: seq<Record>)
    ensures AsRecords(seq(|rs|, i requires 0 <= i < |rs| => Obj(rs[i]))) == Some(rs)
  {
    var xs := seq(|rs|, i requires 0 <= i < |rs| => Obj(rs[i]));
    if rs != [] {
      AsRecordsObjects(rs[1..]);
      assert xs[1..] == seq(|rs[1..]|, i requires 0 <= i < |rs[1..]| => Obj(rs[1..][i]));
      assert rs == [rs[0]] + rs[1..];
    }
  }

  /** Writing a collection and reading it back gives the same records, and no
      other cell is affected. */
  lemma ReadEncode(cells: map<string, Stored>, key: string, other: string, rs: seq<Record>)
    ensures Read(cells[key := Encode(rs)], key) == rs
    ensures other != key ==> Read(cells[key := Encode(rs)], other) == Read(cells, other)
  {
    AsRecordsObjects(rs);
  }

  /** The fresh-id oracle that stands for `crypto.randomUUID()`: an id that no
      record of the collection carries. */
  function FreshId(rs: seq<Record>): (id: string)
    ensures forall i :: 0 <= i < |rs| ==> !IdIs(rs[i], id)
  {
    seq(LongestId(rs) + 1, i => 'u')
  }

  /** The length of the longest string id in the collection. */
  function LongestId(rs: seq<Record>): (n: nat)
    ensures forall i :: 0 <= i < |rs| && "id" in rs[i] && rs[i]["id"].Str? ==> |rs[i]["id"].s| <= n
  {
    if rs == [] then 0
    else
      var m := LongestId(rs[1..]);
      var here := if "id" in rs[0] && rs[0]["id"].Str? then |rs[0]["id"].s| else 0;
      assert forall i :: 1 <= i < |rs| ==> rs[i] == rs[1..][i - 1];
      if here > m then here else m
  }
}
