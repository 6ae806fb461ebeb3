/** Operations on one collection (a sequence of records) that the client store
    and the server handlers share: lookup by id, creation stamps, removal by id,
    selection by project, and the unlink step of the project cascade. */
module Tables {
  import opened Wrappers
  import opened Seqs
  import opened Json

  /** `items.findIndex(i => i.id === id)`. */
  function FindIndex(items: seq<Record>, id: string): (idx: int)
    ensures -1 <= idx < |items|
    ensures idx == -1 <==> forall i :: 0 <= i < |items| ==> !IdIs(items[i], id)
    ensures idx >= 0 ==> IdIs(items[idx], id) && forall i :: 0 <= i < idx ==> !IdIs(items[i], id)
  {
    if items == [] then -1
    else if IdIs(items[0], id) then 0
    else
      var k := FindIndex(items[1..], id);
      assert forall i :: 1 <= i < |items| ==> items[i] == items[1..][i - 1];
      if k == -1 then -1 else k + 1
  }

  /** `items.find(i => i.id === id)`: the first record with that id. */
  function FindById(items: seq<Record>, id: string): (r: Option<Record>)
    ensures r.None? <==> forall i :: 0 <= i < |items| ==> !IdIs(items[i], id)
    ensures r.Some? ==> exists i :: 0 <= i < |items| && items[i] == r.value
                          && IdIs(r.value, id) && forall j :: 0 <= j < i ==> !IdIs(items[j], id)
  {
    var idx := FindIndex(items, id);
    if idx == -1 then None else Some(items[idx])
  }

  /** `{...data, id, createdAt, updatedAt}` with `updatedAt` left out when `updated`
      is `None`: the record a create operation stores. */
  function Stamped(data: Record, id: string, created: string, updated: Option<string>): (r: Record)
    ensures IdIs(r, id) && "createdAt" in r && r["createdAt"] == Str(created)
    ensures updated.Some? ==> "updatedAt" in r && r["updatedAt"] == Str(updated.value)
    ensures updated.None? ==>
              ("updatedAt" in r <==> "updatedAt" in data) &&
              ("updatedAt" in data ==> r["updatedAt"] == data["updatedAt"])
    ensures forall k :: k in r <==> k in data || k == "id" || k == "createdAt" || (k == "updatedAt" && updated.Some?)
    ensures forall k :: k in data && k != "id" && k != "createdAt" && k != "updatedAt" ==> r[k] == data[k]
  {
    var base := data + map["id" := Str(id), "createdAt" := Str(created)];
    if updated.Some? then base + map["updatedAt" := Str(updated.value)] else base
  }

  /** `items.filter(i => i.id !== id)`. */
  function WithoutId(items: seq<Record>, id: string): seq<Record> {
    Filter(items, (r: Record) => !IdIs(r, id))
  }

  /** Removal by id drops every record with that id, keeps every other one in order
      and as often as it occurred, and shortens the collection exactly when some record had the id. */
  lemma WithoutIdSpec(items: seq<Record>, id: string)
    ensures forall r :: r in WithoutId(items, id) <==> r in items && !IdIs(r, id)
    ensures IsSubsequence(WithoutId(items, id), items)
    ensures |WithoutId(items, id)| == |items| <==> forall i :: 0 <= i < |items| ==> !IdIs(items[i], id)
    ensures forall r: Record :: !IdIs(r, id) ==> multiset(WithoutId(items, id))[r] == multiset(items)[r]
  {
    var keep := (r: Record) => !IdIs(r, id);
    var drop := (r: Record) => IdIs(r, id);
    forall r | !IdIs(r, id)
      ensures multiset(WithoutId(items, id))[r] == multiset(items)[r]
    {
      FilterKeepsCount(items, keep, r);
    }
    FilterSpec(items, keep);
    FilterSplit(items, keep, drop);
    FilterEmpty(items, drop);
    if forall i :: 0 <= i < |items| ==> !IdIs(items[i], id) {
      FilterAll(items, keep);
    }
  }

  /** `items.filter(i => i.projectId === pid)`: the `getByProject` selection. */
  function ByProject(items: seq<Record>, pid: string): seq<Record> {
    Filter(items, (r: Record) => ProjectIdIs(r, pid))
  }

  /** `items.filter(i => i.projectId !== pid)`: the hard delete of a project's tasks. */
  function WithoutProject(items: seq<Record>, pid: string): seq<Record> {
    Filter(items, (r: Record) => !ProjectIdIs(r, pid))
  }

  /** The selection by project holds exactly the project's records, in stored order
      and as often as stored, and the hard delete exactly the others, likewise. */
  lemma ByProjectSpec(items: seq<Record>, pid: string)
    ensures forall r :: r in ByProject(items, pid) <==> r in items && ProjectIdIs(r, pid)
    ensures IsSubsequence(ByProject(items, pid), items)
    ensures forall r :: r in WithoutProject(items, pid) <==> r in items && !ProjectIdIs(r, pid)
    ensures IsSubsequence(WithoutProject(items, pid), items)
    ensures |ByProject(items, pid)| + |WithoutProject(items, pid)| == |items|
    ensures forall r: Record :: ProjectIdIs(r, pid) ==> multiset(ByProject(items, pid))[r] == multiset(items)[r]
    ensures forall r: Record :: !ProjectIdIs(r, pid) ==> multiset(WithoutProject(items, pid))[r] == multiset(items)[r]
  {
    forall r: Record | ProjectIdIs(r, pid) ensures multiset(ByProject(items, pid))[r] == multiset(items)[r] {
      FilterKeepsCount(items, (r: Record) => ProjectIdIs(r, pid), r);
    }
    forall r: Record | !ProjectIdIs(r, pid) ensures multiset(WithoutProject(items, pid))[r] == multiset(items)[r] {
      FilterKeepsCount(items, (r: Record) => !ProjectIdIs(r, pid), r);
    }
    FilterSpec(items, (r: Record) => ProjectIdIs(r, pid));
    FilterSpec(items, (r: Record) => !ProjectIdIs(r, pid));
    FilterSplit(items, (r: Record) => ProjectIdIs(r, pid), (r: Record) => !ProjectIdIs(r, pid));
  }

  /** `items.map(i => i.projectId === pid ? {...i, projectId: null} : i)`: nothing is
      removed, no record still points at `pid`, a record that pointed at it differs
      only in `projectId`, and every other record is untouched. */
  function Unlink(items: seq<Record>, pid: string): (r: seq<Record>)
    ensures |r| == |items|
    ensures forall i :: 0 <= i < |r| ==> !ProjectIdIs(r[i], pid)
    ensures forall i :: 0 <= i < |r| && !ProjectIdIs(items[i], pid) ==> r[i] == items[i]
    ensures forall i :: 0 <= i < |r| && ProjectIdIs(items[i], pid) ==>
              "projectId" in r[i] && r[i]["projectId"] == Null && r[i].Keys == items[i].Keys
              && forall k :: k in items[i] && k != "projectId" ==> r[i][k] == items[i][k]
  {
    seq(|items|, i requires 0 <= i < |items| =>
      if ProjectIdIs(items[i], pid) then items[i]["projectId" := Null] else items[i])
  }

  /** `now` is `was` with the project `id` unlinked: same length, nothing refers to
      `id`, and records that referred elsewhere are unchanged. */
  ghost predicate UnlinkedFrom(was: seq<Record>, now: seq<Record>, id: string) {
    |now| == |was|
    && (forall i :: 0 <= i < |now| ==> !ProjectIdIs(now[i], id))
    && (forall i :: 0 <= i < |now| && !ProjectIdIs(was[i], id) ==> now[i] == was[i])
  }
}
