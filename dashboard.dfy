/** The overview page: the four collection counts, the five most recently
    updated projects, and the number of documents of each listed project. */
module Dashboard {
  import opened Wrappers
  import opened Seqs
  import opened Json
  import opened Types
  import opened Clock
  import opened Sorting
  import opened Store

  /** The sort comparison `(a, b) => time(b.updatedAt) - time(a.updatedAt)` read as
      "`a` may come before `b`". */
  function NewerOrSame(a: Project, b: Project): bool {
    TimeOf(b.updatedAt) <= TimeOf(a.updatedAt)
  }

  lemma NewerOrSameTotal()
    ensures TotalPreorder(NewerOrSame)
  {
  }

  /** `[...projects].sort(newest first).slice(0, 5)`. */
  function RecentProjects(projects: seq<Project>): seq<Project> {
    var sorted := Sort(projects, NewerOrSame);
    sorted[..if |sorted| < 5 then |sorted| else 5]
  }

  /** The list holds min(5, n) projects, newest first, all taken from the
      projects; every project left out is no newer than any listed one; and with
      five projects or fewer it lists each of them exactly once. */
  lemma RecentProjectsSpec(projects: seq<Project>)
    ensures var r := RecentProjects(projects);
            |r| == (if |projects| < 5 then |projects| else 5)
            && (forall i, j :: 0 <= i < j < |r| ==> TimeOf(r[j].updatedAt) <= TimeOf(r[i].updatedAt))
            && multiset(r) <= multiset(projects)
            && (forall p: Project, i :: p in multiset(projects) - multiset(r) && 0 <= i < |r| ==>
                  TimeOf(p.updatedAt) <= TimeOf(r[i].updatedAt))
            && (|projects| <= 5 ==> multiset(r) == multiset(projects))
  {
    var sorted := Sort(projects, NewerOrSame);
    NewerOrSameTotal();
    SortSpec(projects, NewerOrSame);
    var n := if |sorted| < 5 then |sorted| else 5;
    Prefix(sorted, n, NewerOrSame);
    if n == |sorted| {
      assert sorted[..n] == sorted;
    }
  }

  function OfProject(pid: string): Document -> bool {
    (d: Document) => d.projectId == Some(pid)
  }

  /** `documents.filter(d => d.projectId === project.id).length`. */
  function DocumentCount(documents: seq<Document>, pid: string): nat {
    |Filter(documents, OfProject(pid))|
  }

  /** The count shown for a project is the number of positions holding one of its
      documents; documents without a project count for none. */
  lemma DocumentCountSpec(documents: seq<Document>, pid: string)
    ensures DocumentCount(documents, pid) == |set i | 0 <= i < |documents| && documents[i].projectId == Some(pid)|
  {
    var keep := OfProject(pid);
    FilterCountsPositions(documents, keep);
    var b := set i | 0 <= i < |documents| && documents[i].projectId == Some(pid);
    forall i ensures i in Positions(documents, keep) <==> i in b {
    }
    assert Positions(documents, keep) == b;
  }

  datatype Stat = Stat(caption: string, count: nat)

  /** The four stat cards, read from local storage. */
  function Stats(cells: map<string, Stored>): seq<Stat> {
    [Stat("PROJECTS", |Read(cells, Key(Projects))|), Stat("DOCUMENTS", |Read(cells, Key(Documents))|),
     Stat("SNIPPETS", |Read(cells, Key(Snippets))|), Stat("MEDIA", |Read(cells, Key(Media))|)]
  }

  /** The card of a kind. */
  function CardIndex(k: Kind): nat {
    match k
    case Projects => 0
    case Documents => 1
    case Snippets => 2
    case Media => 3
  }

  /** The card of each kind shows the size of that collection. */
  lemma CardCounts(cells: map<string, Stored>, j: Kind)
    ensures Stats(cells)[CardIndex(j)].count == |Read(cells, Key(j))|
  {
  }

  /** The collection sizes after a create: one more record of the created kind. */
  lemma CreateSizes(cells: map<string, Stored>, k: Kind, j: Kind, item: Record)
    ensures var after := cells[Key(k) := Encode(Read(cells, Key(k)) + [item])];
            |Read(after, Key(j))| == |Read(cells, Key(j))| + (if j == k then 1 else 0)
  {
    KeyInjective(j, k);
    ReadEncode(cells, Key(k), Key(j), Read(cells, Key(k)) + [item]);
  }

  /** Each card counts its collection, and a `create` raises its own card by one
      and leaves the other three alone. */
  lemma StatsAfterCreate(cells: map<string, Stored>, k: Kind, data: Record, t1: nat, t2: nat)
    ensures forall j: Kind :: Stats(cells)[CardIndex(j)].count == |Read(cells, Key(j))|
    ensures var items := Read(cells, Key(k));
            var after := cells[Key(k) := Encode(items + [NewRecord(k, data, FreshId(items), t1, t2)])];
            forall j: Kind :: Stats(after)[CardIndex(j)].count
                                == Stats(cells)[CardIndex(j)].count + (if j == k then 1 else 0)
  {
    var items := Read(cells, Key(k));
    var item := NewRecord(k, data, FreshId(items), t1, t2);
    var after := cells[Key(k) := Encode(items + [item])];
    forall j: Kind
      ensures Stats(cells)[CardIndex(j)].count == |Read(cells, Key(j))|
      ensures Stats(after)[CardIndex(j)].count == Stats(cells)[CardIndex(j)].count + (if j == k then 1 else 0)
    {
      CardCounts(cells, j);
      CardCounts(after, j);
      CreateSizes(cells, k, j, item);
    }
  }

  /** `loadingProjects || loadingDocs || loadingSnippets || loadingMedia`, each flag
      possibly `undefined` (`None`). */
  function Loading(flags: seq<Option<bool>>): (r: bool)
    ensures r <==> Some(true) in flags
  {
    if flags == [] then false
    else flags[0] == Some(true) || Loading(flags[1..])
  }
}
