/** The logic of the projects page: the search over name and description, the
    dialog's colour palette and defaults, and the save handler's guard and payload. */
module Projects {
  import opened Wrappers
  import opened Seqs
  import opened Json
  import opened Text
  import opened Types
  import opened Clock
  import opened Store

  /** The colour choices of the project dialog. */
  const ProjectColors: seq<string> := ["#7c5cfc", "#22d3ee", "#22c55e", "#f59e0b", "#ef4444", "#ec4899"]

  function FilterProjects(projects: seq<Project>, search: string): seq<Project> {
    Filter(projects, (p: Project) => SearchHits(search, p.name, p.description))
  }

  /** A project is listed iff the search hits its name or description; an empty
      search lists every project; the list keeps the stored order. */
  lemma FilterProjectsSpec(projects: seq<Project>, search: string)
    ensures forall p :: p in FilterProjects(projects, search) <==> p in projects && SearchHits(search, p.name, p.description)
    ensures IsSubsequence(FilterProjects(projects, search), projects)
    ensures search == [] ==> FilterProjects(projects, search) == projects
    ensures forall p: Project :: SearchHits(search, p.name, p.description) ==>
              multiset(FilterProjects(projects, search))[p] == multiset(projects)[p]
  {
    var keep := (p: Project) => SearchHits(search, p.name, p.description);
    FilterSpec(projects, keep);
    forall p | keep(p) ensures multiset(FilterProjects(projects, search))[p] == multiset(projects)[p] {
      FilterKeepsCount(projects, keep, p);
    }
    if search == [] {
      forall i | 0 <= i < |projects| ensures keep(projects[i]) {
        SearchHitsSpec(search, projects[i].name, projects[i].description);
      }
      FilterAll(projects, keep);
    }
  }

  /** The dialog's form fields. */
  datatype ProjectForm = ProjectForm(name: string, description: string, color: string)

  /** `openCreate`: empty text and the first palette colour. */
  function OpenCreate(): (f: ProjectForm)
    ensures f.color in ProjectColors && f.color == ProjectColors[0]
  {
    ProjectForm("", "", ProjectColors[0])
  }

  /** `openEdit`: the dialog opens on the project's stored name, description and
      colour, so what it would send agrees with the stored record field by field. */
  function OpenEdit(p: Project): (f: ProjectForm)
    ensures forall k :: k in ProjectPayload(f) ==> k in ProjectRecord(p) && ProjectPayload(f)[k] == ProjectRecord(p)[k]
  {
    var f := ProjectForm(p.name, p.description, p.color);
    assert ProjectPayload(f)["name"] == ProjectRecord(p)["name"];
    f
  }

  /** `{ name, description, color }`. */
  function ProjectPayload(f: ProjectForm): (r: Record)
    ensures r.Keys == {"name", "description", "color"}
  {
    map["name" := Str(f.name), "description" := Str(f.description), "color" := Str(f.color)]
  }

  /** What saving the dialog sends: nothing for a blank name, otherwise an update
      of exactly name, description and colour of the edited project, or a create. */
  function ProjectSave(editing: Option<Project>, f: ProjectForm): (c: Call)
    ensures c.NoCall? <==> Blank(f.name)
    ensures c.UpdateCall? ==> editing.Some? && c.id == editing.value.id && c.patch == ProjectPayload(f)
    ensures c.CreateCall? ==> editing.None? && c.data == ProjectPayload(f)
  {
    TrimEmpty(f.name);
    if Trim(f.name) == [] then NoCall
    else match editing
      case Some(p) => UpdateCall(p.id, ProjectPayload(f))
      case None => CreateCall(ProjectPayload(f))
  }

  /** Merging the dialog's payload into a stored project gives the project with
      the form's name, description and colour and a fresh `updatedAt`. */
  lemma MergePayload(p: Project, f: ProjectForm, now: nat)
    ensures Merge(ProjectRecord(p), ProjectPayload(f), now)
            == ProjectRecord(p.(name := f.name, description := f.description, color := f.color,
                                updatedAt := Stamp(now)))
  {
    var want := ProjectRecord(p.(name := f.name, description := f.description, color := f.color,
                                 updatedAt := Stamp(now)));
    var m := Merge(ProjectRecord(p), ProjectPayload(f), now);
    assert m.Keys == want.Keys;
    forall k | k in m ensures m[k] == want[k] {
      if k == "name" || k == "description" || k == "color" || k == "updatedAt" {
      } else {
        assert k == "id" || k == "createdAt";
      }
    }
  }

  /** Saving an edited project changes its name, description and colour to the
      form's, refreshes `updatedAt`, and keeps its id and `createdAt`. */
  lemma EditSave(p: Project, f: ProjectForm, now: nat)
    requires !Blank(f.name)
    ensures var c := ProjectSave(Some(p), f);
            c.UpdateCall? && c.id == p.id
            && Merge(ProjectRecord(p), c.patch, now)
               == ProjectRecord(p.(name := f.name, description := f.description, color := f.color,
                                   updatedAt := Stamp(now)))
  {
    MergePayload(p, f, now);
  }

  /** Saving an edited project unchanged refreshes only its `updatedAt`. */
  lemma UnchangedEditSave(p: Project, now: nat)
    requires !Blank(p.name)
    ensures var c := ProjectSave(Some(p), OpenEdit(p));
            c.UpdateCall? && c.id == p.id
            && Merge(ProjectRecord(p), c.patch, now) == ProjectRecord(p)["updatedAt" := Str(Stamp(now))]
  {
    var r := ProjectRecord(p);
    var q := ProjectPayload(OpenEdit(p));
    assert q["name"] == r["name"] && q["description"] == r["description"] && q["color"] == r["color"];
    MergeAgreeing(r, q, now);
  }
}
