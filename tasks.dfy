/** The logic of the tasks page: the status cycle, the project filter, the
    grouping of tasks into the three status columns, and the guards of the
    create/edit dialog.

    The page reads and writes its tasks through a task store that the store
    module does not define, so the tasks are a parameter here and the page's
    writes are described as `Store.Call` values. */
module Tasks {
  import opened Wrappers
  import opened Seqs
  import opened Json
  import opened Text
  import opened Types
  import opened Store

  datatype TaskStatus = TODO | IN_PROGRESS | DONE
  datatype TaskPriority = LOW | MEDIUM | HIGH

  datatype Task = Task(id: string, title: string, description: string, status: TaskStatus,
                       priority: TaskPriority, projectId: string, createdAt: string, updatedAt: string)

  function StatusName(s: TaskStatus): string {
    match s
    case TODO => "TODO"
    case IN_PROGRESS => "IN_PROGRESS"
    case DONE => "DONE"
  }

  function PriorityName(p: TaskPriority): string {
    match p
    case LOW => "LOW"
    case MEDIUM => "MEDIUM"
    case HIGH => "HIGH"
  }

  /** The status a click on a task's status icon moves it to. */
  function NextStatus(s: TaskStatus): (r: TaskStatus)
    ensures r != s
  {
    match s
    case TODO => IN_PROGRESS
    case IN_PROGRESS => DONE
    case DONE => TODO
  }

  /** `n` clicks on the status icon. */
  function Cycle(s: TaskStatus, n: nat): TaskStatus
    decreases n
  {
    if n == 0 then s else Cycle(NextStatus(s), n - 1)
  }

  /** The cycle has period three: three clicks bring every status back, and so
      does any multiple of three, while one or two clicks never do. */
  lemma {:induction false} CyclePeriod(s: TaskStatus, n: nat)
    ensures Cycle(s, 3 * n) == s
    ensures Cycle(s, 3 * n + 1) != s && Cycle(s, 3 * n + 2) != s
  {
    if n > 0 {
      CyclePeriod(s, n - 1);
      assert Cycle(s, 3 * n) == Cycle(Cycle(s, 3 * (n - 1)), 3) by { CycleAdd(s, 3 * (n - 1), 3); }
      CycleAdd(s, 3 * n, 1);
      CycleAdd(s, 3 * n, 2);
    } else {
      assert Cycle(s, 1) == NextStatus(s);
      assert Cycle(s, 2) == NextStatus(NextStatus(s));
    }
  }

  lemma {:induction false} CycleAdd(s: TaskStatus, m: nat, n: nat)
    ensures Cycle(s, m + n) == Cycle(Cycle(s, m), n)
    decreases m
  {
    if m > 0 {
      CycleAdd(NextStatus(s), m - 1, n);
    }
  }

  /** The update a status click sends: only the `status` field, set to the next status. */
  function CycleCall(t: Task): (c: Call)
    ensures c.UpdateCall? && c.id == t.id && c.patch.Keys == {"status"}
    ensures c.patch["status"] == Str(StatusName(NextStatus(t.status)))
  {
    UpdateCall(t.id, map["status" := Str(StatusName(NextStatus(t.status)))])
  }

  function InProject(pid: string): Task -> bool {
    (t: Task) => t.projectId == pid
  }

  /** The tasks shown for the project selector's value `filter`. */
  function FilterTasks(tasks: seq<Task>, filter: string): seq<Task> {
    if filter == "all" then tasks else Filter(tasks, InProject(filter))
  }

  /** `'all'` shows every task; any other value shows exactly the tasks of that
      project, in stored order. */
  lemma FilterTasksSpec(tasks: seq<Task>, filter: string)
    ensures filter == "all" ==> FilterTasks(tasks, filter) == tasks
    ensures filter != "all" ==>
              (forall t :: t in FilterTasks(tasks, filter) <==> t in tasks && t.projectId == filter)
              && IsSubsequence(FilterTasks(tasks, filter), tasks)
              && (forall t: Task :: t.projectId == filter ==> multiset(FilterTasks(tasks, filter))[t] == multiset(tasks)[t])
  {
    FilterSpec(tasks, InProject(filter));
    forall t: Task | t.projectId == filter ensures multiset(FilterTasks(tasks, filter))[t] == multiset(tasks)[t] {
      FilterKeepsCount(tasks, InProject(filter), t);
    }
  }

  function HasStatus(s: TaskStatus): Task -> bool {
    (t: Task) => t.status == s
  }

  /** The three status columns. */
  datatype Grouped = Grouped(todo: seq<Task>, inProgress: seq<Task>, done: seq<Task>)

  function Column(g: Grouped, s: TaskStatus): seq<Task> {
    match s
    case TODO => g.todo
    case IN_PROGRESS => g.inProgress
    case DONE => g.done
  }

  /** One pass over the shown tasks, appending each to the column of its status. */
  method Group(filtered: seq<Task>) returns (g: Grouped)
    ensures g.todo == Filter(filtered, HasStatus(TODO))
    ensures g.inProgress == Filter(filtered, HasStatus(IN_PROGRESS))
    ensures g.done == Filter(filtered, HasStatus(DONE))
  {
    var todo, inProgress, done := [], [], [];
    for i := 0 to |filtered|
      invariant todo == Filter(filtered[..i], HasStatus(TODO))
      invariant inProgress == Filter(filtered[..i], HasStatus(IN_PROGRESS))
      invariant done == Filter(filtered[..i], HasStatus(DONE))
    {
      var t := filtered[i];
      assert filtered[..i + 1] == filtered[..i] + [t];
      FilterConcat(filtered[..i], [t], HasStatus(TODO));
      FilterConcat(filtered[..i], [t], HasStatus(IN_PROGRESS));
      FilterConcat(filtered[..i], [t], HasStatus(DONE));
      match t.status
      case TODO => todo := todo + [t];
      case IN_PROGRESS => inProgress := inProgress + [t];
      case DONE => done := done + [t];
    }
    assert filtered[..|filtered|] == filtered;
    g := Grouped(todo, inProgress, done);
  }

  /** The columns that `Group` builds. */
  function Grouping(filtered: seq<Task>): Grouped {
    Grouped(Filter(filtered, HasStatus(TODO)), Filter(filtered, HasStatus(IN_PROGRESS)),
            Filter(filtered, HasStatus(DONE)))
  }

  /** The columns partition the shown tasks: each column holds exactly the tasks
      of its status in their shown order, and together they hold every shown task
      exactly as often as it is shown. */
  lemma GroupingPartition(filtered: seq<Task>)
    ensures forall s, t :: t in Column(Grouping(filtered), s) <==> t in filtered && t.status == s
    ensures forall s :: IsSubsequence(Column(Grouping(filtered), s), filtered)
    ensures var g := Grouping(filtered);
            |g.todo| + |g.inProgress| + |g.done| == |filtered|
            && multiset(g.todo) + multiset(g.inProgress) + multiset(g.done) == multiset(filtered)
  {
    forall s: TaskStatus
      ensures Column(Grouping(filtered), s) == Filter(filtered, HasStatus(s))
      ensures forall t :: t in Column(Grouping(filtered), s) <==> t in filtered && t.status == s
      ensures IsSubsequence(Column(Grouping(filtered), s), filtered)
    {
      FilterSpec(filtered, HasStatus(s));
    }
    GroupingCounts(filtered);
    var g := Grouping(filtered);
    assert |multiset(g.todo) + multiset(g.inProgress) + multiset(g.done)| == |filtered|;
  }

  lemma {:induction false} GroupingCounts(filtered: seq<Task>)
    ensures var g := Grouping(filtered);
            multiset(g.todo) + multiset(g.inProgress) + multiset(g.done) == multiset(filtered)
  {
    if filtered != [] {
      var t, rest := filtered[0], filtered[1..];
      GroupingCounts(rest);
      assert filtered == [t] + rest;
      var g, h := Grouping(filtered), Grouping(rest);
      match t.status
      case TODO =>
        assert g == Grouped([t] + h.todo, h.inProgress, h.done);
      case IN_PROGRESS =>
        assert g == Grouped(h.todo, [t] + h.inProgress, h.done);
      case DONE =>
        assert g == Grouped(h.todo, h.inProgress, [t] + h.done);
    }
  }

  /** The dialog's form fields. */
  datatype TaskForm = TaskForm(title: string, description: string, status: TaskStatus,
                               priority: TaskPriority, projectId: string)

  /** `{ title, description, status, priority, projectId }`. */
  function TaskPayload(f: TaskForm): (r: Record)
    ensures r.Keys == {"title", "description", "status", "priority", "projectId"}
    ensures ProjectIdIs(r, f.projectId)
  {
    map["title" := Str(f.title), "description" := Str(f.description), "status" := Str(StatusName(f.status)),
        "priority" := Str(PriorityName(f.priority)), "projectId" := Str(f.projectId)]
  }

  /** What saving the dialog sends: nothing when the title is blank or no project
      is chosen, otherwise an update of the edited task or a create. */
  function TaskSave(editing: Option<Task>, f: TaskForm): (c: Call)
    ensures c.NoCall? <==> Blank(f.title) || f.projectId == ""
    ensures c.UpdateCall? ==> editing.Some? && c.id == editing.value.id && c.patch == TaskPayload(f)
    ensures c.CreateCall? ==> editing.None? && c.data == TaskPayload(f)
  {
    TrimEmpty(f.title);
    if Trim(f.title) == [] || f.projectId == "" then NoCall
    else match editing
      case Some(t) => UpdateCall(t.id, TaskPayload(f))
      case None => CreateCall(TaskPayload(f))
  }

  /** The form a "New Task" click opens: empty text, status TODO, priority MEDIUM,
      and the first project preselected when there is one. */
  function OpenCreate(projects: seq<Project>): TaskForm {
    TaskForm("", "", TODO, MEDIUM, if |projects| > 0 then projects[0].id else "")
  }

  /** The form an edit click opens: the task's own fields, so what it would send
      carries the task's title, description, status, priority and project, and it
      can be saved exactly when the title is not blank and the project id not empty. */
  function OpenEdit(t: Task): (f: TaskForm)
    ensures var r := TaskPayload(f);
            r["title"] == Str(t.title) && r["description"] == Str(t.description)
            && r["status"] == Str(StatusName(t.status)) && r["priority"] == Str(PriorityName(t.priority))
            && ProjectIdIs(r, t.projectId)
    ensures TaskSave(Some(t), f).NoCall? <==> Blank(t.title) || t.projectId == ""
  {
    TaskForm(t.title, t.description, t.status, t.priority, t.projectId)
  }

  /** Saving an edited task unchanged sends an update of that task carrying exactly
      its own title, description, status, priority and project; a task whose title
      is blank or whose project id is empty cannot be saved unchanged. */
  lemma UnchangedEditSave(t: Task)
    ensures var c := TaskSave(Some(t), OpenEdit(t));
            (c.NoCall? <==> Blank(t.title) || t.projectId == "")
            && (c.UpdateCall? ==>
                  c.id == t.id && c.patch["title"] == Str(t.title) && c.patch["description"] == Str(t.description)
                  && c.patch["status"] == Str(StatusName(t.status)) && c.patch["priority"] == Str(PriorityName(t.priority))
                  && ProjectIdIs(c.patch, t.projectId))
  {
  }

  /** With no projects the create form cannot be saved whatever title is typed;
      with projects, a non-blank title creates a task of the first project unless
      that project's id is empty. */
  lemma OpenCreateGuard(projects: seq<Project>, title: string)
    ensures |projects| == 0 ==> TaskSave(None, OpenCreate(projects).(title := title)).NoCall?
    ensures |projects| > 0 && !Blank(title) && projects[0].id != "" ==>
              var c := TaskSave(None, OpenCreate(projects).(title := title));
              c.CreateCall? && ProjectIdIs(c.data, projects[0].id)
  {
  }
}
