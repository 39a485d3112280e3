/** The task schemas: the request body of a create or an update, the
    constraints pydantic enforces on it, the defaults it fills in, the
    `exclude_unset` dump an update hands to the endpoint, and the stored
    task row. */
module TaskSchema {
  import opened Common
  import Lists

  const MaxTitleLength := 255
  const MinPriority := 1
  const MaxPriority := 5
  /** `TaskStatus.TODO`, the default status of a new task. */
  const DefaultStatus := "todo"

  /** A task request body as it arrives: every key may be missing, `null`
      or given. Statuses are strings (the `TaskStatus` enum is not part of
      this model). */
  datatype TaskBody = TaskBody(
    title: Json<string>,
    description: Json<string>,
    status: Json<string>,
    priority: Json<int>,
    dueDate: Json<Timestamp>,
    projectId: Json<int>,
    assigneeId: Json<int>)

  /** A validated `TaskCreate`. */
  datatype TaskCreate = TaskCreate(
    title: string,
    description: Option<string>,
    status: string,
    priority: Option<int>,
    dueDate: Option<Timestamp>,
    projectId: int,
    assigneeId: Option<int>)

  /** A validated `TaskUpdate`: each key remembers whether the client set
      it, and to what (possibly `None`). It has no `project_id`. */
  datatype TaskUpdate = TaskUpdate(
    title: Patch<Option<string>>,
    description: Patch<Option<string>>,
    status: Patch<Option<string>>,
    priority: Patch<Option<int>>,
    dueDate: Patch<Option<Timestamp>>,
    assigneeId: Patch<Option<int>>)

  /** A stored task row (`TaskInDBBase`). Title and status are optional
      because an update may assign `None` to them. */
  datatype Task = Task(
    id: int,
    title: Option<string>,
    description: Option<string>,
    status: Option<string>,
    priority: Option<int>,
    dueDate: Option<Timestamp>,
    projectId: int,
    assigneeId: Option<int>,
    createdBy: int,
    createdAt: Timestamp,
    updatedAt: Option<Timestamp>)

  /** The primary key of a task row. */
  function TaskId(t: Task): int {
    t.id
  }

  /** One item of an update's dump, as `setattr` receives it. */
  datatype TaskField =
    | Title(title: Option<string>)
    | Description(description: Option<string>)
    | Status(status: Option<string>)
    | Priority(priority: Option<int>)
    | DueDate(dueDate: Option<Timestamp>)
    | AssigneeId(assigneeId: Option<int>)

  // ---------------------------------------------------------------------------
  // Field constraints
  // ---------------------------------------------------------------------------

  /** `Field(None, ge=1, le=5)` on an optional integer. */
  predicate PriorityOk(p: Option<int>) {
    p.None? || MinPriority <= p.value <= MaxPriority
  }

  /** `max_length=255` on an optional title. */
  predicate TitleOk(t: Option<string>) {
    t.None? || |t.value| <= MaxTitleLength
  }

  predicate ValidCreate(c: TaskCreate) {
    |c.title| <= MaxTitleLength && PriorityOk(c.priority)
  }

  predicate ValidUpdate(u: TaskUpdate) {
    (u.title.Set? ==> TitleOk(u.title.value)) &&
    (u.priority.Set? ==> PriorityOk(u.priority.value))
  }

  /** The schema constraints every stored row satisfies. */
  predicate ValidTask(t: Task) {
    TitleOk(t.title) && PriorityOk(t.priority)
  }

  // ---------------------------------------------------------------------------
  // Parsing a request body
  // ---------------------------------------------------------------------------

  predicate BodyPriorityOk(p: Json<int>) {
    p.Given? ==> MinPriority <= p.value <= MaxPriority
  }

  /** Pydantic's validation of a body as `TaskCreate`: `title` and
      `project_id` are required, `title` has at most 255 characters,
      `status` may be omitted but not `null`, a given priority is in [1, 5];
      omitted optional keys default to `None`, an omitted status to TODO. */
  function ParseCreate(b: TaskBody): (r: Option<TaskCreate>)
    ensures r.Some? <==>
      b.title.Given? && |b.title.value| <= MaxTitleLength && b.projectId.Given?
      && !b.status.Null? && BodyPriorityOk(b.priority)
    ensures r.Some? ==> ValidCreate(r.value)
    ensures r.Some? ==>
      && r.value.title == b.title.value
      && r.value.projectId == b.projectId.value
      && r.value.status == (if b.status.Given? then b.status.value else DefaultStatus)
      && r.value.description == OrNone(b.description)
      && r.value.priority == OrNone(b.priority)
      && r.value.dueDate == OrNone(b.dueDate)
      && r.value.assigneeId == OrNone(b.assigneeId)
  {
    if !b.title.Given? || |b.title.value| > MaxTitleLength then None
    else if !b.projectId.Given? then None
    else if b.status.Null? then None
    else if !BodyPriorityOk(b.priority) then None
    else
      Some(TaskCreate(
        b.title.value,
        OrNone(b.description),
        if b.status.Given? then b.status.value else DefaultStatus,
        OrNone(b.priority),
        OrNone(b.dueDate),
        b.projectId.value,
        OrNone(b.assigneeId)))
  }

  /** Pydantic's validation of a body as `TaskUpdate`: every key is
      optional and nullable, a given title has at most 255 characters, a
      given priority is in [1, 5]; a `project_id` key is ignored, since the
      schema has no such field. */
  function ParseUpdate(b: TaskBody): (r: Option<TaskUpdate>)
    ensures r.Some? <==>
      (b.title.Given? ==> |b.title.value| <= MaxTitleLength) && BodyPriorityOk(b.priority)
    ensures r.Some? ==> ValidUpdate(r.value)
    ensures r.Some? ==>
      && Carries(r.value.title, b.title) && Carries(r.value.description, b.description)
      && Carries(r.value.status, b.status) && Carries(r.value.priority, b.priority)
      && Carries(r.value.dueDate, b.dueDate) && Carries(r.value.assigneeId, b.assigneeId)
  {
    if b.title.Given? && |b.title.value| > MaxTitleLength then None
    else if !BodyPriorityOk(b.priority) then None
    else
      Some(TaskUpdate(
        AsPatch(b.title), AsPatch(b.description), AsPatch(b.status),
        AsPatch(b.priority), AsPatch(b.dueDate), AsPatch(b.assigneeId)))
  }

  /** A body with only the required keys gets every default of `TaskBase`. */
  lemma CreateDefaults(title: string, projectId: int)
    requires |title| <= MaxTitleLength
    ensures ParseCreate(TaskBody(Given(title), Absent, Absent, Absent, Absent, Given(projectId), Absent))
         == Some(TaskCreate(title, None, DefaultStatus, None, None, projectId, None))
  {
  }

  /** A `project_id` key in an update body has no effect on the update. */
  lemma UpdateIgnoresProjectId(b: TaskBody, pid: Json<int>)
    ensures ParseUpdate(b.(projectId := pid)) == ParseUpdate(b)
  {
  }

  /** An update leaves a key unset exactly when the body omitted it. */
  lemma UpdateUnsetIffAbsent(b: TaskBody)
    requires ParseUpdate(b).Some?
    ensures var u := ParseUpdate(b).value;
      && (u.title.Unset? <==> b.title.Absent?)
      && (u.description.Unset? <==> b.description.Absent?)
      && (u.status.Unset? <==> b.status.Absent?)
      && (u.priority.Unset? <==> b.priority.Absent?)
      && (u.dueDate.Unset? <==> b.dueDate.Absent?)
      && (u.assigneeId.Unset? <==> b.assigneeId.Absent?)
  {
  }

  // ---------------------------------------------------------------------------
  // The exclude_unset dump and setattr
  // ---------------------------------------------------------------------------

  /** `task.model_dump(exclude_unset=True)` as its list of items, in the
      schema's field order. */
  function Dump(u: TaskUpdate): (d: seq<TaskField>)
    ensures forall i :: 0 <= i < |d| ==> InUpdate(u, d[i])
    ensures u.title.Set? ==> Title(u.title.value) in d
    ensures u.description.Set? ==> Description(u.description.value) in d
    ensures u.status.Set? ==> Status(u.status.value) in d
    ensures u.priority.Set? ==> Priority(u.priority.value) in d
    ensures u.dueDate.Set? ==> DueDate(u.dueDate.value) in d
    ensures u.assigneeId.Set? ==> AssigneeId(u.assigneeId.value) in d
  {
    DumpHead(u) + DumpTail(u)
  }

  /** The dump lists its items in the schema's field order, each key at
      most once. */
  lemma {:induction false} DumpInSchemaOrder(u: TaskUpdate)
    ensures forall i, j :: 0 <= i < j < |Dump(u)| ==> Rank(Dump(u)[i]) < Rank(Dump(u)[j])
  {
    var head, tail, d := DumpHead(u), DumpTail(u), Dump(u);
    forall i, j | 0 <= i < j < |d|
      ensures Rank(d[i]) < Rank(d[j])
    {
      if j < |head| {
        assert d[i] == head[i] && d[j] == head[j];
      } else if |head| <= i {
        assert d[i] == tail[i - |head|] && d[j] == tail[j - |head|];
      } else {
        assert d[i] == head[i] && d[j] == tail[j - |head|];
      }
    }
  }

  /** The item's key is set in the update, and to the item's value. */
  predicate InUpdate(u: TaskUpdate, f: TaskField) {
    match f
    case Title(x) => u.title == Set(x)
    case Description(x) => u.description == Set(x)
    case Status(x) => u.status == Set(x)
    case Priority(x) => u.priority == Set(x)
    case DueDate(x) => u.dueDate == Set(x)
    case AssigneeId(x) => u.assigneeId == Set(x)
  }

  /** The position of an item's key among the schema's fields. */
  function Rank(f: TaskField): int {
    match f
    case Title(_) => 0
    case Description(_) => 1
    case Status(_) => 2
    case Priority(_) => 3
    case DueDate(_) => 4
    case AssigneeId(_) => 5
  }

  /** The dump items of title, description and status. */
  function DumpHead(u: TaskUpdate): (d: seq<TaskField>)
    ensures forall i :: 0 <= i < |d| ==> InUpdate(u, d[i]) && 0 <= Rank(d[i]) < 3
    ensures forall i, j :: 0 <= i < j < |d| ==> Rank(d[i]) < Rank(d[j])
    ensures u.title.Set? ==> Title(u.title.value) in d
    ensures u.description.Set? ==> Description(u.description.value) in d
    ensures u.status.Set? ==> Status(u.status.value) in d
  {
    (if u.title.Set? then [Title(u.title.value)] else [])
    + (if u.description.Set? then [Description(u.description.value)] else [])
    + (if u.status.Set? then [Status(u.status.value)] else [])
  }

  /** The dump items of priority, due date and assignee. */
  function DumpTail(u: TaskUpdate): (d: seq<TaskField>)
    ensures forall i :: 0 <= i < |d| ==> InUpdate(u, d[i]) && 3 <= Rank(d[i]) < 6
    ensures forall i, j :: 0 <= i < j < |d| ==> Rank(d[i]) < Rank(d[j])
    ensures u.priority.Set? ==> Priority(u.priority.value) in d
    ensures u.dueDate.Set? ==> DueDate(u.dueDate.value) in d
    ensures u.assigneeId.Set? ==> AssigneeId(u.assigneeId.value) in d
  {
    (if u.priority.Set? then [Priority(u.priority.value)] else [])
    + (if u.dueDate.Set? then [DueDate(u.dueDate.value)] else [])
    + (if u.assigneeId.Set? then [AssigneeId(u.assigneeId.value)] else [])
  }

  /** The key under which a dump item appears. */
  function Key(f: TaskField): string {
    match f
    case Title(_) => "title"
    case Description(_) => "description"
    case Status(_) => "status"
    case Priority(_) => "priority"
    case DueDate(_) => "due_date"
    case AssigneeId(_) => "assignee_id"
  }

  /** No dump of a `TaskUpdate` has a `project_id` key, so the endpoint's
      project re-check on `'project_id' in update_data` never runs. */
  lemma DumpHasNoProjectId(u: TaskUpdate)
    ensures forall i :: 0 <= i < |Dump(u)| ==> Key(Dump(u)[i]) != "project_id"
  {
    var d := Dump(u);
    forall i | 0 <= i < |d|
      ensures Key(d[i]) != "project_id"
    {
      KeyIsNotProjectId(d[i]);
    }
  }

  /** No item of a `TaskUpdate` dump is keyed `project_id`. */
  lemma KeyIsNotProjectId(f: TaskField)
    ensures Key(f) != "project_id"
  {
    assert |Key(f)| != |"project_id"|;
  }

  /** `setattr(db_task, field, value)` for one item: only the item's own
      column changes. */
  function Assign(t: Task, f: TaskField): (r: Task)
    ensures r.id == t.id && r.projectId == t.projectId && r.createdBy == t.createdBy
    ensures r.createdAt == t.createdAt && r.updatedAt == t.updatedAt
    ensures !f.Title? ==> r.title == t.title
    ensures !f.Description? ==> r.description == t.description
    ensures !f.Status? ==> r.status == t.status
    ensures !f.Priority? ==> r.priority == t.priority
    ensures !f.DueDate? ==> r.dueDate == t.dueDate
    ensures !f.AssigneeId? ==> r.assigneeId == t.assigneeId
    ensures f.Title? ==> r.title == f.title
    ensures f.Description? ==> r.description == f.description
    ensures f.Status? ==> r.status == f.status
    ensures f.Priority? ==> r.priority == f.priority
    ensures f.DueDate? ==> r.dueDate == f.dueDate
    ensures f.AssigneeId? ==> r.assigneeId == f.assigneeId
  {
    match f
    case Title(x) => t.(title := x)
    case Description(x) => t.(description := x)
    case Status(x) => t.(status := x)
    case Priority(x) => t.(priority := x)
    case DueDate(x) => t.(dueDate := x)
    case AssigneeId(x) => t.(assigneeId := x)
  }

  /** The row a partial update leaves: every key set in the update takes its
      new value, every other column keeps its old one. */
  function Patched(t: Task, u: TaskUpdate): (r: Task)
    ensures r.id == t.id && r.projectId == t.projectId && r.createdBy == t.createdBy
    ensures r.createdAt == t.createdAt && r.updatedAt == t.updatedAt
  {
    t.(title := PatchOr(u.title, t.title),
       description := PatchOr(u.description, t.description),
       status := PatchOr(u.status, t.status),
       priority := PatchOr(u.priority, t.priority),
       dueDate := PatchOr(u.dueDate, t.dueDate),
       assigneeId := PatchOr(u.assigneeId, t.assigneeId))
  }

  /** Assigning the head items sets exactly title, description and status. */
  lemma {:induction false} HeadAssigned(t: Task, u: TaskUpdate)
    ensures Lists.Fold(t, DumpHead(u), Assign)
         == t.(title := PatchOr(u.title, t.title), description := PatchOr(u.description, t.description),
               status := PatchOr(u.status, t.status))
  {
    var a := if u.title.Set? then [Title(u.title.value)] else [];
    var b := if u.description.Set? then [Description(u.description.value)] else [];
    var c := if u.status.Set? then [Status(u.status.value)] else [];
    assert [] + a == a;
    Lists.FoldAppendAtMostOne(t, [], a, Assign);
    Lists.FoldAppendAtMostOne(t, a, b, Assign);
    Lists.FoldAppendAtMostOne(t, a + b, c, Assign);
  }

  /** Assigning the tail items sets exactly priority, due date and assignee. */
  lemma {:induction false} TailAssigned(t: Task, u: TaskUpdate)
    ensures Lists.Fold(t, DumpTail(u), Assign)
         == t.(priority := PatchOr(u.priority, t.priority), dueDate := PatchOr(u.dueDate, t.dueDate),
               assigneeId := PatchOr(u.assigneeId, t.assigneeId))
  {
    var d := if u.priority.Set? then [Priority(u.priority.value)] else [];
    var e := if u.dueDate.Set? then [DueDate(u.dueDate.value)] else [];
    var f := if u.assigneeId.Set? then [AssigneeId(u.assigneeId.value)] else [];
    assert [] + d == d;
    Lists.FoldAppendAtMostOne(t, [], d, Assign);
    Lists.FoldAppendAtMostOne(t, d, e, Assign);
    Lists.FoldAppendAtMostOne(t, d + e, f, Assign);
  }

  /** The `setattr` loop over the dump yields exactly the patched row. */
  lemma {:induction false} AssignDumpIsPatched(t: Task, u: TaskUpdate)
    ensures Lists.Fold(t, Dump(u), Assign) == Patched(t, u)
  {
    Lists.FoldConcat(t, DumpHead(u), DumpTail(u), Assign);
    HeadAssigned(t, u);
    TailAssigned(Lists.Fold(t, DumpHead(u), Assign), u);
  }

  /** A validated update keeps a valid row valid, and never touches the id,
      the project, the creator or the timestamps. */
  lemma PatchedKeepsInvariant(t: Task, u: TaskUpdate)
    requires ValidTask(t) && ValidUpdate(u)
    ensures ValidTask(Patched(t, u))
    ensures var p := Patched(t, u);
      p.id == t.id && p.projectId == t.projectId && p.createdBy == t.createdBy
      && p.createdAt == t.createdAt && p.updatedAt == t.updatedAt
  {
  }

  /** Keys left unset keep their stored value; keys set take the sent value. */
  lemma PatchedUnsetUnchanged(t: Task, u: TaskUpdate)
    ensures u.title.Unset? ==> Patched(t, u).title == t.title
    ensures u.description.Unset? ==> Patched(t, u).description == t.description
    ensures u.status.Unset? ==> Patched(t, u).status == t.status
    ensures u.priority.Unset? ==> Patched(t, u).priority == t.priority
    ensures u.dueDate.Unset? ==> Patched(t, u).dueDate == t.dueDate
    ensures u.assigneeId.Unset? ==> Patched(t, u).assigneeId == t.assigneeId
    ensures u.title.Set? ==> Patched(t, u).title == u.title.value
    ensures u.description.Set? ==> Patched(t, u).description == u.description.value
    ensures u.status.Set? ==> Patched(t, u).status == u.status.value
    ensures u.priority.Set? ==> Patched(t, u).priority == u.priority.value
    ensures u.dueDate.Set? ==> Patched(t, u).dueDate == u.dueDate.value
    ensures u.assigneeId.Set? ==> Patched(t, u).assigneeId == u.assigneeId.value
  {
  }
}
