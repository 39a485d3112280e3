/** The read-only queries of the task endpoints: the visibility gate
    `get_task`, the listing `read_tasks` with its filters, and the comment
    listing of `read_task_comments`. Each takes the rows of a table in scan
    order (see `Lists.Scan`). */
module TaskQueries {
  import opened Common
  import opened TaskSchema
  import P = ProjectSchema
  import C = CommentSchema
  import Lists

  function HasId(id: int): Task -> bool {
    Lists.KeyIs(TaskId, id)
  }

  function OwnedBy(uid: int): P.Project -> bool {
    (p: P.Project) => p.ownerId == uid
  }

  /** The caller owns at least one project. */
  predicate OwnsSomeProject(projects: seq<P.Project>, uid: int) {
    exists i :: 0 <= i < |projects| && projects[i].ownerId == uid
  }

  /** The caller owns the project with id `pid`. */
  predicate OwnsProject(projects: seq<P.Project>, pid: int, uid: int) {
    exists i :: 0 <= i < |projects| && projects[i].id == pid && projects[i].ownerId == uid
  }

  // ---------------------------------------------------------------------------
  // get_task
  // ---------------------------------------------------------------------------

  /** `get_task` as written: the join condition only says the caller owns
      some project, and never links it to the task, so any task with the
      id is returned to any caller who owns at least one project. */
  function GetTask(projects: seq<P.Project>, tasks: seq<Task>, taskId: int, uid: int): (r: Option<Task>)
    ensures r.Some? <==> OwnsSomeProject(projects, uid) && exists j :: 0 <= j < |tasks| && tasks[j].id == taskId
    ensures r.Some? ==> r.value in tasks && r.value.id == taskId
  {
    if Lists.FirstWhere(projects, OwnedBy(uid)).None? then None
    else Lists.FirstWhere(tasks, HasId(taskId))
  }

  /** The visibility gate the endpoints evidently mean: the task's own
      project must be one the caller owns. */
  function GetOwnedTask(projects: seq<P.Project>, tasks: seq<Task>, taskId: int, uid: int): (r: Option<Task>)
    ensures r.Some? ==> r.value in tasks && r.value.id == taskId
    ensures r.Some? ==> OwnsProject(projects, r.value.projectId, uid)
    ensures r.None? && Lists.FirstWhere(tasks, HasId(taskId)).Some? ==>
      !OwnsProject(projects, Lists.FirstWhere(tasks, HasId(taskId)).value.projectId, uid)
  {
    match Lists.FirstWhere(tasks, HasId(taskId))
    case None => None
    case Some(t) =>
      if Lists.FirstWhere(projects, IsOwnedProject(t.projectId, uid)).Some? then Some(t) else None
  }

  function IsOwnedProject(pid: int, uid: int): P.Project -> bool {
    (p: P.Project) => p.id == pid && p.ownerId == uid
  }

  /** Whenever the corrected gate lets a task through, the as-written one
      returns the same task. */
  lemma CorrectedImpliesAsWritten(projects: seq<P.Project>, tasks: seq<Task>, taskId: int, uid: int)
    requires GetOwnedTask(projects, tasks, taskId, uid).Some?
    ensures GetTask(projects, tasks, taskId, uid) == GetOwnedTask(projects, tasks, taskId, uid)
  {
    var t := GetOwnedTask(projects, tasks, taskId, uid).value;
    var i :| 0 <= i < |projects| && projects[i].id == t.projectId && projects[i].ownerId == uid;
    assert OwnedBy(uid)(projects[i]);
  }

  /** Owning any one project is enough for the as-written gate: its answer
      is the task with the id, whatever project that task belongs to. */
  lemma {:induction false} AsWrittenIgnoresTaskProject(projects: seq<P.Project>, tasks: seq<Task>, taskId: int, uid: int, k: int)
    requires 0 <= k < |projects| && projects[k].ownerId == uid
    ensures GetTask(projects, tasks, taskId, uid) == Lists.FirstWhere(tasks, HasId(taskId))
  {
    assert OwnedBy(uid)(projects[k]);
  }

  /** The as-written gate is strictly weaker: a caller who owns project 1
      sees task 2 of somebody else's project 99, which the corrected gate
      hides. */
  lemma AsWrittenLeaksForeignTask()
    ensures var projects := [P.Project(1, Some("mine"), None, 7, 0)];
      var tasks := [Task(2, Some("theirs"), None, Some(DefaultStatus), None, None, 99, None, 8, 0, None)];
      GetTask(projects, tasks, 2, 7).Some? && GetOwnedTask(projects, tasks, 2, 7).None?
  {
    var projects := [P.Project(1, Some("mine"), None, 7, 0)];
    var tasks := [Task(2, Some("theirs"), None, Some(DefaultStatus), None, None, 99, None, 8, 0, None)];
    assert OwnedBy(7)(projects[0]);
    assert HasId(2)(tasks[0]);
    assert !IsOwnedProject(99, 7)(projects[0]);
  }

  // ---------------------------------------------------------------------------
  // read_tasks
  // ---------------------------------------------------------------------------

  /** The optional query parameters of `read_tasks`. */
  datatype TaskFilters = TaskFilters(status: Option<string>, projectId: Option<int>, assigneeId: Option<int>)

  const NoFilters := TaskFilters(None, None, None)

  /** `str.upper()` on one character, for ASCII letters. */
  function UpperChar(c: char): (u: char)
    ensures !('a' <= u <= 'z')
    ensures 'a' <= c <= 'z' ==> u as int == c as int - 32
    ensures !('a' <= c <= 'z') ==> u == c
  {
    if 'a' <= c <= 'z' then (c as int - 32) as char else c
  }

  /** `str.upper()`, for ASCII letters. */
  function Upper(s: string): (r: string)
    ensures |r| == |s|
    ensures forall i :: 0 <= i < |s| ==> r[i] == UpperChar(s[i])
  {
    seq(|s|, i requires 0 <= i < |s| => UpperChar(s[i]))
  }

  /** The filters `read_tasks` adds: a non-empty status is compared with its
      upper-cased form; project and assignee are compared when given (a
      `NULL` assignee never equals a given one). */
  predicate Matches(f: TaskFilters, t: Task)
    ensures f == NoFilters ==> Matches(f, t)
    ensures !Truthy(f.status) && f.projectId.None? && f.assigneeId.None? ==> Matches(f, t)
    ensures f.assigneeId.Some? && t.assigneeId.None? ==> !Matches(f, t)
    ensures Truthy(f.status) && t.status.None? ==> !Matches(f, t)
  {
    && (Truthy(f.status) ==> t.status == Some(Upper(f.status.value)))
    && (f.projectId.Some? ==> t.projectId == f.projectId.value)
    && (f.assigneeId.Some? ==> t.assigneeId == Some(f.assigneeId.value))
  }

  function Matching(f: TaskFilters): Task -> bool {
    (t: Task) => Matches(f, t)
  }

  /** `read_tasks`: every task of every user that passes the filters, the
      first `skip` of them dropped. `limit` is never applied. */
  function ReadTasks(tasks: seq<Task>, f: TaskFilters, skip: int, limit: int): (r: seq<Task>)
    ensures |r| <= |tasks|
    ensures forall i :: 0 <= i < |r| ==> r[i] in tasks && Matches(f, r[i])
    ensures skip <= 0 ==> forall i :: 0 <= i < |tasks| && Matches(f, tasks[i]) ==> tasks[i] in r
    ensures var m := Lists.Filter(tasks, Matching(f));
      && |r| == (if skip <= 0 then |m| else if skip >= |m| then 0 else |m| - skip)
      && forall i :: 0 <= i < |r| ==> r[i] == m[i + (if skip <= 0 then 0 else skip)]
  {
    Lists.Drop(Lists.Filter(tasks, Matching(f)), skip)
  }

  /** The page size has no effect on the result. */
  lemma ReadTasksIgnoresLimit(tasks: seq<Task>, f: TaskFilters, skip: int, limit1: int, limit2: int)
    ensures ReadTasks(tasks, f, skip, limit1) == ReadTasks(tasks, f, skip, limit2)
  {
  }

  /** No ownership filter: without query parameters every task in the
      table is listed, whoever owns its project. */
  lemma {:induction false} ReadTasksListsEveryTask(tasks: seq<Task>, limit: int)
    ensures ReadTasks(tasks, NoFilters, 0, limit) == tasks
  {
    Lists.FilterKeepsAll(tasks, Matching(NoFilters));
  }

  /** An upper-cased string has no lower-case ASCII letter. */
  lemma UpperHasNoLowercase(s: string, i: int)
    requires 0 <= i < |s|
    ensures !('a' <= Upper(s)[i] <= 'z')
  {
  }

  /** A status filter never matches a stored status with a lower-case
      letter in it, such as the default `todo`. */
  lemma {:induction false} LowercaseStatusNeverMatches(f: TaskFilters, t: Task, k: int)
    requires Truthy(f.status)
    requires t.status.Some? && 0 <= k < |t.status.value| && 'a' <= t.status.value[k] <= 'z'
    ensures !Matches(f, t)
  {
    if k < |f.status.value| {
      UpperHasNoLowercase(f.status.value, k);
    }
  }

  /** Filtering by `todo` over tasks that all carry the lower-case default
      status returns nothing. */
  lemma {:induction false} StatusFilterMissesDefault(tasks: seq<Task>, skip: int, limit: int)
    requires forall i :: 0 <= i < |tasks| ==> tasks[i].status == Some(DefaultStatus)
    ensures ReadTasks(tasks, TaskFilters(Some(DefaultStatus), None, None), skip, limit) == []
  {
    var f := TaskFilters(Some(DefaultStatus), None, None);
    forall i | 0 <= i < |tasks|
      ensures !Matching(f)(tasks[i])
    {
      LowercaseStatusNeverMatches(f, tasks[i], 0);
    }
    Lists.FilterRejectsAll(tasks, Matching(f));
  }

  // ---------------------------------------------------------------------------
  // read_task_comments
  // ---------------------------------------------------------------------------

  function OnTask(taskId: int): C.Comment -> bool {
    (c: C.Comment) => c.taskId == taskId
  }

  /** The comment listing: exactly the comments whose task is `taskId`, in
      table order. */
  function TaskComments(comments: seq<C.Comment>, taskId: int): (r: seq<C.Comment>)
    ensures forall i :: 0 <= i < |r| ==> r[i] in comments && r[i].taskId == taskId
    ensures forall i :: 0 <= i < |comments| && comments[i].taskId == taskId ==> comments[i] in r
    ensures |r| <= |comments|
    ensures Lists.Ascending(comments, C.CommentId) ==> Lists.Ascending(r, C.CommentId)
  {
    Lists.FilterKeepsAscending(comments, C.CommentId, OnTask(taskId));
    Lists.Filter(comments, OnTask(taskId))
  }
}
