/** The backend's database and its endpoints. The four tables are maps from
    id to row, and each has the id its next insert gets. Every endpoint that
    writes is a method on `Store` that takes the caller's id and a validated
    payload, changes the tables in place as one committed unit, and returns
    an `Outcome`. The read endpoints are functions over the same tables. */
module Backend {
  import opened Common
  import opened TaskSchema
  import P = ProjectSchema
  import C = CommentSchema
  import U = UserSchema
  import TQ = TaskQueries
  import PQ = ProjectQueries
  import AQ = AuthQueries
  import UE = UserEndpoints
  import Lists

  /** The statuses `create_task` keeps as sent. */
  const AllowedStatuses: seq<string> := ["todo", "in_progress", "done"]

  /** `create_task`'s status rule: a non-empty status outside the allowed
      list is replaced by `todo` instead of being rejected. */
  function CoerceStatus(s: string): (r: string)
    ensures r == "" || r in AllowedStatuses
    ensures s == "" || s in AllowedStatuses ==> r == s
    ensures s != "" && s !in AllowedStatuses ==> r == DefaultStatus
  {
    if s != "" && s !in AllowedStatuses then DefaultStatus else s
  }

  /** The row `create_task` inserts: the payload's fields with the status
      rule applied, the caller as creator, and no update time. */
  function NewTask(id: int, t: TaskCreate, caller: int, now: Timestamp): (r: Task)
    requires ValidCreate(t)
    ensures ValidTask(r) && r.id == id
    ensures r.createdBy == caller && r.createdAt == now && r.updatedAt.None?
    ensures r.projectId == t.projectId && r.title == Some(t.title) && r.status == Some(CoerceStatus(t.status))
    ensures r.description == t.description && r.priority == t.priority
    ensures r.dueDate == t.dueDate && r.assigneeId == t.assigneeId
  {
    Task(id, Some(t.title), t.description, Some(CoerceStatus(t.status)), t.priority,
         t.dueDate, t.projectId, t.assigneeId, caller, now, None)
  }

  /** `update_task`'s loop `setattr(db_task, field, value)` over the dump
      of the update: the result is the patched row. */
  method AssignTask(t: Task, u: TaskUpdate) returns (row: Task)
    ensures row == Patched(t, u)
  {
    row := Lists.SetAttrs(t, Dump(u), Assign);
    AssignDumpIsPatched(t, u);
  }

  // ---------------------------------------------------------------------------
  // The queries, read off the tables
  // ---------------------------------------------------------------------------

  /** Some project of the table is owned by `uid`. */
  ghost predicate OwnsAny(projects: map<int, P.Project>, uid: int) {
    exists k :: k in projects && projects[k].ownerId == uid
  }

  /** The project `id` exists and `uid` owns it. */
  ghost predicate Owns(projects: map<int, P.Project>, id: int, uid: int) {
    id in projects && projects[id].ownerId == uid
  }

  /** What `get_task` lets through, on the tables: the task exists and the
      caller owns some project. */
  ghost predicate Visible(projects: map<int, P.Project>, tasks: map<int, Task>, taskId: int, uid: int) {
    taskId in tasks && OwnsAny(projects, uid)
  }

  /** Some user of the table has the email. */
  ghost predicate EmailTaken(users: map<int, U.User>, email: string) {
    exists k :: k in users && users[k].email == email
  }

  /** The user an update targets exists: its id is not `null` and names a
      stored user. */
  ghost predicate TargetFound(users: map<int, U.User>, u: U.UserUpdate, caller: int) {
    UE.TargetId(u, caller).Some? && UE.TargetId(u, caller).value in users
  }

  /** An update sets a non-null assignee that names no user. */
  ghost predicate AssigneeMissing(u: TaskUpdate, users: map<int, U.User>) {
    u.assigneeId.Set? && u.assigneeId.value.Some? && u.assigneeId.value.value !in users
  }

  /** `get_task` over the scanned rows answers with the stored task exactly
      when the task exists and the caller owns some project. */
  lemma GetTaskOnTables(projects: map<int, P.Project>, np: int, tasks: map<int, Task>, nt: int,
                        taskId: int, uid: int)
    requires Lists.Keyed(projects, P.ProjectId, np) && Lists.Keyed(tasks, TaskId, nt)
    ensures var r := TQ.GetTask(Lists.Scan(projects, np), Lists.Scan(tasks, nt), taskId, uid);
      (r.Some? <==> Visible(projects, tasks, taskId, uid)) && (r.Some? ==> r.value == tasks[taskId])
  {
    Lists.ScanExists(projects, np, TQ.OwnedBy(uid));
    Lists.ScanFirstWithKey(tasks, nt, TaskId, taskId);
  }

  /** `get_project` over the scanned rows answers with the stored project
      exactly when it exists and the caller owns it. */
  lemma GetProjectOnTable(projects: map<int, P.Project>, n: int, id: int, uid: int)
    requires Lists.Keyed(projects, P.ProjectId, n)
    ensures PQ.GetProject(Lists.Scan(projects, n), id, uid)
         == if Owns(projects, id, uid) then Some(projects[id]) else None
  {
    Lists.ScanIsTable(projects, n, P.ProjectId);
    if Owns(projects, id, uid) {
      assert projects[id] in Lists.Scan(projects, n);
    }
  }

  /** The registration check over the scanned rows finds a user exactly
      when some stored user has the email. */
  lemma EmailLookupOnTable(users: map<int, U.User>, n: int, email: string)
    requires Lists.Keyed(users, U.UserId, n)
    ensures Lists.FirstWhere(Lists.Scan(users, n), AQ.HasEmail(email)).Some? <==> EmailTaken(users, email)
  {
    Lists.ScanExists(users, n, AQ.HasEmail(email));
  }

  /** The comment listing over the scanned rows holds exactly the stored
      comments of the task. */
  lemma CommentsOnTable(comments: map<int, C.Comment>, n: int, taskId: int)
    requires Lists.Keyed(comments, C.CommentId, n)
    ensures var r := TQ.TaskComments(Lists.Scan(comments, n), taskId);
      && (forall i :: 0 <= i < |r| ==> r[i].id in comments && comments[r[i].id] == r[i] && r[i].taskId == taskId)
      && (forall k :: k in comments && comments[k].taskId == taskId ==> comments[k] in r)
      && Lists.Ascending(r, C.CommentId)
  {
    var s := Lists.Scan(comments, n);
    Lists.ScanIsTable(comments, n, C.CommentId);
    Lists.ScanAscending(comments, n, C.CommentId);
    forall k | k in comments && comments[k].taskId == taskId
      ensures comments[k] in TQ.TaskComments(s, taskId)
    {
      var i :| 0 <= i < |s| && s[i] == comments[k];
    }
  }

  /** The task listing over the scanned rows holds stored tasks that pass
      the filters, and with no offset all of them. */
  lemma TasksOnTable(tasks: map<int, Task>, n: int, f: TQ.TaskFilters, skip: int, limit: int)
    requires Lists.Keyed(tasks, TaskId, n)
    ensures var r := TQ.ReadTasks(Lists.Scan(tasks, n), f, skip, limit);
      && (forall i :: 0 <= i < |r| ==> r[i].id in tasks && tasks[r[i].id] == r[i] && TQ.Matches(f, r[i]))
      && (skip <= 0 ==> forall k :: k in tasks && TQ.Matches(f, tasks[k]) ==> tasks[k] in r)
  {
    var s := Lists.Scan(tasks, n);
    Lists.ScanIsTable(tasks, n, TaskId);
    forall k | k in tasks && TQ.Matches(f, tasks[k]) && skip <= 0
      ensures tasks[k] in TQ.ReadTasks(s, f, skip, limit)
    {
      var i :| 0 <= i < |s| && s[i] == tasks[k];
    }
  }

  /** The project listing over the scanned rows holds stored projects of
      the caller, and with no offset and no bound all of them. */
  lemma ProjectsOnTable(projects: map<int, P.Project>, n: int, uid: int, skip: int, limit: int)
    requires Lists.Keyed(projects, P.ProjectId, n)
    ensures var r := PQ.ReadProjects(Lists.Scan(projects, n), uid, skip, limit);
      && (forall i :: 0 <= i < |r| ==> r[i].id in projects && projects[r[i].id] == r[i] && r[i].ownerId == uid)
      && (skip <= 0 && limit < 0 ==> forall k :: k in projects && projects[k].ownerId == uid ==> projects[k] in r)
  {
    var s := Lists.Scan(projects, n);
    Lists.ScanIsTable(projects, n, P.ProjectId);
    forall k | k in projects && projects[k].ownerId == uid && skip <= 0 && limit < 0
      ensures projects[k] in PQ.ReadProjects(s, uid, skip, limit)
    {
      var i :| 0 <= i < |s| && s[i] == projects[k];
    }
  }

  class Store {
    var users: map<int, U.User>
    var projects: map<int, P.Project>
    var tasks: map<int, Task>
    var comments: map<int, C.Comment>
    var nextUserId: int
    var nextProjectId: int
    var nextTaskId: int
    var nextCommentId: int

    /** Every row sits under its own id, below its table's counter, and
        satisfies its schema's constraints. */
    ghost predicate Valid()
      reads this
    {
      && 1 <= nextUserId && 1 <= nextProjectId && 1 <= nextTaskId && 1 <= nextCommentId
      && Lists.Keyed(users, U.UserId, nextUserId)
      && Lists.Keyed(projects, P.ProjectId, nextProjectId)
      && Lists.Keyed(tasks, TaskId, nextTaskId)
      && Lists.Keyed(comments, C.CommentId, nextCommentId)
      && (forall k :: k in projects ==> P.ValidProject(projects[k]))
      && (forall k :: k in tasks ==> ValidTask(tasks[k]))
      && (forall k :: k in comments ==> C.ValidComment(comments[k]))
    }

    /** An empty database; autoincrement ids start at 1. */
    constructor ()
      ensures Valid()
      ensures users == map[] && projects == map[] && tasks == map[] && comments == map[]
      ensures nextUserId == 1 && nextProjectId == 1 && nextTaskId == 1 && nextCommentId == 1
    {
      users, projects, tasks, comments := map[], map[], map[], map[];
      nextUserId, nextProjectId, nextTaskId, nextCommentId := 1, 1, 1, 1;
    }

    function UserRows(): seq<U.User>
      reads this
    {
      Lists.Scan(users, nextUserId)
    }

    function ProjectRows(): seq<P.Project>
      reads this
    {
      Lists.Scan(projects, nextProjectId)
    }

    function TaskRows(): seq<Task>
      reads this
    {
      Lists.Scan(tasks, nextTaskId)
    }

    function CommentRows(): seq<C.Comment>
      reads this
    {
      Lists.Scan(comments, nextCommentId)
    }

    /** `get_task(db, task_id, uid)` run on this database. */
    method GetTask(taskId: int, uid: int) returns (r: Option<Task>)
      requires Valid()
      ensures r.Some? <==> Visible(projects, tasks, taskId, uid)
      ensures r.Some? ==> r.value == tasks[taskId]
    {
      GetTaskOnTables(projects, nextProjectId, tasks, nextTaskId, taskId, uid);
      r := TQ.GetTask(ProjectRows(), TaskRows(), taskId, uid);
    }

    /** `get_project(db, project_id, uid)` run on this database; the raw
        project query of `create_task` asks the same. */
    method GetProject(id: int, uid: int) returns (r: Option<P.Project>)
      requires Valid()
      ensures r.Some? <==> Owns(projects, id, uid)
      ensures r.Some? ==> r.value == projects[id]
    {
      GetProjectOnTable(projects, nextProjectId, id, uid);
      r := PQ.GetProject(ProjectRows(), id, uid);
    }

    /** `db.query(UserModel).filter(UserModel.id == id).first()`. */
    method GetUser(id: int) returns (r: Option<U.User>)
      requires Valid()
      ensures r.Some? <==> id in users
      ensures r.Some? ==> r.value == users[id]
    {
      Lists.ScanFirstWithKey(users, nextUserId, U.UserId, id);
      r := Lists.FirstWhere(UserRows(), Lists.KeyIs(U.UserId, id));
    }

    /** `db.query(UserModel).filter(UserModel.email == email).first()`. */
    method FindUserByEmail(email: string) returns (r: Option<U.User>)
      requires Valid()
      ensures r.Some? <==> EmailTaken(users, email)
      ensures r.Some? ==> r.value.email == email && r.value.id in users && users[r.value.id] == r.value
    {
      EmailLookupOnTable(users, nextUserId, email);
      Lists.ScanIsTable(users, nextUserId, U.UserId);
      r := Lists.FirstWhere(UserRows(), AQ.HasEmail(email));
    }

    // -------------------------------------------------------------------------
    // tasks.py
    // -------------------------------------------------------------------------

    /** `read_tasks`: every stored task that passes the filters, whoever
        owns its project; with no offset, all of them. */
    function ReadTasks(caller: int, f: TQ.TaskFilters, skip: int, limit: int): (r: seq<Task>)
      reads this
      requires Valid()
      ensures forall i :: 0 <= i < |r| ==> r[i].id in tasks && tasks[r[i].id] == r[i] && TQ.Matches(f, r[i])
      ensures skip <= 0 ==> forall k :: k in tasks && TQ.Matches(f, tasks[k]) ==> tasks[k] in r
      ensures var m := Lists.Filter(TaskRows(), TQ.Matching(f));
        && |r| == (if skip <= 0 then |m| else if skip >= |m| then 0 else |m| - skip)
        && forall i :: 0 <= i < |r| ==> r[i] == m[i + (if skip <= 0 then 0 else skip)]
    {
      TasksOnTable(tasks, nextTaskId, f, skip, limit);
      TQ.ReadTasks(TaskRows(), f, skip, limit)
    }

    /** `read_task`: the stored task when the as-written gate lets it
        through, 404 otherwise. */
    function ReadTask(caller: int, taskId: int): (r: Outcome<Task>)
      reads this
      requires Valid()
      ensures r.Ok? || r.NotFound?
      ensures r.Ok? <==> Visible(projects, tasks, taskId, caller)
      ensures r.Ok? ==> r.value == tasks[taskId]
    {
      GetTaskOnTables(projects, nextProjectId, tasks, nextTaskId, taskId, caller);
      var found := TQ.GetTask(ProjectRows(), TaskRows(), taskId, caller);
      if found.None? then NotFound else Ok(found.value)
    }

    /** `read_task_comments`: behind the same gate, exactly the stored
        comments of the task. */
    function ReadTaskComments(caller: int, taskId: int): (r: Outcome<seq<C.Comment>>)
      reads this
      requires Valid()
      ensures r.Ok? || r.NotFound?
      ensures r.Ok? <==> Visible(projects, tasks, taskId, caller)
      ensures r.Ok? ==> forall i :: 0 <= i < |r.value| ==>
        r.value[i].id in comments && comments[r.value[i].id] == r.value[i] && r.value[i].taskId == taskId
      ensures r.Ok? ==> forall k :: k in comments && comments[k].taskId == taskId ==> comments[k] in r.value
      ensures r.Ok? ==> Lists.Ascending(r.value, C.CommentId)
    {
      GetTaskOnTables(projects, nextProjectId, tasks, nextTaskId, taskId, caller);
      CommentsOnTable(comments, nextCommentId, taskId);
      if TQ.GetTask(ProjectRows(), TaskRows(), taskId, caller).None? then NotFound
      else Ok(TQ.TaskComments(CommentRows(), taskId))
    }

    /** `create_task`: 404 and no insert unless the caller owns the
        payload's project; otherwise exactly one new task. The title is not
        checked beyond the schema. */
    method CreateTask(caller: int, t: TaskCreate, now: Timestamp) returns (r: Outcome<Task>)
      requires Valid() && ValidCreate(t)
      modifies this
      ensures Valid()
      ensures r.Ok? || r.NotFound?
      ensures r.NotFound? <==> !Owns(old(projects), t.projectId, caller)
      ensures r.NotFound? ==> unchanged(this)
      ensures r.Ok? ==> && r.value == NewTask(old(nextTaskId), t, caller, now)
                        && old(nextTaskId) !in old(tasks)
                        && tasks == old(tasks)[old(nextTaskId) := r.value]
      ensures users == old(users) && projects == old(projects) && comments == old(comments)
      ensures r.Ok? ==> nextTaskId == old(nextTaskId) + 1
      ensures nextUserId == old(nextUserId) && nextProjectId == old(nextProjectId) && nextCommentId == old(nextCommentId)
    {
      var project := GetProject(t.projectId, caller);
      if project.None? {
        return NotFound;
      }
      var row := NewTask(nextTaskId, t, caller, now);
      Lists.KeyedInsert(tasks, TaskId, nextTaskId, row);
      tasks := tasks[nextTaskId := row];
      nextTaskId := nextTaskId + 1;
      return Ok(row);
    }

    /** `update_task`: 404 when the gate fails, 400 when a non-null
        assignee names no user, and otherwise exactly the keys the client
        set are assigned to the task. */
    method UpdateTask(caller: int, taskId: int, u: TaskUpdate) returns (r: Outcome<Task>)
      requires Valid() && ValidUpdate(u)
      modifies this
      ensures Valid()
      ensures r.Ok? || r.NotFound? || r.BadRequest?
      ensures r.NotFound? <==> !Visible(old(projects), old(tasks), taskId, caller)
      ensures r.BadRequest? <==> Visible(old(projects), old(tasks), taskId, caller) && AssigneeMissing(u, old(users))
      ensures !r.Ok? ==> unchanged(this)
      ensures r.Ok? ==> r.value == Patched(old(tasks)[taskId], u) && tasks == old(tasks)[taskId := r.value]
      ensures users == old(users) && projects == old(projects) && comments == old(comments)
      ensures nextUserId == old(nextUserId) && nextProjectId == old(nextProjectId)
      ensures nextTaskId == old(nextTaskId) && nextCommentId == old(nextCommentId)
    {
      var found := GetTask(taskId, caller);
      if found.None? {
        return NotFound;
      }
      // The dump has no `project_id` key (`DumpHasNoProjectId`), so the
      // project re-check never runs.
      if u.assigneeId.Set? && u.assigneeId.value.Some? {
        var assigneeId := u.assigneeId.value.value;
        var assignee := GetUser(assigneeId);
        if assignee.None? {
          return BadRequest;
        }
      }
      var row := AssignTask(found.value, u);
      PatchedKeepsInvariant(found.value, u);
      assert ValidTask(row) && TaskId(row) == taskId;
      Lists.KeyedReplace(tasks, TaskId, nextTaskId, taskId, row);
      tasks := tasks[taskId := row];
      return Ok(row);
    }

    /** `delete_task`: 404 when the gate fails; otherwise exactly that task
        is removed, and every other task and every comment stays. */
    method DeleteTask(caller: int, taskId: int) returns (r: Outcome<()>)
      requires Valid()
      modifies this
      ensures Valid()
      ensures r.Ok? || r.NotFound?
      ensures r.NotFound? <==> !Visible(old(projects), old(tasks), taskId, caller)
      ensures r.NotFound? ==> unchanged(this)
      ensures r.Ok? ==> tasks == old(tasks) - {taskId}
      ensures users == old(users) && projects == old(projects) && comments == old(comments)
      ensures nextUserId == old(nextUserId) && nextProjectId == old(nextProjectId)
      ensures nextTaskId == old(nextTaskId) && nextCommentId == old(nextCommentId)
    {
      var found := GetTask(taskId, caller);
      if found.None? {
        return NotFound;
      }
      Lists.KeyedRemove(tasks, TaskId, nextTaskId, taskId);
      tasks := tasks - {taskId};
      return Ok(());
    }

    /** `create_comment`: behind the same gate, one new comment on the task
        of the path, written by the caller. */
    method CreateComment(caller: int, taskId: int, c: C.CommentCreate, now: Timestamp) returns (r: Outcome<C.Comment>)
      requires Valid() && C.ValidCreate(c)
      modifies this
      ensures Valid()
      ensures r.Ok? || r.NotFound?
      ensures r.NotFound? <==> !Visible(old(projects), old(tasks), taskId, caller)
      ensures r.NotFound? ==> unchanged(this)
      ensures r.Ok? ==> && r.value == C.Comment(old(nextCommentId), c.content, taskId, caller, now, None)
                        && old(nextCommentId) !in old(comments)
                        && comments == old(comments)[old(nextCommentId) := r.value]
      ensures users == old(users) && projects == old(projects) && tasks == old(tasks)
      ensures r.Ok? ==> nextCommentId == old(nextCommentId) + 1
      ensures nextUserId == old(nextUserId) && nextProjectId == old(nextProjectId) && nextTaskId == old(nextTaskId)
    {
      var found := GetTask(taskId, caller);
      if found.None? {
        return NotFound;
      }
      var row := C.Comment(nextCommentId, c.content, taskId, caller, now, None);
      assert C.ValidComment(row) && C.CommentId(row) == nextCommentId;
      Lists.KeyedInsert(comments, C.CommentId, nextCommentId, row);
      comments := comments[nextCommentId := row];
      nextCommentId := nextCommentId + 1;
      return Ok(row);
    }

    // -------------------------------------------------------------------------
    // projects.py
    // -------------------------------------------------------------------------

    /** `read_projects`: only stored projects the caller owns, at most
        `limit` of them. */
    function ReadProjects(caller: int, skip: int, limit: int): (r: seq<P.Project>)
      reads this
      requires Valid()
      ensures forall i :: 0 <= i < |r| ==>
        r[i].id in projects && projects[r[i].id] == r[i] && r[i].ownerId == caller
      ensures limit >= 0 ==> |r| <= limit
      ensures skip <= 0 && limit < 0 ==>
        forall k :: k in projects && projects[k].ownerId == caller ==> projects[k] in r
      ensures var o := Lists.Filter(ProjectRows(), PQ.OwnedBy(caller));
        var rest := if skip <= 0 then |o| else if skip >= |o| then 0 else |o| - skip;
        && |r| == (if limit < 0 || limit >= rest then rest else limit)
        && forall i :: 0 <= i < |r| ==> r[i] == o[i + (if skip <= 0 then 0 else skip)]
    {
      ProjectsOnTable(projects, nextProjectId, caller, skip, limit);
      PQ.ReadProjects(ProjectRows(), caller, skip, limit)
    }

    /** `read_project`: the stored project when the caller owns it. */
    function ReadProject(caller: int, id: int): (r: Outcome<P.Project>)
      reads this
      requires Valid()
      ensures r.Ok? || r.NotFound?
      ensures r.Ok? <==> Owns(projects, id, caller)
      ensures r.Ok? ==> r.value == projects[id]
    {
      GetProjectOnTable(projects, nextProjectId, id, caller);
      var found := PQ.GetProject(ProjectRows(), id, caller);
      if found.None? then NotFound else Ok(found.value)
    }

    /** `create_project`: exactly one new project, owned by the caller. */
    method CreateProject(caller: int, p: P.ProjectCreate, now: Timestamp) returns (r: Outcome<P.Project>)
      requires Valid() && P.ValidCreate(p)
      modifies this
      ensures Valid()
      ensures r.Ok?
      ensures r.value == P.Project(old(nextProjectId), Some(p.name), p.description, caller, now)
      ensures old(nextProjectId) !in old(projects) && projects == old(projects)[old(nextProjectId) := r.value]
      ensures users == old(users) && tasks == old(tasks) && comments == old(comments)
      ensures nextProjectId == old(nextProjectId) + 1
      ensures nextUserId == old(nextUserId) && nextTaskId == old(nextTaskId) && nextCommentId == old(nextCommentId)
    {
      var row := P.Project(nextProjectId, Some(p.name), p.description, caller, now);
      Lists.KeyedInsert(projects, P.ProjectId, nextProjectId, row);
      projects := projects[nextProjectId := row];
      nextProjectId := nextProjectId + 1;
      return Ok(row);
    }

    /** `update_project`: 404 unless the caller owns the project; otherwise
        the set keys are assigned, which never touches id or owner. */
    method UpdateProject(caller: int, id: int, u: P.ProjectUpdate) returns (r: Outcome<P.Project>)
      requires Valid() && P.ValidUpdate(u)
      modifies this
      ensures Valid()
      ensures r.Ok? || r.NotFound?
      ensures r.NotFound? <==> !Owns(old(projects), id, caller)
      ensures r.NotFound? ==> unchanged(this)
      ensures r.Ok? ==> && r.value == P.Patched(old(projects)[id], u)
                        && r.value.id == id && r.value.ownerId == caller
                        && projects == old(projects)[id := r.value]
      ensures users == old(users) && tasks == old(tasks) && comments == old(comments)
      ensures nextUserId == old(nextUserId) && nextProjectId == old(nextProjectId)
      ensures nextTaskId == old(nextTaskId) && nextCommentId == old(nextCommentId)
    {
      var found := GetProject(id, caller);
      if found.None? {
        return NotFound;
      }
      var data := P.Dump(u);
      var row := Lists.SetAttrs(found.value, data, P.Assign);
      P.AssignDumpIsPatched(found.value, u);
      P.PatchedKeepsInvariant(found.value, u);
      Lists.KeyedReplace(projects, P.ProjectId, nextProjectId, id, row);
      projects := projects[id := row];
      return Ok(row);
    }

    /** `delete_project`: 404 unless the caller owns the project; otherwise
        exactly that project goes, and its tasks stay. */
    method DeleteProject(caller: int, id: int) returns (r: Outcome<()>)
      requires Valid()
      modifies this
      ensures Valid()
      ensures r.Ok? || r.NotFound?
      ensures r.NotFound? <==> !Owns(old(projects), id, caller)
      ensures r.NotFound? ==> unchanged(this)
      ensures r.Ok? ==> projects == old(projects) - {id}
      ensures users == old(users) && tasks == old(tasks) && comments == old(comments)
      ensures nextUserId == old(nextUserId) && nextProjectId == old(nextProjectId)
      ensures nextTaskId == old(nextTaskId) && nextCommentId == old(nextCommentId)
    {
      var found := GetProject(id, caller);
      if found.None? {
        return NotFound;
      }
      Lists.KeyedRemove(projects, P.ProjectId, nextProjectId, id);
      projects := projects - {id};
      return Ok(());
    }

    // -------------------------------------------------------------------------
    // auth.py and users.py
    // -------------------------------------------------------------------------

    /** `register_user`: 400 and no insert when the email is taken;
        otherwise one new active user whose row holds only the hash of the
        password. Unique emails stay unique. */
    method RegisterUser(c: U.UserCreate, hash: string -> string) returns (r: Outcome<U.User>)
      requires Valid()
      modifies this
      ensures Valid()
      ensures r.Ok? || r.BadRequest?
      ensures r.BadRequest? <==> EmailTaken(old(users), c.email)
      ensures r.BadRequest? ==> unchanged(this)
      ensures r.Ok? ==> && r.value == U.User(old(nextUserId), c.email, hash(c.password), c.fullName, true, false)
                        && old(nextUserId) !in old(users)
                        && users == old(users)[old(nextUserId) := r.value]
      ensures old(U.UniqueEmails(users)) ==> U.UniqueEmails(users)
      ensures projects == old(projects) && tasks == old(tasks) && comments == old(comments)
      ensures r.Ok? ==> nextUserId == old(nextUserId) + 1
      ensures nextProjectId == old(nextProjectId) && nextTaskId == old(nextTaskId) && nextCommentId == old(nextCommentId)
    {
      var existing := FindUserByEmail(c.email);
      if existing.Some? {
        return BadRequest;
      }
      var row := U.User(nextUserId, c.email, hash(c.password), c.fullName, true, false);
      Lists.KeyedInsert(users, U.UserId, nextUserId, row);
      users := users[nextUserId := row];
      nextUserId := nextUserId + 1;
      return Ok(row);
    }

    /** `update_user_me`: the payload's `id`, when present, picks the user
        to change. 404 when it is `null` or names no user; 400 for a non-empty
        password under four characters; otherwise every set key is
        assigned, with the password stored only as its hash. */
    method UpdateUserMe(caller: int, u: U.UserUpdate, hash: string -> string) returns (r: Outcome<U.User>)
      requires Valid()
      modifies this
      ensures Valid()
      ensures r.Ok? || r.NotFound? || r.BadRequest?
      ensures r.NotFound? <==> !TargetFound(old(users), u, caller)
      ensures r.BadRequest? <==> TargetFound(old(users), u, caller) && UE.PasswordTooShort(u)
      ensures !r.Ok? ==> unchanged(this)
      ensures r.Ok? ==> && r.value == UE.PatchedUser(old(users)[UE.TargetId(u, caller).value], u, hash)
                        && users == old(users)[UE.TargetId(u, caller).value := r.value]
      ensures projects == old(projects) && tasks == old(tasks) && comments == old(comments)
      ensures nextUserId == old(nextUserId) && nextProjectId == old(nextProjectId)
      ensures nextTaskId == old(nextTaskId) && nextCommentId == old(nextCommentId)
    {
      var targetId := UE.TargetId(u, caller);
      if targetId.None? {
        return NotFound;
      }
      var target := targetId.value;
      var found := GetUser(target);
      if found.None? {
        return NotFound;
      }
      var row := UE.ApplyUpdate(found.value, u, hash);
      if row.None? {
        return BadRequest;
      }
      assert U.UserId(row.value) == target;
      Lists.KeyedReplace(users, U.UserId, nextUserId, target, row.value);
      users := users[target := row.value];
      return Ok(row.value);
    }
  }
}

