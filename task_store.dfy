/** The client's task store (`useTaskStore`): the task list, the task being
    viewed, and the loading and error flags, with its seven actions. Each
    action is given the response its request got. */
module TaskStore {
  import opened Common
  import opened Client
  import Lists

  /** The statuses the client's `Task` type admits; `InReview` is not one
      the backend's `create_task` keeps. */
  datatype Status = Todo | InProgress | InReview | Done

  /** A comment as the client holds it. */
  datatype CommentView = CommentView(id: int, content: string, taskId: int, userId: int, createdAt: string)

  /** The task fields the store never changes in place. */
  datatype TaskData = TaskData(
    title: string,
    description: Option<string>,
    status: Status,
    priority: Option<int>,
    dueDate: Option<string>,
    projectId: int,
    assigneeId: Option<int>,
    createdBy: int,
    createdAt: string,
    updatedAt: Option<string>)

  /** A task object. A response body is one such object, and after
      `updateTask` the same object can be both in `tasks` and in
      `currentTask`; the only thing the store changes inside it is its
      comment list. */
  class TaskView {
    const id: int
    const data: TaskData
    var comments: Option<seq<CommentView>>

    constructor (id: int, data: TaskData, comments: Option<seq<CommentView>>)
      ensures this.id == id && this.data == data && this.comments == comments
    {
      this.id := id;
      this.data := data;
      this.comments := comments;
    }
  }

  function TaskKey(t: TaskView): int {
    t.id
  }

  const FetchTasksFailed := "Failed to fetch tasks"
  const FetchTaskFailed := "Failed to fetch task"
  const CreateTaskFailed := "Failed to create task"
  const UpdateTaskFailed := "Failed to update task"
  const DeleteTaskFailed := "Failed to delete task"
  const AddCommentFailed := "Failed to add comment"
  const FetchCommentsFailed := "Failed to fetch comments"

  /** Whether `currentTask.value?.id === id`. */
  predicate IsCurrent(current: TaskView?, id: int) {
    current != null && current.id == id
  }

  class Store {
    var tasks: seq<TaskView>
    var currentTask: TaskView?
    var loading: bool
    var error: Option<string>

    constructor ()
      ensures tasks == [] && currentTask == null && !loading && error.None?
    {
      tasks := [];
      currentTask := null;
      loading := false;
      error := None;
    }

    /** `fetchTasks`: the list becomes the response. The filters only shape
        the request's query string. */
    method FetchTasks(resp: Response<seq<TaskView>>) returns (r: Settled<seq<TaskView>>)
      modifies this
      ensures !loading && currentTask == old(currentTask)
      ensures resp.Success? ==> tasks == resp.data && error.None? && r == Resolved(resp.data)
      ensures resp.Failure? ==> && tasks == old(tasks) && r == Rejected(resp.detail)
                                && error == Some(ErrorMessage(resp.detail, FetchTasksFailed))
    {
      loading := true;
      error := None;
      match resp {
        case Success(data) =>
          tasks := data;
          r := Resolved(tasks);
        case Failure(detail) =>
          error := Some(ErrorMessage(detail, FetchTasksFailed));
          r := Rejected(detail);
      }
      loading := false;
    }

    /** `fetchTaskById`: the viewed task becomes the response. */
    method FetchTaskById(id: int, resp: Response<TaskView>) returns (r: Settled<TaskView>)
      modifies this
      ensures !loading && tasks == old(tasks)
      ensures resp.Success? ==> currentTask == resp.data && error.None? && r == Resolved(resp.data)
      ensures resp.Failure? ==> && currentTask == old(currentTask) && r == Rejected(resp.detail)
                                && error == Some(ErrorMessage(resp.detail, FetchTaskFailed))
    {
      loading := true;
      error := None;
      match resp {
        case Success(data) =>
          currentTask := data;
          r := Resolved(data);
        case Failure(detail) =>
          error := Some(ErrorMessage(detail, FetchTaskFailed));
          r := Rejected(detail);
      }
      loading := false;
    }

    /** `createTask`: the new task is appended; the tasks before it stay. */
    method CreateTask(resp: Response<TaskView>) returns (r: Settled<TaskView>)
      modifies this
      ensures !loading && currentTask == old(currentTask)
      ensures resp.Success? ==> && tasks == old(tasks) + [resp.data]
                                && |tasks| == |old(tasks)| + 1 && tasks[..|old(tasks)|] == old(tasks)
                                && error.None? && r == Resolved(resp.data)
      ensures resp.Failure? ==> && tasks == old(tasks) && r == Rejected(resp.detail)
                                && error == Some(ErrorMessage(resp.detail, CreateTaskFailed))
    {
      loading := true;
      error := None;
      match resp {
        case Success(data) =>
          tasks := tasks + [data];
          r := Resolved(data);
        case Failure(detail) =>
          error := Some(ErrorMessage(detail, CreateTaskFailed));
          r := Rejected(detail);
      }
      loading := false;
    }

    /** `updateTask`: the first task with the id is replaced by the
        response, and the viewed task too when it has that id. */
    method UpdateTask(id: int, resp: Response<TaskView>) returns (r: Settled<TaskView>)
      modifies this
      ensures !loading
      ensures resp.Success? ==> && tasks == Lists.ReplaceFirst(old(tasks), TaskKey, id, resp.data)
                                && currentTask == (if IsCurrent(old(currentTask), id) then resp.data else old(currentTask))
                                && error.None? && r == Resolved(resp.data)
      ensures resp.Failure? ==> && tasks == old(tasks) && currentTask == old(currentTask)
                                && r == Rejected(resp.detail)
                                && error == Some(ErrorMessage(resp.detail, UpdateTaskFailed))
    {
      loading := true;
      error := None;
      match resp {
        case Success(data) =>
          var index := Lists.FindIndex(tasks, TaskKey, id);
          if index != -1 {
            tasks := tasks[index := data];
          }
          if currentTask != null && currentTask.id == id {
            currentTask := data;
          }
          r := Resolved(data);
        case Failure(detail) =>
          error := Some(ErrorMessage(detail, UpdateTaskFailed));
          r := Rejected(detail);
      }
      loading := false;
    }

    /** `deleteTask`: every task with the id leaves the list, the others
        stay in order, and the viewed task is dropped when it has the id. */
    method DeleteTask(id: int, resp: Response<()>) returns (r: Settled<bool>)
      modifies this
      ensures !loading
      ensures resp.Success? ==> && tasks == Lists.Filter(old(tasks), Lists.KeyIsNot(TaskKey, id))
                                && currentTask == (if IsCurrent(old(currentTask), id) then null else old(currentTask))
                                && error.None? && r == Resolved(true)
      ensures resp.Failure? ==> && tasks == old(tasks) && currentTask == old(currentTask)
                                && r == Rejected(resp.detail)
                                && error == Some(ErrorMessage(resp.detail, DeleteTaskFailed))
    {
      loading := true;
      error := None;
      match resp {
        case Success(_) =>
          tasks := Lists.Filter(tasks, Lists.KeyIsNot(TaskKey, id));
          if currentTask != null && currentTask.id == id {
            currentTask := null;
          }
          r := Resolved(true);
        case Failure(detail) =>
          error := Some(ErrorMessage(detail, DeleteTaskFailed));
          r := Rejected(detail);
      }
      loading := false;
    }

    /** `addComment`: when the viewed task is the commented one, the new
        comment is appended to its list, which is created empty first if
        absent. No other task object changes, and the list and the viewed
        task stay the same objects. */
    method AddComment(taskId: int, resp: Response<CommentView>) returns (r: Settled<CommentView>)
      modifies this, currentTask
      ensures !loading && tasks == old(tasks) && currentTask == old(currentTask)
      ensures resp.Success? && IsCurrent(currentTask, taskId) ==>
        currentTask.comments == Some((if old(currentTask.comments).Some? then old(currentTask.comments).value else []) + [resp.data])
      ensures !(resp.Success? && IsCurrent(currentTask, taskId)) && currentTask != null ==>
        currentTask.comments == old(currentTask.comments)
      ensures forall i :: 0 <= i < |tasks| && tasks[i] != currentTask ==> tasks[i].comments == old(tasks[i].comments)
      ensures resp.Success? ==> error.None? && r == Resolved(resp.data)
      ensures resp.Failure? ==> r == Rejected(resp.detail) && error == Some(ErrorMessage(resp.detail, AddCommentFailed))
    {
      loading := true;
      error := None;
      match resp {
        case Success(data) =>
          if currentTask != null && currentTask.id == taskId {
            if currentTask.comments.None? {
              currentTask.comments := Some([]);
            }
            currentTask.comments := Some(currentTask.comments.value + [data]);
          }
          r := Resolved(data);
        case Failure(detail) =>
          error := Some(ErrorMessage(detail, AddCommentFailed));
          r := Rejected(detail);
      }
      loading := false;
    }

    /** `fetchTaskComments`: the viewed task's comment list becomes the
        response when it is the task asked about. */
    method FetchTaskComments(taskId: int, resp: Response<seq<CommentView>>) returns (r: Settled<seq<CommentView>>)
      modifies this, currentTask
      ensures !loading && tasks == old(tasks) && currentTask == old(currentTask)
      ensures resp.Success? && IsCurrent(currentTask, taskId) ==> currentTask.comments == Some(resp.data)
      ensures !(resp.Success? && IsCurrent(currentTask, taskId)) && currentTask != null ==>
        currentTask.comments == old(currentTask.comments)
      ensures forall i :: 0 <= i < |tasks| && tasks[i] != currentTask ==> tasks[i].comments == old(tasks[i].comments)
      ensures resp.Success? ==> error.None? && r == Resolved(resp.data)
      ensures resp.Failure? ==> r == Rejected(resp.detail) && error == Some(ErrorMessage(resp.detail, FetchCommentsFailed))
    {
      loading := true;
      error := None;
      match resp {
        case Success(data) =>
          if currentTask != null && currentTask.id == taskId {
            currentTask.comments := Some(data);
          }
          r := Resolved(data);
        case Failure(detail) =>
          error := Some(ErrorMessage(detail, FetchCommentsFailed));
          r := Rejected(detail);
      }
      loading := false;
    }
  }
}
