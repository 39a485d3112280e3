/** The client's project store (`useProjectStore`): the project list, the
    project being viewed, and the loading and error flags, with its five
    actions. Project objects are never changed in place, so they are
    values here. */
module ProjectStore {
  import opened Common
  import opened Client
  import Lists

  /** A project as the client holds it. */
  datatype ProjectView = ProjectView(id: int, name: string, description: Option<string>, ownerId: int, createdAt: string)

  function ProjectKey(p: ProjectView): int {
    p.id
  }

  const FetchProjectsFailed := "Failed to fetch projects"
  const FetchProjectFailed := "Failed to fetch project"
  const CreateProjectFailed := "Failed to create project"
  const UpdateProjectFailed := "Failed to update project"
  const DeleteProjectFailed := "Failed to delete project"

  /** Whether `currentProject.value?.id === id`. */
  predicate IsCurrent(current: Option<ProjectView>, id: int) {
    current.Some? && current.value.id == id
  }

  class Store {
    var projects: seq<ProjectView>
    var currentProject: Option<ProjectView>
    var loading: bool
    var error: Option<string>

    constructor ()
      ensures projects == [] && currentProject.None? && !loading && error.None?
    {
      projects := [];
      currentProject := None;
      loading := false;
      error := None;
    }

    /** `fetchProjects`: the list becomes the response. */
    method FetchProjects(resp: Response<seq<ProjectView>>) returns (r: Settled<seq<ProjectView>>)
      modifies this
      ensures !loading && currentProject == old(currentProject)
      ensures resp.Success? ==> projects == resp.data && error.None? && r == Resolved(resp.data)
      ensures resp.Failure? ==> && projects == old(projects) && r == Rejected(resp.detail)
                                && error == Some(ErrorMessage(resp.detail, FetchProjectsFailed))
    {
      loading := true;
      error := None;
      match resp {
        case Success(data) =>
          projects := data;
          r := Resolved(projects);
        case Failure(detail) =>
          error := Some(ErrorMessage(detail, FetchProjectsFailed));
          r := Rejected(detail);
      }
      loading := false;
    }

    /** `fetchProjectById`: the viewed project becomes the response. */
    method FetchProjectById(id: int, resp: Response<ProjectView>) returns (r: Settled<ProjectView>)
      modifies this
      ensures !loading && projects == old(projects)
      ensures resp.Success? ==> currentProject == Some(resp.data) && error.None? && r == Resolved(resp.data)
      ensures resp.Failure? ==> && currentProject == old(currentProject) && r == Rejected(resp.detail)
                                && error == Some(ErrorMessage(resp.detail, FetchProjectFailed))
    {
      loading := true;
      error := None;
      match resp {
        case Success(data) =>
          currentProject := Some(data);
          r := Resolved(data);
        case Failure(detail) =>
          error := Some(ErrorMessage(detail, FetchProjectFailed));
          r := Rejected(detail);
      }
      loading := false;
    }

    /** `createProject`: exactly one project is appended. */
    method CreateProject(resp: Response<ProjectView>) returns (r: Settled<ProjectView>)
      modifies this
      ensures !loading && currentProject == old(currentProject)
      ensures resp.Success? ==> && projects == old(projects) + [resp.data]
                                && |projects| == |old(projects)| + 1 && projects[..|old(projects)|] == old(projects)
                                && error.None? && r == Resolved(resp.data)
      ensures resp.Failure? ==> && projects == old(projects) && r == Rejected(resp.detail)
                                && error == Some(ErrorMessage(resp.detail, CreateProjectFailed))
    {
      loading := true;
      error := None;
      match resp {
        case Success(data) =>
          projects := projects + [data];
          r := Resolved(data);
        case Failure(detail) =>
          error := Some(ErrorMessage(detail, CreateProjectFailed));
          r := Rejected(detail);
      }
      loading := false;
    }

    /** `updateProject`: the first project with the id is replaced, and the
        viewed project too when it has the id. */
    method UpdateProject(id: int, resp: Response<ProjectView>) returns (r: Settled<ProjectView>)
      modifies this
      ensures !loading
      ensures resp.Success? ==> && projects == Lists.ReplaceFirst(old(projects), ProjectKey, id, resp.data)
                                && currentProject == (if IsCurrent(old(currentProject), id) then Some(resp.data) else old(currentProject))
                                && error.None? && r == Resolved(resp.data)
      ensures resp.Failure? ==> && projects == old(projects) && currentProject == old(currentProject)
                                && r == Rejected(resp.detail)
                                && error == Some(ErrorMessage(resp.detail, UpdateProjectFailed))
    {
      loading := true;
      error := None;
      match resp {
        case Success(data) =>
          var index := Lists.FindIndex(projects, ProjectKey, id);
          if index != -1 {
            projects := projects[index := data];
          }
          if currentProject.Some? && currentProject.value.id == id {
            currentProject := Some(data);
          }
          r := Resolved(data);
        case Failure(detail) =>
          error := Some(ErrorMessage(detail, UpdateProjectFailed));
          r := Rejected(detail);
      }
      loading := false;
    }

    /** `deleteProject`: every project with the id leaves the list, the
        rest stay in order, and the viewed project is dropped when it has
        the id. */
    method DeleteProject(id: int, resp: Response<()>) returns (r: Settled<bool>)
      modifies this
      ensures !loading
      ensures resp.Success? ==> && projects == Lists.Filter(old(projects), Lists.KeyIsNot(ProjectKey, id))
                                && currentProject == (if IsCurrent(old(currentProject), id) then None else old(currentProject))
                                && error.None? && r == Resolved(true)
      ensures resp.Failure? ==> && projects == old(projects) && currentProject == old(currentProject)
                                && r == Rejected(resp.detail)
                                && error == Some(ErrorMessage(resp.detail, DeleteProjectFailed))
    {
      loading := true;
      error := None;
      match resp {
        case Success(_) =>
          projects := Lists.Filter(projects, Lists.KeyIsNot(ProjectKey, id));
          if currentProject.Some? && currentProject.value.id == id {
            currentProject := None;
          }
          r := Resolved(true);
        case Failure(detail) =>
          error := Some(ErrorMessage(detail, DeleteProjectFailed));
          r := Rejected(detail);
      }
      loading := false;
    }
  }
}
