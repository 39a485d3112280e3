/** The read-only queries of the project endpoints: the ownership gate
    `get_project` and the paged listing `read_projects`, over the project
    rows in scan order. */
module ProjectQueries {
  import opened Common
  import opened ProjectSchema
  import Lists

  function IsOwned(id: int, uid: int): Project -> bool {
    (p: Project) => p.id == id && p.ownerId == uid
  }

  function OwnedBy(uid: int): Project -> bool {
    (p: Project) => p.ownerId == uid
  }

  /** `get_project`: the project with the id, if the caller owns it. */
  function GetProject(projects: seq<Project>, id: int, uid: int): (r: Option<Project>)
    ensures r.Some? <==> exists i :: 0 <= i < |projects| && projects[i].id == id && projects[i].ownerId == uid
    ensures r.Some? ==> r.value in projects && r.value.id == id && r.value.ownerId == uid
  {
    Lists.FirstWhere(projects, IsOwned(id, uid))
  }

  /** `read_projects`: the caller's projects, the first `skip` dropped, at
      most `limit` of the rest. */
  function ReadProjects(projects: seq<Project>, uid: int, skip: int, limit: int): (r: seq<Project>)
    ensures forall i :: 0 <= i < |r| ==> r[i] in projects && r[i].ownerId == uid
    ensures limit >= 0 ==> |r| <= limit
    ensures skip <= 0 && limit < 0 ==>
      forall i :: 0 <= i < |projects| && projects[i].ownerId == uid ==> projects[i] in r
    ensures var o := Lists.Filter(projects, OwnedBy(uid));
      var rest := if skip <= 0 then |o| else if skip >= |o| then 0 else |o| - skip;
      && |r| == (if limit < 0 || limit >= rest then rest else limit)
      && forall i :: 0 <= i < |r| ==> r[i] == o[i + (if skip <= 0 then 0 else skip)]
  {
    Lists.Take(Lists.Drop(Lists.Filter(projects, OwnedBy(uid)), skip), limit)
  }

  /** The first page of `k` projects followed by everything after it is the
      caller's whole list: pages neither overlap nor leave gaps. */
  lemma PagesCoverList(projects: seq<Project>, uid: int, k: nat)
    ensures ReadProjects(projects, uid, 0, k) + ReadProjects(projects, uid, k, -1)
         == ReadProjects(projects, uid, 0, -1)
  {
    var o := Lists.Filter(projects, OwnedBy(uid));
    if k < |o| {
      assert o[..k] + o[k..] == o;
    }
  }
}
