/** The project schemas: `ProjectCreate`, `ProjectUpdate`, their field
    constraints and defaults, the update's `exclude_unset` dump, and the
    stored project row. */
module ProjectSchema {
  import opened Common
  import Lists

  const MaxNameLength := 100

  /** A project request body as it arrives. */
  datatype ProjectBody = ProjectBody(name: Json<string>, description: Json<string>)

  /** A validated `ProjectCreate`. */
  datatype ProjectCreate = ProjectCreate(name: string, description: Option<string>)

  /** A validated `ProjectUpdate` with its set/unset keys. */
  datatype ProjectUpdate = ProjectUpdate(name: Patch<Option<string>>, description: Patch<Option<string>>)

  /** A stored project row (`ProjectInDBBase`); the name is optional because
      an update may assign `None` to it. */
  datatype Project = Project(
    id: int,
    name: Option<string>,
    description: Option<string>,
    ownerId: int,
    createdAt: Timestamp)

  /** The primary key of a project row. */
  function ProjectId(p: Project): int {
    p.id
  }

  /** One item of an update's dump. */
  datatype ProjectField = Name(name: Option<string>) | Description(description: Option<string>)

  predicate NameOk(n: Option<string>) {
    n.None? || |n.value| <= MaxNameLength
  }

  predicate ValidCreate(c: ProjectCreate) {
    |c.name| <= MaxNameLength
  }

  predicate ValidUpdate(u: ProjectUpdate) {
    u.name.Set? ==> NameOk(u.name.value)
  }

  predicate ValidProject(p: Project) {
    NameOk(p.name)
  }

  /** Pydantic's validation of a body as `ProjectCreate`: `name` is required
      and has at most 100 characters; `description` defaults to `None`. */
  function ParseCreate(b: ProjectBody): (r: Option<ProjectCreate>)
    ensures r.Some? <==> b.name.Given? && |b.name.value| <= MaxNameLength
    ensures r.Some? ==> ValidCreate(r.value)
    ensures r.Some? ==> r.value.name == b.name.value && r.value.description == OrNone(b.description)
  {
    if b.name.Given? && |b.name.value| <= MaxNameLength
    then Some(ProjectCreate(b.name.value, OrNone(b.description)))
    else None
  }

  /** Pydantic's validation of a body as `ProjectUpdate`: both keys are
      optional and nullable; a given name has at most 100 characters. */
  function ParseUpdate(b: ProjectBody): (r: Option<ProjectUpdate>)
    ensures r.Some? <==> (b.name.Given? ==> |b.name.value| <= MaxNameLength)
    ensures r.Some? ==> ValidUpdate(r.value)
    ensures r.Some? ==> (r.value.name.Unset? <==> b.name.Absent?)
    ensures r.Some? ==> (r.value.description.Unset? <==> b.description.Absent?)
    ensures r.Some? ==> Carries(r.value.name, b.name) && Carries(r.value.description, b.description)
  {
    if b.name.Given? && |b.name.value| > MaxNameLength then None
    else Some(ProjectUpdate(AsPatch(b.name), AsPatch(b.description)))
  }

  /** `project.model_dump(exclude_unset=True)` as its list of items. */
  function Dump(u: ProjectUpdate): (d: seq<ProjectField>)
    ensures |d| <= 2
    ensures forall i :: 0 <= i < |d| ==> (d[i].Name? ==> u.name == Set(d[i].name))
    ensures forall i :: 0 <= i < |d| ==> (d[i].Description? ==> u.description == Set(d[i].description))
    ensures u.name.Set? ==> Name(u.name.value) in d
    ensures u.description.Set? ==> Description(u.description.value) in d
    ensures |d| == 2 ==> d[0].Name? && d[1].Description?
  {
    (if u.name.Set? then [Name(u.name.value)] else [])
    + (if u.description.Set? then [Description(u.description.value)] else [])
  }

  /** `setattr(db_project, field, value)` for one item: only the item's
      own column changes. */
  function Assign(p: Project, f: ProjectField): (r: Project)
    ensures r.id == p.id && r.ownerId == p.ownerId && r.createdAt == p.createdAt
    ensures f.Name? ==> r.name == f.name && r.description == p.description
    ensures f.Description? ==> r.description == f.description && r.name == p.name
  {
    match f
    case Name(x) => p.(name := x)
    case Description(x) => p.(description := x)
  }

  /** The row a partial update leaves: only the keys set change. */
  function Patched(p: Project, u: ProjectUpdate): (r: Project)
    ensures r.id == p.id && r.ownerId == p.ownerId && r.createdAt == p.createdAt
    ensures u.name.Unset? ==> r.name == p.name
    ensures u.description.Unset? ==> r.description == p.description
    ensures u.name.Set? ==> r.name == u.name.value
    ensures u.description.Set? ==> r.description == u.description.value
  {
    p.(name := PatchOr(u.name, p.name), description := PatchOr(u.description, p.description))
  }

  /** The `setattr` loop over the dump yields the patched row, which keeps
      the id, the owner and the creation time of the original. */
  lemma {:induction false} AssignDumpIsPatched(p: Project, u: ProjectUpdate)
    ensures Lists.Fold(p, Dump(u), Assign) == Patched(p, u)
    ensures Patched(p, u).id == p.id && Patched(p, u).ownerId == p.ownerId
    ensures Patched(p, u).createdAt == p.createdAt
  {
    var a := if u.name.Set? then [Name(u.name.value)] else [];
    var b := if u.description.Set? then [Description(u.description.value)] else [];
    Lists.FoldConcat(p, a, b, Assign);
    assert Lists.Fold(p, a, Assign) == p.(name := PatchOr(u.name, p.name)) by {
      if a != [] {
        assert a[..0] == [];
      }
    }
    if b != [] {
      assert b[..0] == [];
    }
  }

  /** A validated update keeps a stored project valid. */
  lemma PatchedKeepsInvariant(p: Project, u: ProjectUpdate)
    requires ValidProject(p) && ValidUpdate(u)
    ensures ValidProject(Patched(p, u))
  {
  }
}
