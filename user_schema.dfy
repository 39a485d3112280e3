/** The user row and the user payloads the endpoints read. The user schema
    and model files are not part of this model: the fields below are the
    ones the endpoints, the profile form and the seeding script use. */
module UserSchema {
  import opened Common

  /** A stored user row (the ORM `User`, and `UserInDB`). */
  datatype User = User(
    id: int,
    email: string,
    hashedPassword: string,
    fullName: string,
    isActive: bool,
    isSuperuser: bool)

  /** The primary key of a user row. */
  function UserId(u: User): int {
    u.id
  }

  /** A validated `UserCreate` (the registration body). */
  datatype UserCreate = UserCreate(email: string, password: string, fullName: string)

  /** A validated `UserUpdate` with its set/unset keys: the profile form's
      email, full name and password, and the `id` key the endpoint reads,
      which may be sent as `null`. */
  datatype UserUpdate = UserUpdate(
    id: Patch<Option<int>>,
    email: Patch<string>,
    fullName: Patch<string>,
    password: Patch<Option<string>>)

  /** One item of the endpoint's `update_data` dict. `HashedPassword` is the
      key the endpoint adds itself. */
  datatype UserField =
    | Id(id: Option<int>)
    | Email(email: string)
    | FullName(fullName: string)
    | Password(password: Option<string>)
    | HashedPassword(hashed: string)

  /** `user_update.dict(exclude_unset=True)` as its list of items. */
  function Dump(u: UserUpdate): (d: seq<UserField>)
    ensures |d| <= 4
    ensures forall i :: 0 <= i < |d| ==> !d[i].HashedPassword?
    ensures u.id.Set? ==> Id(u.id.value) in d
    ensures u.email.Set? ==> Email(u.email.value) in d
    ensures u.fullName.Set? ==> FullName(u.fullName.value) in d
    ensures u.password.Set? ==> Password(u.password.value) in d
    ensures u.password.Unset? ==> forall i :: 0 <= i < |d| ==> !d[i].Password?
  {
    (if u.id.Set? then [Id(u.id.value)] else [])
    + (if u.email.Set? then [Email(u.email.value)] else [])
    + (if u.fullName.Set? then [FullName(u.fullName.value)] else [])
    + (if u.password.Set? then [Password(u.password.value)] else [])
  }

  /** `setattr(db_user, field, value)` for one item. The ORM row has no
      `password` column, so assigning `password` changes no stored field. A
      `null` id is never assigned: `update_user_me` answers 404 for it
      before the loop, so the row is kept. */
  function Assign(user: User, f: UserField): (r: User)
    ensures r.isActive == user.isActive && r.isSuperuser == user.isSuperuser
    ensures f.Password? ==> r == user
    ensures !f.HashedPassword? ==> r.hashedPassword == user.hashedPassword
    ensures f.HashedPassword? ==> r.hashedPassword == f.hashed
    ensures f.Id? && f.id.Some? ==> r.id == f.id.value
  {
    match f
    case Id(x) => if x.Some? then user.(id := x.value) else user
    case Email(x) => user.(email := x)
    case FullName(x) => user.(fullName := x)
    case Password(_) => user
    case HashedPassword(x) => user.(hashedPassword := x)
  }

  /** Emails are unique among the stored users. */
  ghost predicate UniqueEmails(users: map<int, User>) {
    forall j, k :: j in users && k in users && users[j].email == users[k].email ==> j == k
  }
}
