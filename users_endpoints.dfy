/** The logic of the `/users/me` endpoints that does not touch the store:
    shaping the profile response, and turning an update body into the
    items the endpoint assigns. The store-changing half of `update_user_me`
    is `Backend.Store.UpdateUserMe`. */
module UserEndpoints {
  import opened Common
  import opened UserSchema
  import Lists

  /** The shortest non-empty password `update_user_me` accepts. */
  const MinPasswordLength := 4

  /** `read_users_me`: the caller's fields, with the password hash copied in
      and the two flags overwritten, whatever the stored flags are. */
  method ReadUsersMe(current: User) returns (data: User)
    ensures data.id == current.id && data.email == current.email
    ensures data.fullName == current.fullName
    ensures data.hashedPassword == current.hashedPassword
    ensures data.isActive && !data.isSuperuser
  {
    data := current;
    data := data.(hashedPassword := current.hashedPassword);
    data := data.(isActive := true);
    data := data.(isSuperuser := false);
  }

  /** `update_data.get('id', current_user.id)`: the user the update
      targets; `None` when the body sent `"id": null`. */
  function TargetId(u: UserUpdate, caller: int): (id: Option<int>)
    ensures u.id.Unset? ==> id == Some(caller)
    ensures u.id.Set? ==> id == u.id.value
  {
    PatchOr(u.id, Some(caller))
  }

  /** The id a `setattr` of the update's `id` item leaves. */
  function NewId(u: UserUpdate, current: int): int {
    if u.id.Set? && u.id.value.Some? then u.id.value.value else current
  }

  /** Whether the update carries a password the endpoint acts on: the key is
      present and its value is neither `None` nor empty. */
  predicate ChangesPassword(u: UserUpdate) {
    u.password.Set? && Truthy(u.password.value)
  }

  /** A password the endpoint rejects with 400. */
  predicate PasswordTooShort(u: UserUpdate) {
    ChangesPassword(u) && |u.password.value.value| < MinPasswordLength
  }

  function NotPassword(f: UserField): bool {
    !f.Password?
  }

  /** `update_data["hashed_password"] = h; del update_data["password"]`. */
  function WithHashedPassword(d: seq<UserField>, h: string): (r: seq<UserField>)
    ensures |r| >= 1 && r[|r| - 1] == HashedPassword(h)
    ensures forall i :: 0 <= i < |r| ==> !r[i].Password?
    ensures forall i :: 0 <= i < |d| && !d[i].Password? ==> d[i] in r
  {
    Lists.Filter(d, NotPassword) + [HashedPassword(h)]
  }

  /** The items `update_user_me` assigns, once the password rule passed. */
  function Prepared(u: UserUpdate, hash: string -> string): (d: seq<UserField>)
    ensures ChangesPassword(u) ==> |d| >= 1 && d[|d| - 1] == HashedPassword(hash(u.password.value.value))
    ensures ChangesPassword(u) ==> forall i :: 0 <= i < |d| ==> !d[i].Password?
    ensures !ChangesPassword(u) ==> forall i :: 0 <= i < |d| ==> !d[i].HashedPassword?
  {
    if ChangesPassword(u) then WithHashedPassword(Dump(u), hash(u.password.value.value))
    else Dump(u)
  }

  /** The user an accepted update leaves: the set keys take their values, a
      password that is acted on is stored only as its hash, and every other
      field keeps its value. */
  function PatchedUser(user: User, u: UserUpdate, hash: string -> string): (r: User)
    ensures r.isActive == user.isActive && r.isSuperuser == user.isSuperuser
    ensures u.id.Unset? ==> r.id == user.id
    ensures u.email.Unset? ==> r.email == user.email
    ensures u.fullName.Unset? ==> r.fullName == user.fullName
    ensures u.id.Set? && u.id.value.Some? ==> r.id == u.id.value.value
    ensures u.email.Set? ==> r.email == u.email.value
    ensures u.fullName.Set? ==> r.fullName == u.fullName.value
    ensures !ChangesPassword(u) ==> r.hashedPassword == user.hashedPassword
    ensures ChangesPassword(u) ==> r.hashedPassword == hash(u.password.value.value)
  {
    user.(id := NewId(u, user.id),
          email := PatchOr(u.email, user.email),
          fullName := PatchOr(u.fullName, user.fullName),
          hashedPassword := if ChangesPassword(u) then hash(u.password.value.value) else user.hashedPassword)
  }

  /** The items of a dump other than the password one. */
  function DumpProfile(u: UserUpdate): seq<UserField> {
    (if u.id.Set? then [Id(u.id.value)] else [])
    + (if u.email.Set? then [Email(u.email.value)] else [])
    + (if u.fullName.Set? then [FullName(u.fullName.value)] else [])
  }

  lemma {:induction false} DumpSplits(u: UserUpdate)
    ensures Dump(u) == DumpProfile(u) + (if u.password.Set? then [Password(u.password.value)] else [])
    ensures forall i :: 0 <= i < |DumpProfile(u)| ==> !DumpProfile(u)[i].Password?
  {
  }

  /** Assigning the profile items sets exactly the id, email and full name. */
  lemma {:induction false} ProfileAssigned(user: User, u: UserUpdate)
    ensures Lists.Fold(user, DumpProfile(u), Assign)
         == user.(id := NewId(u, user.id), email := PatchOr(u.email, user.email),
                  fullName := PatchOr(u.fullName, user.fullName))
  {
    var a := if u.id.Set? then [Id(u.id.value)] else [];
    var b := if u.email.Set? then [Email(u.email.value)] else [];
    var c := if u.fullName.Set? then [FullName(u.fullName.value)] else [];
    Lists.FoldConcat(user, a + b, c, Assign);
    Lists.FoldConcat(user, a, b, Assign);
  }

  /** Removing the password items of a dump leaves its profile items. */
  lemma {:induction false} FilterDropsPassword(u: UserUpdate)
    ensures Lists.Filter(Dump(u), NotPassword) == DumpProfile(u)
  {
    DumpSplits(u);
    var p := if u.password.Set? then [Password(u.password.value)] else [];
    Lists.FilterConcat(DumpProfile(u), p, NotPassword);
    Lists.FilterKeepsAll(DumpProfile(u), NotPassword);
    if p != [] {
      assert p[1..] == [];
    }
  }

  /** The assignment loop over the prepared items yields the patched user;
      in particular the plain password never reaches the row. */
  lemma {:induction false} PreparedIsPatched(user: User, u: UserUpdate, hash: string -> string)
    ensures Lists.Fold(user, Prepared(u, hash), Assign) == PatchedUser(user, u, hash)
  {
    DumpSplits(u);
    ProfileAssigned(user, u);
    var profile := DumpProfile(u);
    var q := Lists.Fold(user, profile, Assign);
    if ChangesPassword(u) {
      var h := hash(u.password.value.value);
      FilterDropsPassword(u);
      assert Prepared(u, hash) == profile + [HashedPassword(h)];
      Lists.FoldConcat(user, profile, [HashedPassword(h)], Assign);
      Lists.FoldSingle(q, HashedPassword(h), Assign);
    } else if u.password.Set? {
      assert Prepared(u, hash) == profile + [Password(u.password.value)];
      Lists.FoldConcat(user, profile, [Password(u.password.value)], Assign);
      Lists.FoldSingle(q, Password(u.password.value), Assign);
    } else {
      assert Prepared(u, hash) == profile + [];
      assert profile + [] == profile;
    }
  }

  /** The password rule and the assignment loop of `update_user_me` on the
      target row: `None` is the 400 for a short password; otherwise the row
      the loop leaves, which is the patched user. */
  method ApplyUpdate(user: User, u: UserUpdate, hash: string -> string) returns (r: Option<User>)
    ensures r.None? <==> PasswordTooShort(u)
    ensures r.Some? ==> r.value == PatchedUser(user, u, hash)
  {
    var data := Dump(u);
    if u.password.Set? && Truthy(u.password.value) {
      var password := u.password.value.value;
      if |password| < MinPasswordLength {
        return None;
      }
      data := WithHashedPassword(data, hash(password));
    }
    assert data == Prepared(u, hash);
    var row := Lists.SetAttrs(user, data, Assign);
    PreparedIsPatched(user, u, hash);
    return Some(row);
  }
}
