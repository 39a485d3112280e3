/** The read-only half of the auth endpoints: `authenticate_user` and the
    401-or-token decision of `login_for_access_token`. Password checking and
    token minting belong to the security module, which is not part of this
    model: they are passed in as functions. */
module AuthQueries {
  import opened Common
  import opened UserSchema
  import Lists

  /** `settings.ACCESS_TOKEN_EXPIRE_MINUTES`: eight days. */
  const AccessTokenExpireMinutes := 60 * 24 * 8

  /** The login response body. */
  datatype Token = Token(accessToken: string, tokenType: string)

  function HasEmail(email: string): User -> bool {
    (u: User) => u.email == email
  }

  /** `authenticate_user`: the first user with the email, if the password
      verifies against that user's stored hash; `None` stands for `False`. */
  function AuthenticateUser(users: seq<User>, email: string, password: string,
                            verify: (string, string) -> bool): (r: Option<User>)
    ensures (forall i :: 0 <= i < |users| ==> users[i].email != email) ==> r.None?
    ensures r.Some? ==> r.value in users && r.value.email == email
    ensures r.Some? ==> verify(password, r.value.hashedPassword)
  {
    var found := Lists.FirstWhere(users, HasEmail(email));
    if found.None? then None
    else if !verify(password, found.value.hashedPassword) then None
    else found
  }

  /** Emails of a list of rows are pairwise distinct. */
  predicate DistinctEmails(users: seq<User>) {
    forall i, j :: 0 <= i < |users| && 0 <= j < |users| && users[i].email == users[j].email ==> i == j
  }

  /** With unique emails the outcome is decided by the one user with the
      email: that user when the password verifies, `False` otherwise. */
  lemma AuthenticateDecidedByOwner(users: seq<User>, email: string, password: string,
                                   verify: (string, string) -> bool, k: int)
    requires DistinctEmails(users)
    requires 0 <= k < |users| && users[k].email == email
    ensures AuthenticateUser(users, email, password, verify)
         == if verify(password, users[k].hashedPassword) then Some(users[k]) else None
  {
    assert HasEmail(email)(users[k]);
    var found := Lists.FirstWhere(users, HasEmail(email));
    var j :| 0 <= j < |users| && users[j] == found.value;
    assert users[j].email == users[k].email;
  }

  /** `login_for_access_token`: 401 when authentication fails, otherwise a
      bearer token for the user's email lasting eight days. */
  function Login(users: seq<User>, email: string, password: string,
                 verify: (string, string) -> bool, mint: (string, int) -> string): (r: Outcome<Token>)
    ensures r.Ok? || r.Unauthorized?
    ensures r.Unauthorized? <==> AuthenticateUser(users, email, password, verify).None?
    ensures r.Ok? ==> r.value.tokenType == "bearer" && r.value.accessToken == mint(email, AccessTokenExpireMinutes)
  {
    var user := AuthenticateUser(users, email, password, verify);
    if user.None? then Unauthorized
    else Ok(Token(mint(user.value.email, AccessTokenExpireMinutes), "bearer"))
  }

  /** A wrong password for an existing unique email is refused, and a
      right one is accepted. */
  lemma LoginIffPasswordVerifies(users: seq<User>, email: string, password: string,
                                 verify: (string, string) -> bool, mint: (string, int) -> string, k: int)
    requires DistinctEmails(users)
    requires 0 <= k < |users| && users[k].email == email
    ensures Login(users, email, password, verify, mint).Ok? <==> verify(password, users[k].hashedPassword)
  {
    AuthenticateDecidedByOwner(users, email, password, verify, k);
  }
}
