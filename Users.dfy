/** The User entity shared by the administration, authentication and request-filter code. */
module Users {
  import opened Wrappers
  import opened Entities
  import opened Repositories

  datatype Role = USER | ADMIN

  datatype AuthProvider = LOCAL | GOOGLE

  /** A users row; roles and provider are nullable columns, password is null for OAuth users. */
  datatype User = User(
    email: string,
    name: Option<string>,
    password: Option<string>,
    profilePicture: Option<string>,
    authProvider: Option<AuthProvider>,
    roles: Option<set<Role>>,
    createdAt: Option<Timestamp>,
    lastLoginAt: Option<Timestamp>)

  /** Enum.name(). */
  function RoleName(r: Role): (s: string)
    ensures s == "USER" || s == "ADMIN"
    ensures s == "ADMIN" <==> r == ADMIN
  {
    match r
    case USER => "USER"
    case ADMIN => "ADMIN"
  }

  function ProviderName(p: AuthProvider): (s: string)
    ensures s == "LOCAL" <==> p == AuthProvider.LOCAL
    ensures s == "GOOGLE" <==> p == GOOGLE
  {
    match p
    case LOCAL() => "LOCAL"
    case GOOGLE => "GOOGLE"
  }

  /** The unique constraint on users.email. */
  predicate UniqueEmails(users: seq<Row<User>>)
  {
    forall i, j :: 0 <= i < j < |users| ==> users[i].value.email != users[j].value.email
  }

  /** findByEmail / existsByEmail, as the position of the first row with that email. */
  function FindByEmail(users: seq<Row<User>>, email: string): (r: Option<nat>)
    ensures r.Some? ==> r.value < |users| && users[r.value].value.email == email
    ensures r.None? <==> forall i :: 0 <= i < |users| ==> users[i].value.email != email
  {
    if users == [] then None
    else if users[0].value.email == email then Some(0)
    else
      var r := FindByEmail(users[1..], email);
      assert forall i :: 1 <= i < |users| ==> users[i] == users[1..][i - 1];
      if r.Some? then Some(r.value + 1) else None
  }
}
