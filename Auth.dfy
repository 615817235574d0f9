/**
 * AuthService: registration of a local account and password login. The
 * password encoder and the token generator are parameters of the service.
 */
module Auth {
  import opened Wrappers
  import opened Entities
  import opened Repositories
  import opened Users
  import opened Admin

  datatype AuthRequest = AuthRequest(email: string, password: string, name: Option<string>)

  datatype AuthResponse = AuthResponse(token: string, id: Id, email: string, name: Option<string>, profilePicture: Option<string>)

  datatype AuthError =
    | EmailAlreadyRegistered   // IllegalArgumentException("Email already registered")
    | UserNotFound(email: string)   // ResourceNotFoundException("User", "email", email)
    | UseProvider(provider: string) // IllegalArgumentException("Please login with " + provider)
    | NullProvider             // getAuthProvider().name() on a null provider
    | InvalidCredentials       // IllegalArgumentException("Invalid credentials")

  /** The user register saves: a LOCAL account holding the encoded password and the single role USER. */
  function NewUser(request: AuthRequest, encoded: string, now: Timestamp): (u: User)
    ensures u.email == request.email && u.name == request.name && u.password == Some(encoded)
    ensures u.authProvider == Some(AuthProvider.LOCAL) && u.roles == Some({USER})
    ensures u.createdAt == Some(now) && u.lastLoginAt.None? && u.profilePicture.None?
  {
    User(request.email, request.name, Some(encoded), None, Some(AuthProvider.LOCAL), Some({USER}), Some(now), None)
  }

  /** A freshly registered account is never an administrator. */
  lemma NewUserNotAdmin(request: AuthRequest, encoded: string, now: Timestamp)
    ensures !IsAdmin(Some(NewUser(request, encoded, now)))
  {
  }

  class AuthService {
    /** The users table. */
    var users: seq<Row<User>>
    /** PasswordEncoder.encode. */
    const encode: string -> string
    /** PasswordEncoder.matches(raw, stored), the stored password possibly null. */
    const matches: (string, Option<string>) -> bool
    /** JwtUtil.generateToken(id, email, name). */
    const generateToken: (Id, string, Option<string>) -> string

    ghost predicate Valid()
      reads this
    {
      UniqueEmails(users)
    }

    constructor(users: seq<Row<User>>, encode: string -> string, matches: (string, Option<string>) -> bool,
                generateToken: (Id, string, Option<string>) -> string)
      requires UniqueEmails(users)
      ensures this.users == users && this.encode == encode && this.matches == matches
      ensures this.generateToken == generateToken && Valid()
    {
      this.users := users;
      this.encode := encode;
      this.matches := matches;
      this.generateToken := generateToken;
    }

    /** register at time now; newId is the id the database generates for the new row. */
    method Register(request: AuthRequest, now: Timestamp, newId: Id) returns (r: Result<AuthResponse, AuthError>)
      requires Valid()
      modifies this
      ensures Valid()
      ensures r.Err? <==> old(FindByEmail(users, request.email)).Some?
      ensures r.Err? ==> r.error == EmailAlreadyRegistered && users == old(users)
      ensures r.Ok? ==> users == old(users) + [Row(newId, NewUser(request, encode(request.password), now))]
      ensures r.Ok? ==> r.value == AuthResponse(generateToken(newId, request.email, request.name), newId,
                                                request.email, request.name, None)
      ensures r.Ok? ==> FindByEmail(users, request.email) == Some(|users| - 1)
    {
      if FindByEmail(users, request.email).Some? {
        return Err(EmailAlreadyRegistered);
      }
      var user := User(request.email, None, None, None, None, None, None, None);
      user := user.(password := Some(encode(request.password)));
      user := user.(name := request.name);
      user := user.(authProvider := Some(AuthProvider.LOCAL));
      user := user.(roles := Some({USER}));
      user := user.(createdAt := Some(now));
      ghost var before := users;
      users := users + [Row(newId, user)];
      ghost var at := FindByEmail(users, request.email);
      assert users[|before|].value.email == request.email;
      assert at.Some? && at.value >= |before|;
      r := Ok(AuthResponse(generateToken(newId, user.email, user.name), newId, user.email, user.name, user.profilePicture));
    }

    /** login at time now. */
    method Login(request: AuthRequest, now: Timestamp) returns (r: Result<AuthResponse, AuthError>)
      requires Valid()
      modifies this
      ensures Valid()
      ensures |users| == |old(users)|
      ensures old(FindByEmail(users, request.email)).None? ==> r == Err(UserNotFound(request.email))
      ensures old(FindByEmail(users, request.email)).Some? ==>
                var i := old(FindByEmail(users, request.email)).value;
                var u := old(users)[i];
                && (u.value.authProvider.None? ==> r == Err(NullProvider))
                && (u.value.authProvider == Some(GOOGLE) ==> r == Err(UseProvider("GOOGLE")))
                && (u.value.authProvider == Some(AuthProvider.LOCAL) && !matches(request.password, u.value.password) ==>
                      r == Err(InvalidCredentials))
                && (r.Ok? <==> u.value.authProvider == Some(AuthProvider.LOCAL) && matches(request.password, u.value.password))
                && (r.Ok? ==> users == old(users)[i := Row(u.id, u.value.(lastLoginAt := Some(now)))]
                              && r.value == AuthResponse(generateToken(u.id, u.value.email, u.value.name), u.id,
                                                         u.value.email, u.value.name, u.value.profilePicture))
      ensures r.Err? ==> users == old(users)
    {
      var found := FindByEmail(users, request.email);
      if found.None? {
        return Err(UserNotFound(request.email));
      }
      var row := users[found.value];
      var user := row.value;
      if user.authProvider != Some(AuthProvider.LOCAL) {
        if user.authProvider.None? {
          return Err(NullProvider);
        }
        return Err(UseProvider(ProviderName(user.authProvider.value)));
      }
      if !matches(request.password, user.password) {
        return Err(InvalidCredentials);
      }
      user := user.(lastLoginAt := Some(now));
      users := users[found.value := Row(row.id, user)];
      r := Ok(AuthResponse(generateToken(row.id, user.email, user.name), row.id, user.email, user.name, user.profilePicture));
    }
  }
}
