/**
 * JwtAuthFilter: a request carrying "Authorization: Bearer <token>" with a
 * valid token for a known user is authenticated with that user's roles as
 * authorities; the filter chain always continues exactly once.
 */
module JwtFilter {
  import opened Wrappers
  import opened Entities
  import opened Repositories
  import opened JavaText
  import opened Users
  import opened Admin

  const BEARER: string := "Bearer "

  /** The token of an Authorization header: what follows "Bearer ", or None when the header is missing or has another scheme. */
  function BearerToken(header: Option<string>): (r: Option<string>)
    ensures r.Some? <==> header.Some? && StartsWith(header.value, BEARER)
    ensures r.Some? ==> BEARER + r.value == header.value && |r.value| == |header.value| - 7
  {
    if header.Some? && StartsWith(header.value, BEARER) then
      var token := header.value[7..];
      assert header.value == header.value[..7] + token;
      Some(token)
    else None
  }

  /** Every token is recovered from the header built around it. */
  lemma BearerRoundTrip(token: string)
    ensures BearerToken(Some(BEARER + token)) == Some(token)
  {
    assert (BEARER + token)[..7] == BEARER;
    assert (BEARER + token)[7..] == token;
  }

  /** The granted authorities: "ROLE_" + name for each role, or only ROLE_USER when the roles are null. */
  function Authorities(roles: Option<set<Role>>): (r: set<string>)
    ensures roles.None? ==> r == {"ROLE_USER"}
    ensures roles.Some? ==> forall a :: a in r <==> exists x :: x in roles.value && a == "ROLE_" + RoleName(x)
  {
    if roles.None? then {"ROLE_USER"}
    else set x | x in roles.value :: "ROLE_" + RoleName(x)
  }

  /** The authority ROLE_ADMIN is granted exactly to the users the admin endpoints accept. */
  lemma AdminAuthority(u: User)
    ensures "ROLE_ADMIN" in Authorities(u.roles) <==> IsAdmin(Some(u))
  {
    if u.roles.Some? {
      if "ROLE_ADMIN" in Authorities(u.roles) {
        var x :| x in u.roles.value && "ROLE_ADMIN" == "ROLE_" + RoleName(x);
        assert ("ROLE_" + RoleName(x))[5..] == RoleName(x);
        assert RoleName(x) == "ADMIN";
      }
      if ADMIN in u.roles.value {
        assert "ROLE_" + RoleName(ADMIN) in Authorities(u.roles);
      }
    } else {
      assert "ROLE_ADMIN" != "ROLE_USER";
    }
  }

  /** UsernamePasswordAuthenticationToken(user, null, authorities); the request details are not modelled. */
  datatype Authentication = Authentication(principal: Row<User>, authorities: set<string>)

  /** The security context after the filter, given the one before it. */
  function AuthenticationAfter(current: Option<Authentication>, header: Option<string>, users: seq<Row<User>>,
                               isTokenValid: string -> bool, extractUserId: string -> Id): (r: Option<Authentication>)
    ensures current.Some? ==> r == current
    ensures BearerToken(header).None? ==> r == current
    ensures BearerToken(header).Some? && !isTokenValid(BearerToken(header).value) ==> r == current
    ensures BearerToken(header).Some? && FindById(users, extractUserId(BearerToken(header).value)).None? ==> r == current
    ensures current.None? && BearerToken(header).Some? && isTokenValid(BearerToken(header).value) ==>
              var id := extractUserId(BearerToken(header).value);
              FindById(users, id).Some? ==>
                r == Some(Authentication(Row(id, FindById(users, id).value), Authorities(FindById(users, id).value.roles)))
    ensures r != current ==>
              var id := extractUserId(BearerToken(header).value);
              && current.None? && isTokenValid(BearerToken(header).value)
              && FindById(users, id).Some?
              && r == Some(Authentication(Row(id, FindById(users, id).value), Authorities(FindById(users, id).value.roles)))
  {
    match BearerToken(header)
    case None => current
    case Some(token) =>
      if !isTokenValid(token) then current
      else
        var userId := extractUserId(token);
        match FindById(users, userId)
        case None => current
        case Some(user) =>
          if current.None? then Some(Authentication(Row(userId, user), Authorities(user.roles))) else current
  }

  class JwtAuthFilter {
    const users: seq<Row<User>>
    /** JwtUtil.isTokenValid. */
    const isTokenValid: string -> bool
    /** JwtUtil.extractUserId. */
    const extractUserId: string -> Id
    /** The authentication held by the SecurityContextHolder. */
    var authentication: Option<Authentication>
    /** How many times filterChain.doFilter has been called. */
    var chainCalls: nat

    constructor(users: seq<Row<User>>, isTokenValid: string -> bool, extractUserId: string -> Id)
      ensures this.users == users && this.isTokenValid == isTokenValid && this.extractUserId == extractUserId
      ensures authentication.None? && chainCalls == 0
    {
      this.users := users;
      this.isTokenValid := isTokenValid;
      this.extractUserId := extractUserId;
      authentication := None;
      chainCalls := 0;
    }

    /** doFilterInternal for a request whose Authorization header is authHeader. */
    method DoFilterInternal(authHeader: Option<string>)
      modifies this
      ensures chainCalls == old(chainCalls) + 1
      ensures authentication == AuthenticationAfter(old(authentication), authHeader, users, isTokenValid, extractUserId)
    {
      if authHeader.None? || !StartsWith(authHeader.value, BEARER) {
        chainCalls := chainCalls + 1;
        return;
      }
      var token := authHeader.value[7..];
      if !isTokenValid(token) {
        chainCalls := chainCalls + 1;
        return;
      }
      var userId := extractUserId(token);
      var user := FindById(users, userId);
      if user.Some? && authentication.None? {
        var authorities := Authorities(user.value.roles);
        authentication := Some(Authentication(Row(userId, user.value), authorities));
      }
      chainCalls := chainCalls + 1;
    }
  }
}
