/** The case service's request security: the bearer-token filter that authenticates a request, and the
    provider that turns the stored authentication back into the current user. */
module CaseSecurity {
  import opened Base
  import opened JavaText
  import opened Servlet

  const AuthorizationHeader: string := "Authorization"
  const BearerPrefix: string := "Bearer "
  const RolePrefix: string := "ROLE_"
  const AdminRole: string := "ADMIN"

  const TokenExpiredMessage: string := "Token expired"
  const InvalidTokenMessage: string := "Invalid token"
  const UnauthenticatedMessage: string := "Unauthenticated request"

  /** The current user as the services see it. */
  datatype CurrentUser = CurrentUser(userId: Uuid, username: string, roles: set<string>)

  /** CurrentUser.hasRole: exact membership, no prefix handling. */
  predicate HasRole(u: CurrentUser, role: string)
  {
    role in u.roles
  }

  /** CurrentUser.isAdmin */
  predicate IsAdmin(u: CurrentUser)
  {
    HasRole(u, AdminRole)
  }

  /** isAdmin is membership of the plain name ADMIN, nothing more. */
  lemma AdminIsExactMembership(u: CurrentUser)
    ensures IsAdmin(u) <==> AdminRole in u.roles
    ensures IsAdmin(u) == HasRole(u, AdminRole)
  {
  }

  /** A role set holding only the authority form "ROLE_ADMIN" is not an admin. */
  lemma PrefixedAdminIsNotAdmin(id: Uuid, name: string)
    ensures !IsAdmin(CurrentUser(id, name, {RolePrefix + AdminRole}))
    ensures IsAdmin(CurrentUser(id, name, {AdminRole}))
  {
    assert RolePrefix + AdminRole != AdminRole by {
      assert |RolePrefix + AdminRole| != |AdminRole|;
    }
  }

  /** The outcome of parsing a JWT, which the model does not reimplement. */
  datatype ParsedToken =
    | ValidToken(subject: string, userIdClaim: string, roles: seq<string>)
    | ExpiredToken
    | MalformedToken

  type JwtParser = string -> ParsedToken

  datatype Principal = UserPrincipal(userId: Uuid, username: string) | NoPrincipal | OtherPrincipal(className: string)

  /** UsernamePasswordAuthenticationToken: a principal and its granted authorities, in order. */
  datatype SpringAuthentication = SpringAuthentication(principal: Principal, authorities: seq<string>)

  /** SecurityContextHolder's context for the current request. */
  class SecurityContext {
    var authentication: Option<SpringAuthentication>

    constructor ()
      ensures authentication.None?
    {
      authentication := None;
    }
  }

  /** The token of a bearer Authorization header: what follows the seven characters "Bearer ". */
  function BearerToken(authHeader: Option<string>): (token: Option<string>)
    ensures token.Some? <==> authHeader.Some? && StartsWith(authHeader.value, BearerPrefix)
    ensures token.Some? ==> BearerPrefix + token.value == authHeader.value
  {
    if authHeader.Some? && StartsWith(authHeader.value, BearerPrefix) then
      var header := authHeader.value;
      assert header == header[..|BearerPrefix|] + header[|BearerPrefix|..];
      Some(header[|BearerPrefix|..])
    else None
  }

  /** Each role r becomes the authority "ROLE_" + r, in order. */
  function Authorities(roles: seq<string>): (a: seq<string>)
    ensures |a| == |roles|
    ensures forall i :: 0 <= i < |roles| ==> a[i] == RolePrefix + roles[i]
  {
    if roles == [] then [] else [RolePrefix + roles[0]] + Authorities(roles[1..])
  }

  lemma PrefixCancels(prefix: string, s: string)
    ensures (prefix + s)[|prefix|..] == s
    ensures StartsWith(prefix + s, prefix)
  {
    assert (prefix + s)[..|prefix|] == prefix;
  }

  /** The roles of a set of authorities: those carrying the prefix, with it removed. */
  function RolesOf(authorities: seq<string>): (roles: set<string>)
    ensures forall r :: r in roles <==> RolePrefix + r in authorities
  {
    var roles := set a | a in authorities && StartsWith(a, RolePrefix) :: a[|RolePrefix|..];
    assert forall r :: r in roles <==> RolePrefix + r in authorities by {
      forall r
        ensures r in roles <==> RolePrefix + r in authorities
      {
        PrefixCancels(RolePrefix, r);
        if r in roles {
          var a :| a in authorities && StartsWith(a, RolePrefix) && a[|RolePrefix|..] == r;
          assert a == a[..|RolePrefix|] + a[|RolePrefix|..];
        }
      }
    }
    roles
  }

  /** An authority without the prefix contributes nothing. */
  lemma UnprefixedAuthoritiesAreDropped(authorities: seq<string>, other: string)
    requires !StartsWith(other, RolePrefix)
    ensures RolesOf(authorities + [other]) == RolesOf(authorities)
  {
    forall r
      ensures r in RolesOf(authorities + [other]) <==> r in RolesOf(authorities)
    {
      PrefixCancels(RolePrefix, r);
    }
  }

  /** Round trip: the roles read back from the filter's authorities are exactly the token's roles. */
  lemma RolesRoundTrip(roles: seq<string>)
    ensures RolesOf(Authorities(roles)) == set r | r in roles
  {
    var authorities := Authorities(roles);
    forall r
      ensures r in RolesOf(authorities) <==> r in roles
    {
      if r in roles {
        var i :| 0 <= i < |roles| && roles[i] == r;
        assert authorities[i] == RolePrefix + r;
      }
      if RolePrefix + r in authorities {
        var i :| 0 <= i < |authorities| && authorities[i] == RolePrefix + r;
        PrefixCancels(RolePrefix, r);
        PrefixCancels(RolePrefix, roles[i]);
        assert roles[i] == r;
      }
    }
  }

  function UnsupportedPrincipalMessage(className: string): string
  {
    "Unsupported principal type: class " + className
  }

  /** SpringSecurityCurrentUserProvider.getCurrentUser; failures are IllegalStateException messages. */
  function GetCurrentUser(auth: Option<SpringAuthentication>): (r: Result<CurrentUser, string>)
    ensures auth.None? || auth.value.principal.NoPrincipal? ==> r == Failure(UnauthenticatedMessage)
    ensures auth.Some? && auth.value.principal.OtherPrincipal? ==>
      r == Failure(UnsupportedPrincipalMessage(auth.value.principal.className))
    ensures r.Success? ==>
      && auth.Some? && auth.value.principal.UserPrincipal?
      && r.value.userId == auth.value.principal.userId
      && r.value.username == auth.value.principal.username
      && forall role :: role in r.value.roles <==> RolePrefix + role in auth.value.authorities
  {
    if auth.None? || auth.value.principal.NoPrincipal? then Failure(UnauthenticatedMessage)
    else if auth.value.principal.OtherPrincipal? then
      Failure(UnsupportedPrincipalMessage(auth.value.principal.className))
    else
      var principal := auth.value.principal;
      Success(CurrentUser(principal.userId, principal.username, RolesOf(auth.value.authorities)))
  }

  /** What the filter does with a request. */
  datatype FilterDecision =
    | PassThrough
    | Reject(message: string)
    | Authenticate(authentication: SpringAuthentication)

  /** The filter's decision: no bearer header passes through; an expired token, a malformed one or a
      user-id claim that is not a UUID is rejected; otherwise the user is authenticated. */
  function Decide(authHeader: Option<string>, jwt: JwtParser, parse: UuidParser): (d: FilterDecision)
    ensures d.PassThrough? <==> BearerToken(authHeader).None?
    ensures d.Reject? ==> d.message in {TokenExpiredMessage, InvalidTokenMessage}
  {
    var token := BearerToken(authHeader);
    if token.None? then PassThrough
    else
      match jwt(token.value)
      case ExpiredToken => Reject(TokenExpiredMessage)
      case MalformedToken => Reject(InvalidTokenMessage)
      case ValidToken(subject, userIdClaim, roles) =>
        var userId := parse(userIdClaim);
        if userId.None? then Reject(InvalidTokenMessage)
        else Authenticate(SpringAuthentication(UserPrincipal(userId.value, subject), Authorities(roles)))
  }

  /** JwtAuthenticationFilter.doFilterInternal: a rejection writes 401 and its message and stops the
      chain; otherwise the chain continues exactly once, after the authentication is stored. */
  method DoFilterInternal(authHeader: Option<string>, jwt: JwtParser, parse: UuidParser,
                          context: SecurityContext, response: HttpResponse, chain: FilterChain)
    modifies context, response, chain
    ensures var d := Decide(authHeader, jwt, parse);
      && (d.PassThrough? ==>
            && chain.invocations == old(chain.invocations) + 1
            && context.authentication == old(context.authentication))
      && (d.Reject? ==>
            && response.status == StatusUnauthorized && response.body == old(response.body) + d.message
            && chain.invocations == old(chain.invocations)
            && context.authentication == old(context.authentication))
      && (d.Authenticate? ==>
            && chain.invocations == old(chain.invocations) + 1
            && context.authentication == Some(d.authentication))
      && (!d.Reject? ==> response.status == old(response.status) && response.body == old(response.body))
    ensures response.headers == old(response.headers)
  {
    var token := BearerToken(authHeader);
    if token.None? {
      chain.DoFilter();
      return;
    }
    var parsed := jwt(token.value);
    if parsed.ExpiredToken? {
      response.status := StatusUnauthorized;
      response.body := response.body + TokenExpiredMessage;
      return;
    }
    if parsed.MalformedToken? {
      response.status := StatusUnauthorized;
      response.body := response.body + InvalidTokenMessage;
      return;
    }
    var userId := parse(parsed.userIdClaim);
    if userId.None? {
      response.status := StatusUnauthorized;
      response.body := response.body + InvalidTokenMessage;
      return;
    }
    var authorities := Authorities(parsed.roles);
    context.authentication := Some(SpringAuthentication(UserPrincipal(userId.value, parsed.subject), authorities));
    chain.DoFilter();
  }

  /** What the filter stores, the provider reads back: the token's user id, subject and exactly its roles. */
  lemma FilterThenProviderRoundTrip(authHeader: Option<string>, jwt: JwtParser, parse: UuidParser)
    requires BearerToken(authHeader).Some?
    requires jwt(BearerToken(authHeader).value).ValidToken?
    requires ParsesAsUuid(parse, jwt(BearerToken(authHeader).value).userIdClaim)
    ensures var claims := jwt(BearerToken(authHeader).value);
      var d := Decide(authHeader, jwt, parse);
      && d.Authenticate?
      && GetCurrentUser(Some(d.authentication))
         == Success(CurrentUser(parse(claims.userIdClaim).value, claims.subject, set r | r in claims.roles))
  {
    var claims := jwt(BearerToken(authHeader).value);
    RolesRoundTrip(claims.roles);
  }

  /** A token whose claims name ADMIN among the roles yields an admin current user. */
  lemma AdminClaimMakesAdmin(authHeader: Option<string>, jwt: JwtParser, parse: UuidParser)
    requires BearerToken(authHeader).Some?
    requires jwt(BearerToken(authHeader).value).ValidToken?
    requires ParsesAsUuid(parse, jwt(BearerToken(authHeader).value).userIdClaim)
    ensures var d := Decide(authHeader, jwt, parse);
      d.Authenticate? && GetCurrentUser(Some(d.authentication)).Success?
      && (IsAdmin(GetCurrentUser(Some(d.authentication)).value) <==> AdminRole in jwt(BearerToken(authHeader).value).roles)
  {
    FilterThenProviderRoundTrip(authHeader, jwt, parse);
  }
}
