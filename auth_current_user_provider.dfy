/** The auth service's view of who is calling: the user id behind the current authentication. */
module AuthCurrentUser {
  import opened Base

  /** The kinds of principal the security context can hold. */
  datatype Principal =
    | UuidPrincipal(id: Uuid)
    | StringPrincipal(name: string)
    | NullPrincipal
    | OtherPrincipal(className: string)

  datatype Authentication = Authentication(authenticated: bool, principal: Principal)

  const AnonymousUser: string := "anonymousUser"

  const NoAuthenticatedUser: string := "No authenticated user"
  const AnonymousNotAllowed: string := "Anonymous user not allowed"

  function InvalidPrincipalType(p: Principal): string
  {
    "Invalid principal type: " +
    match p
    case NullPrincipal => "null"
    case UuidPrincipal(_) => "java.util.UUID"
    case StringPrincipal(_) => "java.lang.String"
    case OtherPrincipal(name) => name
  }

  /** getUserId: the failures are IllegalStateException messages. */
  function GetUserId(auth: Option<Authentication>, parse: UuidParser): (r: Result<Uuid, string>)
    ensures auth.None? || !auth.value.authenticated ==> r == Failure(NoAuthenticatedUser)
    ensures auth.Some? && auth.value.authenticated ==>
      match auth.value.principal
      case UuidPrincipal(id) => r == Success(id)
      case StringPrincipal(s) =>
        if s == AnonymousUser then r == Failure(AnonymousNotAllowed)
        else if ParsesAsUuid(parse, s) then r == Success(parse(s).value)
        else r == Failure(InvalidPrincipalType(auth.value.principal))
      case NullPrincipal => r == Failure(InvalidPrincipalType(NullPrincipal))
      case OtherPrincipal(_) => r == Failure(InvalidPrincipalType(auth.value.principal))
  {
    if auth.None? || !auth.value.authenticated then Failure(NoAuthenticatedUser)
    else
      var principal := auth.value.principal;
      if principal.UuidPrincipal? then Success(principal.id)
      else if principal == StringPrincipal(AnonymousUser) then Failure(AnonymousNotAllowed)
      else if principal.StringPrincipal? && parse(principal.name).Some? then Success(parse(principal.name).value)
      else Failure(InvalidPrincipalType(principal))
  }

  /** Only a UUID principal, or a string that is not "anonymousUser" and parses, yields an id. */
  lemma GetUserIdSucceedsExactly(auth: Option<Authentication>, parse: UuidParser)
    ensures GetUserId(auth, parse).Success? <==>
      && auth.Some? && auth.value.authenticated
      && (|| auth.value.principal.UuidPrincipal?
          || (auth.value.principal.StringPrincipal?
              && auth.value.principal.name != AnonymousUser
              && ParsesAsUuid(parse, auth.value.principal.name)))
  {
  }

  /** "anonymousUser" is refused even by a parser that would accept it. */
  lemma AnonymousAlwaysRefused(parse: UuidParser)
    ensures GetUserId(Some(Authentication(true, StringPrincipal(AnonymousUser))), parse) == Failure(AnonymousNotAllowed)
  {
  }
}
