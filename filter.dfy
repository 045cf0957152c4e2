/**
 * The per-request authentication filter: find a token in the request, read
 * the user details from it, and, when the security context holds no
 * authentication yet and the token validates, install those details as the
 * authenticated principal; then hand the request to the rest of the chain.
 */
module JwtRequestFilter {
  import opened Wrappers
  import opened Identity
  import opened JwtTokenUtil

  /** The scheme prefix of a bearer credential, seven characters. */
  const BearerPrefix: string := "Bearer "

  /** What the filter reads from a request: the Authorization header and the `token` query parameter. */
  datatype Request = Request(authorization: Option<string>, tokenParameter: Option<string>)

  /** A username/password authentication: principal, credentials (null here) and authorities. */
  datatype Authentication = Authentication(
    principal: UserDetails,
    credentials: Option<string>,
    authorities: Option<seq<GrantedAuthority>>)

  /** How a filter run ends: the chain was invoked, or an exception escaped. */
  datatype Outcome = ChainInvoked | Raised(error: JwtError)

  /** The request's security context. */
  class SecurityContext {
    var authentication: Option<Authentication>

    constructor ()
      ensures authentication == None
    {
      authentication := None;
    }
  }

  /** The rest of the filter chain; it records every request handed to it. */
  class FilterChain {
    var requests: seq<Request>

    constructor ()
      ensures requests == []
    {
      requests := [];
    }

    method DoFilter(request: Request)
      modifies this
      ensures requests == old(requests) + [request]
    {
      requests := requests + [request];
    }
  }

  /** The authentication the filter installs for validated details. */
  function Installed(d: UserDetails): (a: Authentication)
    ensures a.principal == d && a.credentials.None? && a.authorities == d.Authorities()
  {
    Authentication(d, None, d.Authorities())
  }

  /**
   * Where the token comes from: an Authorization header starting with the
   * bearer prefix, stripped of it; otherwise the query parameter, verbatim.
   */
  function SelectToken(request: Request): (r: Option<string>)
    ensures request.authorization.Some? && BearerPrefix <= request.authorization.value ==>
              r.Some? && BearerPrefix + r.value == request.authorization.value
    ensures !(request.authorization.Some? && BearerPrefix <= request.authorization.value) ==>
              r == request.tokenParameter
  {
    if request.authorization.Some? && BearerPrefix <= request.authorization.value then
      Some(request.authorization.value[|BearerPrefix|..])
    else
      request.tokenParameter
  }

  /**
   * The context after reading a found token: unchanged unless it was empty
   * and the token validates against the details read from it. Exceptions
   * from reading or validating are passed up.
   */
  function Authenticate(lib: JwsLibrary, secret: string, now: nat, token: string,
                        current: Option<Authentication>): (r: Result<Option<Authentication>, JwtError>)
    ensures DetailsFromToken(lib, secret, token).Failure? ==> r == Failure(DetailsFromToken(lib, secret, token).error)
    ensures current.Some? && DetailsFromToken(lib, secret, token).Success? ==> r == Success(current)
    ensures r.Success? && r.value != current ==>
              && current.None?
              && DetailsFromToken(lib, secret, token).Success?
              && ValidateToken(lib, secret, token, DetailsFromToken(lib, secret, token).value, now) == Success(true)
              && r.value == Some(Installed(DetailsFromToken(lib, secret, token).value))
  {
    match DetailsFromToken(lib, secret, token)
    case Failure(e) => Failure(e)
    case Success(d) =>
      if current.Some? then Success(current)
      else
        match ValidateToken(lib, secret, token, d, now)
        case Failure(e) => Failure(e)
        case Success(valid) => Success(if valid then Some(Installed(d)) else current)
  }

  /** The outcome of a filter run and the context it leaves, as written (no exception is caught). */
  function Filter(lib: JwsLibrary, secret: string, now: nat, request: Request,
                  current: Option<Authentication>): (r: (Outcome, Option<Authentication>))
    ensures SelectToken(request).None? ==> r == (ChainInvoked, current)
    ensures r.0.Raised? ==> r.1 == current && SelectToken(request).Some?
    ensures current.Some? ==> r.1 == current
    ensures r.1 == current || (current.None? && r.1.Some? && r.0 == ChainInvoked)
  {
    match SelectToken(request)
    case None => (ChainInvoked, current)
    case Some(token) =>
      match Authenticate(lib, secret, now, token, current)
      case Failure(e) => (Raised(e), current)
      case Success(next) => (ChainInvoked, next)
  }

  /** The filter run with every token exception caught: the request always goes on. */
  function FilterCatching(lib: JwsLibrary, secret: string, now: nat, request: Request,
                          current: Option<Authentication>): (r: (Outcome, Option<Authentication>))
    ensures r.0 == ChainInvoked
    ensures current.Some? ==> r.1 == current
    ensures r.1 == current || (current.None? && r.1.Some?)
  {
    match SelectToken(request)
    case None => (ChainInvoked, current)
    case Some(token) =>
      match Authenticate(lib, secret, now, token, current)
      case Failure(_) => (ChainInvoked, current)
      case Success(next) => (ChainInvoked, next)
  }

  /**
   * One run of the filter on a request, as written: the token is read in the
   * header branch or the query branch, the context is written only when it
   * was empty and the token validates, and the chain is invoked at the end
   * unless an exception escaped first.
   */
  method DoFilterInternal(lib: JwsLibrary, secret: string, now: nat, request: Request,
                          context: SecurityContext, chain: FilterChain) returns (outcome: Outcome)
    modifies context, chain
    ensures (outcome, context.authentication) == Filter(lib, secret, now, request, old(context.authentication))
    ensures chain.requests == old(chain.requests) + (if outcome == ChainInvoked then [request] else [])
  {
    var token: Option<string> := None;
    var details: Option<UserDetails> := None;
    var authorization := request.authorization;
    if authorization.Some? && BearerPrefix <= authorization.value {
      token := Some(authorization.value[|BearerPrefix|..]);
      var read := DetailsFromToken(lib, secret, token.value);
      if read.Failure? {
        return Raised(read.error);
      }
      details := Some(read.value);
    } else if request.tokenParameter.Some? {
      token := request.tokenParameter;
      var read := DetailsFromToken(lib, secret, token.value);
      if read.Failure? {
        return Raised(read.error);
      }
      details := Some(read.value);
    }

    if details.Some? && context.authentication.None? {
      var valid := ValidateToken(lib, secret, token.value, details.value, now);
      if valid.Failure? {
        return Raised(valid.error);
      }
      if valid.value {
        context.authentication := Some(Installed(details.value));
      }
    }
    chain.DoFilter(request);
    outcome := ChainInvoked;
  }

  /** The filter with the token handling wrapped in a handler that drops every exception. */
  method DoFilterInternalCatching(lib: JwsLibrary, secret: string, now: nat, request: Request,
                                  context: SecurityContext, chain: FilterChain) returns (outcome: Outcome)
    modifies context, chain
    ensures (outcome, context.authentication) == FilterCatching(lib, secret, now, request, old(context.authentication))
    ensures chain.requests == old(chain.requests) + [request]
  {
    var token := SelectToken(request);
    if token.Some? {
      var next := Authenticate(lib, secret, now, token.value, context.authentication);
      if next.Success? {
        context.authentication := next.value;
      }
    }
    chain.DoFilter(request);
    outcome := ChainInvoked;
  }

  // ---------------------------------------------------------------------------
  // Token source

  /** A bearer header gives the token that follows the prefix. */
  lemma BearerPrefixStripped(token: string, parameter: Option<string>)
    ensures SelectToken(Request(Some(BearerPrefix + token), parameter)) == Some(token)
  {
    assert BearerPrefix <= BearerPrefix + token;
    assert (BearerPrefix + token)[|BearerPrefix|..] == token;
  }

  /** With a bearer header present, the query parameter does not change the filter's result. */
  lemma HeaderTakesPrecedence(lib: JwsLibrary, secret: string, now: nat, header: string,
                              p: Option<string>, q: Option<string>, current: Option<Authentication>)
    requires BearerPrefix <= header
    ensures SelectToken(Request(Some(header), p)) == Some(header[|BearerPrefix|..])
    ensures Filter(lib, secret, now, Request(Some(header), p), current)
            == Filter(lib, secret, now, Request(Some(header), q), current)
  {
  }

  /** Without a bearer header the query parameter is the token, verbatim. */
  lemma QueryParameterFallback(authorization: Option<string>, parameter: Option<string>)
    requires authorization.None? || !(BearerPrefix <= authorization.value)
    ensures SelectToken(Request(authorization, parameter)) == parameter
  {
  }

  /** A header of another scheme, such as "Basic x", falls back to the query parameter. */
  lemma OtherSchemeFallsBack(parameter: Option<string>)
    ensures SelectToken(Request(Some("Basic x"), parameter)) == parameter
    ensures SelectToken(Request(Some("bearer x"), parameter)) == parameter
  {
    assert "Basic x"[2] != BearerPrefix[2];
    assert "bearer x"[0] != BearerPrefix[0];
  }

  // ---------------------------------------------------------------------------
  // Context and chain

  /**
   * With no token in the request the context is unchanged and the chain is
   * invoked; the result depends on neither the library nor the secret, so
   * nothing was parsed.
   */
  lemma NoTokenPassesThrough(lib: JwsLibrary, other: JwsLibrary, secret: string, otherSecret: string,
                             now: nat, request: Request, current: Option<Authentication>)
    requires SelectToken(request).None?
    ensures Filter(lib, secret, now, request, current) == (ChainInvoked, current)
    ensures Filter(lib, secret, now, request, current) == Filter(other, otherSecret, now, request, current)
  {
  }

  /** An authentication already in the context is never replaced, whatever the request. */
  lemma NeverOverwrites(lib: JwsLibrary, secret: string, now: nat, request: Request, current: Option<Authentication>)
    requires current.Some?
    ensures Filter(lib, secret, now, request, current).1 == current
    ensures FilterCatching(lib, secret, now, request, current).1 == current
  {
  }

  /**
   * The context changes only by installing details read from the selected
   * token that validate against it, with null credentials and the details'
   * authorities; and when that holds on an empty context, it does change.
   */
  lemma InstalledExactlyWhenValid(lib: JwsLibrary, secret: string, now: nat, request: Request,
                                  current: Option<Authentication>)
    ensures Filter(lib, secret, now, request, current).1 != current
            <==> (&& current.None?
                  && SelectToken(request).Some?
                  && DetailsFromToken(lib, secret, SelectToken(request).value).Success?
                  && ValidateToken(lib, secret, SelectToken(request).value,
                                   DetailsFromToken(lib, secret, SelectToken(request).value).value, now) == Success(true))
    ensures Filter(lib, secret, now, request, current).1 != current ==>
              Filter(lib, secret, now, request, current)
              == (ChainInvoked, Some(Installed(DetailsFromToken(lib, secret, SelectToken(request).value).value)))
  {
  }

  /**
   * As written, an exception from reading or validating the token escapes:
   * the context is unchanged and the chain is not invoked. Otherwise the
   * chain is invoked.
   */
  lemma ChainUnlessRaised(lib: JwsLibrary, secret: string, now: nat, request: Request, current: Option<Authentication>)
    ensures Filter(lib, secret, now, request, current).0.Raised?
            <==> SelectToken(request).Some? && Authenticate(lib, secret, now, SelectToken(request).value, current).Failure?
    ensures Filter(lib, secret, now, request, current).0.Raised? ==>
              Filter(lib, secret, now, request, current).1 == current
  {
  }

  /** As written, a bearer token the parser rejects makes the filter raise instead of passing the request on. */
  lemma MalformedBearerTokenEscapes(lib: JwsLibrary, secret: string, now: nat, current: Option<Authentication>)
    requires lib.parse("x").None?
    ensures Filter(lib, secret, now, Request(Some("Bearer x"), None), current) == (Raised(MalformedToken), current)
  {
    BearerPrefixStripped("x", None);
  }

  /** With exceptions caught, every request goes on, and failures leave the context as it was. */
  lemma CatchingAlwaysInvokesChain(lib: JwsLibrary, secret: string, now: nat, request: Request,
                                   current: Option<Authentication>)
    ensures FilterCatching(lib, secret, now, request, current).0 == ChainInvoked
    ensures FilterCatching(lib, secret, now, request, current).1
            == if Filter(lib, secret, now, request, current).0.Raised? then current
               else Filter(lib, secret, now, request, current).1
  {
  }

  /** With exceptions caught, a malformed bearer token leaves the context empty and the request goes on. */
  lemma CatchingMalformedBearerToken(lib: JwsLibrary, secret: string, now: nat)
    requires lib.parse("x").None?
    ensures FilterCatching(lib, secret, now, Request(Some("Bearer x"), None), None) == (ChainInvoked, None)
  {
    BearerPrefixStripped("x", None);
  }

  /**
   * Running the filter a second time on the same request, on the context the
   * first run left, gives the same outcome and context: an installed
   * authentication is kept, anything else is recomputed identically.
   */
  lemma FilterIdempotent(lib: JwsLibrary, secret: string, now: nat, request: Request,
                         current: Option<Authentication>)
    ensures Filter(lib, secret, now, request, Filter(lib, secret, now, request, current).1)
            == Filter(lib, secret, now, request, current)
  {
  }

  // ---------------------------------------------------------------------------
  // End to end

  /**
   * A token issued for d and sent as "Bearer <token>" to a request with an
   * empty context installs d, at the issue time, whatever the query parameter.
   */
  lemma IssuedBearerTokenAuthenticates(lib: JwsLibrary, secret: string, d: UserDetails, now: nat,
                                       parameter: Option<string>)
    requires forall j :: lib.parse(lib.compact(j)) == Some(j)
    requires d.username.Some?
    ensures Filter(lib, secret, now, Request(Some(BearerPrefix + GenerateToken(lib, secret, d, now)), parameter), None)
            == (ChainInvoked, Some(Installed(d)))
  {
    var token := GenerateToken(lib, secret, d, now);
    BearerPrefixStripped(token, parameter);
    DetailsRoundTrip(lib, secret, d, now);
    IssuedTokenValidAtIssue(lib, secret, d, now);
  }

  /**
   * A tampered token, one whose signature is not the MAC of its contents,
   * never changes the context: as written it raises, with exceptions caught
   * the request goes on.
   */
  lemma TamperedBearerTokenRejected(lib: JwsLibrary, secret: string, now: nat, j: Jws,
                                    current: Option<Authentication>)
    requires forall j :: lib.parse(lib.compact(j)) == Some(j)
    requires j.signature != lib.sign(secret, j.header, j.claims)
    ensures Filter(lib, secret, now, Request(Some(BearerPrefix + lib.compact(j)), None), current)
            == (Raised(SignatureInvalid), current)
    ensures FilterCatching(lib, secret, now, Request(Some(BearerPrefix + lib.compact(j)), None), current)
            == (ChainInvoked, current)
  {
    BearerPrefixStripped(lib.compact(j), None);
    TamperedSignatureRejected(lib, secret, j);
  }

  /**
   * A client: details for "alice" holding the role object "ADMIN" get a
   * token, which is then sent as a bearer header to a fresh context. The
   * context ends up holding alice, with that role, and the chain has the
   * request.
   */
  method AuthenticateAlice(lib: JwsLibrary, secret: string, now: nat, admin: GrantedAuthority)
    returns (context: SecurityContext, chain: FilterChain)
    requires forall j :: lib.parse(lib.compact(j)) == Some(j)
    requires admin.authority == Some("ADMIN")
    ensures context.authentication.Some?
    ensures context.authentication.value.principal.username == Some("alice")
    ensures context.authentication.value.credentials.None?
    ensures context.authentication.value.authorities == Some([admin])
    ensures admin.authority == Some("ADMIN")
    ensures chain.requests == [Request(Some(BearerPrefix + GenerateToken(lib, secret,
              NewUserDetails(Some("alice"), None, None, None, None, None, None, None, Some([admin])), now)), None)]
  {
    var alice := NewUserDetails(Some("alice"), None, None, None, None, None, None, None, Some([admin]));
    var token := GenerateToken(lib, secret, alice, now);
    var request := Request(Some(BearerPrefix + token), None);
    IssuedBearerTokenAuthenticates(lib, secret, alice, now, None);
    context := new SecurityContext();
    chain := new FilterChain();
    var outcome := DoFilterInternal(lib, secret, now, request, context, chain);
  }
}
