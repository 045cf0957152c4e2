# JWT authentication: token engine and request filter

A Dafny model of a small Spring service that authenticates HTTP requests
with signed JSON Web Tokens. It has two parts.

- The token engine (`JwtTokenUtil`) issues a token for a user's details.
  The token carries the subject (the username) and a custom claim `"user"`
  (the details themselves). It also carries an issued-at time and an
  expiration five hours later. The token is signed with HS512 (section 3.2
  of RFC 7518) and written in JWS compact form (section 7.1 of RFC 7515).
  The engine reads claims back from a token and validates a token against
  a user's details.
- The request filter (`JwtRequestFilter`) takes the token from an
  `Authorization: Bearer <token>` header, or else from a `token` query
  parameter. It reads the details from the token. If the security context
  holds no authentication yet and the token validates, the filter installs
  those details as the authenticated principal. Then it hands the request
  to the rest of the filter chain.

The user details (`JwtUserDetails`) and the role wrapper
(`JWTGrantedAuthority`) are the value types both parts use.

Modelling choices:

- A Java `null` is `None` from `Option`. An exception thrown out of a call
  is a `Failure` from `Result`, with a `JwtError` that says which one.
- The signing library is a parameter, `JwsLibrary`. It gives three
  operations: the MAC of a header and a claim set under a secret, compact
  serialization, and parsing.
  - Verification recomputes the MAC and compares it with the signature.
  - Lemmas that issue a token and read it back assume one hypothesis:
    parsing returns every serialized token unchanged
    (`forall j :: lib.parse(lib.compact(j)) == Some(j)`).
  - A token can hold role objects, so this hypothesis covers the objects
    allocated when it is assumed. The client `AuthenticateAlice` therefore
    receives its role object from the caller.
  - No property of the MAC itself is assumed.
- The shared secret is a parameter `secret`. The current time is a
  parameter `now`, in milliseconds since the epoch.
- `iat` and `exp` are NumericDate values, which are whole seconds (section
  2 of RFC 7519). Issuing truncates `now` and `now + 18,000,000 ms` to
  seconds. Reading the expiration multiplies it back by 1000.
  - As a result, a token issued at `t` ms validates up to
    `(t / 1000 + 18000) * 1000` ms. That can be up to 999 ms earlier than
    `t + 18,000,000`.
  - `SubSecondIssueShortensWindow` shows this for `t = 1500`.
- The security context is a class with a mutable `authentication` field.
  The filter chain is a class that records the requests handed to it.
  `DoFilterInternal` changes both and returns an `Outcome`: either the
  chain was invoked, or an exception escaped.

The Javadoc of `doFilterInternal` (JwtRequestFilter.java:39) says that if
no valid token is found, the request proceeds as is. The code catches
nothing, and the model follows the code. Some tokens throw out of
`doFilterInternal` before the chain is invoked: one that fails to parse or
verify, one that lacks the `"user"` claim, and one that lacks the `sub` or
`exp` claim that validation dereferences. A validation that returns false
throws nothing: the context is left alone and the chain is invoked. See
"## Findings".

## Model

| member | source | states |
|---|---|---|
| `JwtTokenUtil.ValidityIsFiveHours` | src/main/java/com/jwt_authentication/jwt_authentication/util/JwtTokenUtil.java:35 | the validity window is 18000 s, i.e. 18,000,000 ms |
| `JwtTokenUtil.ExpirationNumericDate` | src/main/java/com/jwt_authentication/jwt_authentication/util/JwtTokenUtil.java:127-128 | the expiration `now + 5 h`, as whole seconds, is exactly 18000 s after the issued-at second, and `now + 18,000,000` ms lies in that expiry second, less than 1000 ms after its start |
| `JwtTokenUtil.IssuedToken` | src/main/java/com/jwt_authentication/jwt_authentication/util/JwtTokenUtil.java:108-131 | an issued token parses under the same secret into an HS512 header and the claims: subject = username, `"user"` = the details and nothing else custom, iat = `now` in seconds, exp = iat + 18000 |
| `JwtTokenUtil.UsernameRoundTrip` | src/main/java/com/jwt_authentication/jwt_authentication/util/JwtTokenUtil.java:43-45 | the username read from a token issued for `d` with the same secret is `d.username` |
| `JwtTokenUtil.DetailsRoundTrip` | src/main/java/com/jwt_authentication/jwt_authentication/util/JwtTokenUtil.java:53-56 | the details read from a token issued for `d` with the same secret are `d` |
| `JwtTokenUtil.IssuedExpiration` | src/main/java/com/jwt_authentication/jwt_authentication/util/JwtTokenUtil.java:64-66 | the expiration date read from an issued token is the issued-at date plus 18,000,000 ms, within 1000 ms below `now + 18,000,000` |
| `JwtTokenUtil.AllClaims` | src/main/java/com/jwt_authentication/jwt_authentication/util/JwtTokenUtil.java:87-89 | the claims are returned exactly when the token parses and its signature is the MAC of its header and claims under the secret; otherwise the error is MalformedToken for an unparseable token and SignatureInvalid for a bad signature |
| `JwtTokenUtil.UsernameFromToken` | src/main/java/com/jwt_authentication/jwt_authentication/util/JwtTokenUtil.java:43-45 | succeeds exactly when the claims are read, and then gives their subject; otherwise it fails with the claims error |
| `JwtTokenUtil.ExpirationDateFromToken` | src/main/java/com/jwt_authentication/jwt_authentication/util/JwtTokenUtil.java:64-66 | succeeds exactly when the claims are read, and then gives the `exp` claim in milliseconds (seconds times 1000), absent exactly when the claim is; otherwise it fails with the claims error |
| `JwtTokenUtil.DetailsFromToken` | src/main/java/com/jwt_authentication/jwt_authentication/util/JwtTokenUtil.java:53-56 | succeeds exactly when the claims are read and contain `"user"`, and then gives that claim's details; a missing `"user"` claim fails as MissingClaim, and a claims failure propagates |
| `JwtTokenUtil.GeneratedTokenClaims` | src/main/java/com/jwt_authentication/jwt_authentication/util/JwtTokenUtil.java:122-131 | a token from `doGenerateToken` parses into an HS512 header with a signature that verifies under the same secret, holds the given subject, iat = `now` in seconds and exp = iat + 18000, and keeps exactly the caller's claims other than `sub`, `iat` and `exp`, with their values |
| `JwtTokenUtil.GenerateToken` | src/main/java/com/jwt_authentication/jwt_authentication/util/JwtTokenUtil.java:108-112 | the token is the compact form of an HS512 JWS whose claims are subject = username, `"user"` = the details, iat = `now` in seconds and exp = iat + 18000, signed under the secret |
| `JwtTokenUtil.ValidateToken` | src/main/java/com/jwt_authentication/jwt_authentication/util/JwtTokenUtil.java:140-143 | a claims failure propagates; with claims read, an absent subject throws, a subject other than the username gives false without reading `exp`, an equal subject with no `exp` throws, and otherwise the result is `now <= exp` |
| `JwtTokenUtil.ClaimFromToken` | src/main/java/com/jwt_authentication/jwt_authentication/util/JwtTokenUtil.java:76-79 | a getter fails with the parser's error when parsing fails, and otherwise applies its resolver to the verified claims |
| `JwtTokenUtil.RejectedTokenFailsEverywhere` | src/main/java/com/jwt_authentication/jwt_authentication/util/JwtTokenUtil.java:43-100 | a token the parser rejects makes the username, expiration and details getters, the expiry check and the validation all fail with the parser's error |
| `JwtTokenUtil.TamperedSignatureRejected` | src/main/java/com/jwt_authentication/jwt_authentication/util/JwtTokenUtil.java:87-89 | a token whose signature is not the MAC of its header and claims under the secret is rejected as SignatureInvalid |
| `JwtTokenUtil.OtherSecretRejected` | src/main/java/com/jwt_authentication/jwt_authentication/util/JwtTokenUtil.java:87-89 | a token issued under one secret is rejected under another secret whose MAC differs |
| `JwtTokenUtil.IsTokenExpired` | src/main/java/com/jwt_authentication/jwt_authentication/util/JwtTokenUtil.java:97-100 | the result is a value exactly when an expiration is present, and then it is `expiration < now`, strictly |
| `JwtTokenUtil.ExpiryBoundary` | src/main/java/com/jwt_authentication/jwt_authentication/util/JwtTokenUtil.java:97-100 | a token whose expiration equals `now` is not expired, and one millisecond later it is |
| `JwtTokenUtil.ValidateIff` | src/main/java/com/jwt_authentication/jwt_authentication/util/JwtTokenUtil.java:140-143 | for parsed claims, validation is true exactly when the subject is present and equals the username and the expiration is present and not before `now` |
| `JwtTokenUtil.OtherUserNeverValid` | src/main/java/com/jwt_authentication/jwt_authentication/util/JwtTokenUtil.java:140-143 | a subject different from the username gives false at every time, whatever the expiration |
| `JwtTokenUtil.IssuedTokenValidates` | src/main/java/com/jwt_authentication/jwt_authentication/util/JwtTokenUtil.java:108-143 | a token issued for `d` validates against `d` at every time up to its expiration, the issued-at second plus 18000 s |
| `JwtTokenUtil.IssuedTokenValidAtIssue` | src/main/java/com/jwt_authentication/jwt_authentication/util/JwtTokenUtil.java:108-143 | a token issued for `d` at `now` validates against `d` at `now` |
| `JwtTokenUtil.IssuedTokenExpires` | src/main/java/com/jwt_authentication/jwt_authentication/util/JwtTokenUtil.java:108-143 | once the time is past the issued-at second plus 18000 s, the issued token validates false |
| `JwtTokenUtil.SubSecondIssueShortensWindow` | src/main/java/com/jwt_authentication/jwt_authentication/util/JwtTokenUtil.java:127-128 | a token issued at 1500 ms no longer validates at 1500 ms + 18,000,000 ms, because the claims hold whole seconds |
| `JwtTokenUtil.NullUsernameNeverValidates` | src/main/java/com/jwt_authentication/jwt_authentication/util/JwtTokenUtil.java:140-142 | details without a username give a token without a subject; validating it dereferences the absent subject and fails |
| `JwtRequestFilter.SelectToken` | src/main/java/com/jwt_authentication/jwt_authentication/filter/JwtRequestFilter.java:58-66 | with a header that starts with `"Bearer "`, the token is the header with that prefix removed; otherwise it is the query parameter, verbatim |
| `JwtRequestFilter.Authenticate` | src/main/java/com/jwt_authentication/jwt_authentication/filter/JwtRequestFilter.java:60-78 | a details failure propagates; a present authentication is kept; a changed result happens only for an empty context whose token yields details and validates true, and then installs those details |
| `JwtRequestFilter.Filter` | src/main/java/com/jwt_authentication/jwt_authentication/filter/JwtRequestFilter.java:54-82 | with no token the chain is invoked and the context kept; a raise leaves the context unchanged; a present authentication is never replaced; a new one is installed only into an empty context, with the chain invoked |
| `JwtRequestFilter.FilterCatching` | src/main/java/com/jwt_authentication/jwt_authentication/filter/JwtRequestFilter.java:36-40 | with exceptions caught, the chain is always invoked; a present authentication is never replaced, and a new one only fills an empty context |
| `JwtRequestFilter.DoFilterInternal` | src/main/java/com/jwt_authentication/jwt_authentication/filter/JwtRequestFilter.java:49-83 | the outcome and the new context are those of `Filter` on the old context; the chain receives the request exactly once when no exception escaped, and not at all otherwise |
| `JwtRequestFilter.Installed` | src/main/java/com/jwt_authentication/jwt_authentication/filter/JwtRequestFilter.java:75-76 | the installed authentication has principal = the details, no credentials, and the details' authorities |
| `JwtRequestFilter.BearerPrefixStripped` | src/main/java/com/jwt_authentication/jwt_authentication/filter/JwtRequestFilter.java:58-61 | the header `"Bearer " + t` yields the token `t` |
| `JwtRequestFilter.HeaderTakesPrecedence` | src/main/java/com/jwt_authentication/jwt_authentication/filter/JwtRequestFilter.java:58-66 | with a bearer header, the token is the header after its 7-character prefix, and the query parameter does not change the filter's outcome or context |
| `JwtRequestFilter.QueryParameterFallback` | src/main/java/com/jwt_authentication/jwt_authentication/filter/JwtRequestFilter.java:63-66 | when the header is absent or lacks the bearer prefix, the token is the query parameter, verbatim |
| `JwtRequestFilter.OtherSchemeFallsBack` | src/main/java/com/jwt_authentication/jwt_authentication/filter/JwtRequestFilter.java:58-66 | the headers `"Basic x"` and `"bearer x"` fall back to the query parameter; the prefix test is case-sensitive |
| `JwtRequestFilter.NoTokenPassesThrough` | src/main/java/com/jwt_authentication/jwt_authentication/filter/JwtRequestFilter.java:54-82 | with neither source present, the context is unchanged and the chain is invoked, independently of the library and the secret, so nothing is parsed |
| `JwtRequestFilter.NeverOverwrites` | src/main/java/com/jwt_authentication/jwt_authentication/filter/JwtRequestFilter.java:70-71 | an authentication already in the context is kept, whatever the request carries |
| `JwtRequestFilter.InstalledExactlyWhenValid` | src/main/java/com/jwt_authentication/jwt_authentication/filter/JwtRequestFilter.java:70-78 | the context changes exactly when it was empty, the selected token yields details, and the token validates against them; the change installs those details |
| `JwtRequestFilter.ChainUnlessRaised` | src/main/java/com/jwt_authentication/jwt_authentication/filter/JwtRequestFilter.java:62-82 | the filter raises exactly when a token was found and reading or validating it threw, and then the context is unchanged |
| `JwtRequestFilter.MalformedBearerTokenEscapes` | src/main/java/com/jwt_authentication/jwt_authentication/filter/JwtRequestFilter.java:58-62 | as written, the header `"Bearer x"` with an unparseable `x` raises MalformedToken out of the filter instead of passing the request on |
| `JwtRequestFilter.CatchingAlwaysInvokesChain` | src/main/java/com/jwt_authentication/jwt_authentication/filter/JwtRequestFilter.java:36-40 | with exceptions caught, the chain is always invoked, and the context is the as-written one, or unchanged where that raised |
| `JwtRequestFilter.CatchingMalformedBearerToken` | src/main/java/com/jwt_authentication/jwt_authentication/filter/JwtRequestFilter.java:36-40 | with exceptions caught, an unparseable bearer token leaves an empty context empty and the request goes on |
| `JwtRequestFilter.DoFilterInternalCatching` | src/main/java/com/jwt_authentication/jwt_authentication/filter/JwtRequestFilter.java:36-40 | with exceptions caught, the outcome and context are those of `FilterCatching`, and the chain always receives the request once |
| `JwtRequestFilter.IssuedBearerTokenAuthenticates` | src/main/java/com/jwt_authentication/jwt_authentication/filter/JwtRequestFilter.java:58-82 | a token issued for `d` and sent as a bearer header to an empty context installs `d` and invokes the chain, whatever the query parameter, even a valid token of another user |
| `JwtRequestFilter.TamperedBearerTokenRejected` | src/main/java/com/jwt_authentication/jwt_authentication/filter/JwtRequestFilter.java:58-82 | a token with a wrong signature never changes the context: as written it raises SignatureInvalid, and with exceptions caught the request goes on |
| `JwtRequestFilter.FilterIdempotent` | src/main/java/com/jwt_authentication/jwt_authentication/filter/JwtRequestFilter.java:70-78 | running the filter again on the same request and the context the first run left gives the same outcome and context |
| `JwtRequestFilter.AuthenticateAlice` | src/main/java/com/jwt_authentication/jwt_authentication/filter/JwtRequestFilter.java:58-82 | a token issued for "alice" with an "ADMIN" role object, sent as a bearer header to a fresh context, leaves alice as principal with no credentials and exactly that role, and the chain has received exactly the one bearer request carrying the token issued for alice |
| `JwtRequestFilter.FilterChain.DoFilter` | src/main/java/com/jwt_authentication/jwt_authentication/filter/JwtRequestFilter.java:82 | handing the request to the chain appends it to the chain's record |
| `Identity.NewUserDetails` | src/main/java/com/jwt_authentication/jwt_authentication/model/JwtUserDetails.java:28-41 | each of the nine arguments lands in the field of the same name, although `username` comes first among the arguments and second among the fields |
| `Identity.EmptyUserDetails` | src/main/java/com/jwt_authentication/jwt_authentication/model/JwtUserDetails.java:25-26 | every field is null |
| `Identity.UserDetails.Password` | src/main/java/com/jwt_authentication/jwt_authentication/model/JwtUserDetails.java:44-47 | the password is always null |
| `Identity.UserDetails.Authorities` | src/main/java/com/jwt_authentication/jwt_authentication/model/JwtUserDetails.java:49-52 | the authorities are exactly the stored collection |
| `Identity.UserDetails.IsAccountNonExpired` | src/main/java/com/jwt_authentication/jwt_authentication/model/JwtUserDetails.java:54-57 | true for every instance |
| `Identity.UserDetails.IsAccountNonLocked` | src/main/java/com/jwt_authentication/jwt_authentication/model/JwtUserDetails.java:59-62 | true for every instance |
| `Identity.UserDetails.IsCredentialsNonExpired` | src/main/java/com/jwt_authentication/jwt_authentication/model/JwtUserDetails.java:64-67 | true for every instance |
| `Identity.UserDetails.IsEnabled` | src/main/java/com/jwt_authentication/jwt_authentication/model/JwtUserDetails.java:69-72 | true for every instance |
| `Identity.GrantedAuthority.Empty` | src/main/java/com/jwt_authentication/jwt_authentication/model/JWTGrantedAuthority.java:27-28 | the default constructor leaves the authority null |
| `Identity.GrantedAuthority.constructor` | src/main/java/com/jwt_authentication/jwt_authentication/model/JWTGrantedAuthority.java:38-40 | the one-argument constructor stores the role, so reading it back gives the role |
| `Identity.GrantedAuthority.GetAuthority` | src/main/java/com/jwt_authentication/jwt_authentication/model/JWTGrantedAuthority.java:51-53 | returns the stored authority and changes no state, so repeated calls agree |
| `Identity.GrantedAuthority.SetAuthority` | src/main/java/com/jwt_authentication/jwt_authentication/model/JWTGrantedAuthority.java:60-62 | afterwards the authority is the new role, whatever it was before |

## Findings

| source | as written | input that shows it | evidently intended | confidence | as-written member | corrected member |
|---|---|---|---|---|---|---|
| src/main/java/com/jwt_authentication/jwt_authentication/filter/JwtRequestFilter.java:36-82 | `getClaimsFromToken` and `validateToken` are called with no handler. The method's own documentation says the request proceeds as is when no valid token is found, but a token that fails to parse, or lacks a claim, throws out of `doFilterInternal` before `filterChain.doFilter` runs. | `Authorization: Bearer x`, where `x` is not a compact JWS | the failure is dropped, the context is left as it was, and the chain is invoked | medium, not executed | `JwtRequestFilter.MalformedBearerTokenEscapes` | `JwtRequestFilter.CatchingAlwaysInvokesChain` |

The corrected filter is `JwtRequestFilter.DoFilterInternalCatching`. Its
specification `FilterCatching` is the same as `Filter` except on the paths
where `Filter` raises.

## Left out

- Cryptography and wire encoding: HMAC-SHA512, base64url and JSON are the
  signing library's work. They appear only as the parameter `JwsLibrary`
  and the round-trip hypothesis on its parser.
- The signing library's key handling is not modelled: it base64-decodes
  the secret string, and it picks the verification algorithm from the
  token's header. The model passes the header and the secret to the MAC
  unchanged.
- The signing library's own expiry check at parse time is not modelled. In
  the model the only expiry check is `IsTokenExpired`, so a well-signed
  expired token reaches `ValidateToken` and validates false.
- `MapperUtil.java` is not part of this model. The `"user"` claim is taken
  to hold the details value directly, so the details round trip rests on
  the parser hypothesis. In the service, the mapper builds new
  authority objects; the model hands back the same references.
- The secret is read from the `JWT_SECRET` environment variable, which is
  I/O. Here it is a parameter, and an absent (null) secret is not modelled.
- Clock reads are left out. Lines 127-128 read the clock twice; the model
  uses one `now` for both.
- Java `long` overflow of `now + 18,000,000` is not modelled: times are
  unbounded naturals. `roleId` (Long) and `timeZoneDifference` (Integer)
  are unbounded integers; the core does no arithmetic on them.
- `ClaimFromToken` takes only total resolvers; a resolver that throws is
  not modelled.
- Null elements inside the authorities collection are not modelled.
- Servlet and Spring plumbing is left out. This covers the request and
  response objects beyond the header and parameter read, the thread-local
  security context holder, and once-per-request dispatch. It also covers
  Lombok's generated setters, `equals` and `toString`, Java
  serialization, and the annotation on the static `doGenerateToken`.
