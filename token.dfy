/**
 * The token engine: issuing a signed JSON Web Token for a user's details and
 * reading it back. Signing, compact serialization and parsing belong to the
 * signing library, which is a parameter here (JwsLibrary); the shared secret
 * and the current time (milliseconds since the epoch) are parameters too.
 */
module JwtTokenUtil {
  import opened Wrappers
  import opened Identity

  /** How long an issued token is valid, in seconds: five hours. */
  const TokenValidity: nat := 5 * 60 * 60

  /** The custom claim that carries the user details. */
  const ClaimKey: string := "user"

  /** Registered claim names (sections 4.1.2, 4.1.6 and 4.1.4 of RFC 7519). */
  const SubjectClaim: string := "sub"
  const IssuedAtClaim: string := "iat"
  const ExpirationClaim: string := "exp"

  /** The JWS algorithm name of HMAC with SHA-512 (section 3.2 of RFC 7518). */
  const Hs512: string := "HS512"

  /** Why reading a token failed: the exceptions the getters can throw. */
  datatype JwtError =
    | MalformedToken            // the string is not a compact JWS
    | SignatureInvalid          // the signature does not match under the secret
    | MissingClaim(name: string) // a claim the caller dereferences is absent

  /** The protected header of a JWS; it names the signing algorithm. */
  datatype Header = Header(alg: string)

  /**
   * A claim set. `issuedAt` and `expiration` are NumericDate values, whole
   * seconds since the epoch (section 2 of RFC 7519). `custom` holds the
   * non-registered claims, already mapped back to user details.
   */
  datatype Claims = Claims(
    subject: Option<string>,
    issuedAt: Option<nat>,
    expiration: Option<nat>,
    custom: map<string, UserDetails>)

  /** A signed token before compact serialization. */
  datatype Jws = Jws(header: Header, claims: Claims, signature: seq<bv8>)

  /**
   * What the signing library provides: the MAC of header and claims under a
   * secret, compact serialization, and parsing of a compact string.
   */
  datatype JwsLibrary = JwsLibrary(
    sign: (string, Header, Claims) -> seq<bv8>,
    compact: Jws -> string,
    parse: string -> Option<Jws>)

  /** A time in milliseconds as a NumericDate: truncated to seconds. */
  function NumericDate(millis: nat): nat
  {
    millis / 1000
  }

  /** A NumericDate claim read back as a date in milliseconds. */
  function ToMillis(seconds: Option<nat>): (r: Option<nat>)
    ensures r.Some? <==> seconds.Some?
    ensures r.Some? ==> r.value == seconds.value * 1000
  {
    match seconds
    case None => None
    case Some(s) => Some(s * 1000)
  }

  /**
   * Parses and verifies a token under the secret: the claims, if the string
   * parses and its signature is the MAC of its header and claims.
   */
  function AllClaims(lib: JwsLibrary, secret: string, token: string): (r: Result<Claims, JwtError>)
    ensures r.Success? <==> (lib.parse(token).Some? &&
              lib.parse(token).value.signature == lib.sign(secret, lib.parse(token).value.header, lib.parse(token).value.claims))
    ensures r.Success? ==> r.value == lib.parse(token).value.claims
    ensures r.Failure? ==> r.error == (if lib.parse(token).None? then MalformedToken else SignatureInvalid)
  {
    match lib.parse(token)
    case None => Failure(MalformedToken)
    case Some(j) =>
      if j.signature == lib.sign(secret, j.header, j.claims) then Success(j.claims)
      else Failure(SignatureInvalid)
  }

  /** Applies a resolver to the verified claims. */
  function ClaimFromToken<T>(lib: JwsLibrary, secret: string, token: string,
                             resolver: Claims -> T): (r: Result<T, JwtError>)
    ensures AllClaims(lib, secret, token).Failure? ==> r == Failure(AllClaims(lib, secret, token).error)
    ensures AllClaims(lib, secret, token).Success? ==> r == Success(resolver(AllClaims(lib, secret, token).value))
  {
    match AllClaims(lib, secret, token)
    case Failure(e) => Failure(e)
    case Success(c) => Success(resolver(c))
  }

  /** The subject claim. */
  function UsernameFromToken(lib: JwsLibrary, secret: string, token: string): (r: Result<Option<string>, JwtError>)
    ensures r.Success? <==> AllClaims(lib, secret, token).Success?
    ensures r.Success? ==> r.value == AllClaims(lib, secret, token).value.subject
    ensures r.Failure? ==> r.error == AllClaims(lib, secret, token).error
  {
    ClaimFromToken(lib, secret, token, (c: Claims) => c.subject)
  }

  /** The expiration claim as a date in milliseconds. */
  function ExpirationDateFromToken(lib: JwsLibrary, secret: string, token: string): (r: Result<Option<nat>, JwtError>)
    ensures r.Success? <==> AllClaims(lib, secret, token).Success?
    ensures r.Success? ==> r.value.Some? == AllClaims(lib, secret, token).value.expiration.Some?
    ensures r.Success? && r.value.Some? ==> r.value.value == AllClaims(lib, secret, token).value.expiration.value * 1000
    ensures r.Failure? ==> r.error == AllClaims(lib, secret, token).error
  {
    ClaimFromToken(lib, secret, token, (c: Claims) => ToMillis(c.expiration))
  }

  /** The user details stored under the "user" claim; absent means the mapper throws. */
  function DetailsFromToken(lib: JwsLibrary, secret: string, token: string): (r: Result<UserDetails, JwtError>)
    ensures r.Success? <==> AllClaims(lib, secret, token).Success? && ClaimKey in AllClaims(lib, secret, token).value.custom
    ensures r.Success? ==> r.value == AllClaims(lib, secret, token).value.custom[ClaimKey]
    ensures r.Failure? ==> r.error == if AllClaims(lib, secret, token).Failure? then AllClaims(lib, secret, token).error
                                      else MissingClaim(ClaimKey)
  {
    match AllClaims(lib, secret, token)
    case Failure(e) => Failure(e)
    case Success(c) =>
      if ClaimKey in c.custom then Success(c.custom[ClaimKey]) else Failure(MissingClaim(ClaimKey))
  }

  /**
   * Whether the expiration date lies strictly before `now`; a token whose
   * expiration equals `now` is not expired. An absent expiration is dereferenced.
   */
  function IsTokenExpired(lib: JwsLibrary, secret: string, token: string, now: nat): (r: Result<bool, JwtError>)
    ensures r.Success? <==> exists exp :: ExpirationDateFromToken(lib, secret, token) == Success(Some(exp))
    ensures forall exp :: ExpirationDateFromToken(lib, secret, token) == Success(Some(exp)) ==>
              r == Success(exp < now)
  {
    match ExpirationDateFromToken(lib, secret, token)
    case Failure(e) => Failure(e)
    case Success(None) => Failure(MissingClaim(ExpirationClaim))
    case Success(Some(exp)) => Success(exp < now)
  }

  /**
   * Builds and signs a token: the given claims, then subject, issued-at and
   * expiration, which replace any claims of the same names.
   */
  function DoGenerateToken(lib: JwsLibrary, secret: string, claims: map<string, UserDetails>,
                           subject: Option<string>, now: nat): string
  {
    var header := Header(Hs512);
    var body := Claims(subject, Some(NumericDate(now)), Some(NumericDate(now + TokenValidity * 1000)),
                       claims - {SubjectClaim, IssuedAtClaim, ExpirationClaim});
    lib.compact(Jws(header, body, lib.sign(secret, header, body)))
  }

  /** Issues a token for the details: subject = username, "user" = the details. */
  function GenerateToken(lib: JwsLibrary, secret: string, d: UserDetails, now: nat): (r: string)
    ensures r == lib.compact(Jws(Header(Hs512), IssuedClaims(d, now), lib.sign(secret, Header(Hs512), IssuedClaims(d, now))))
  {
    var claims := map[ClaimKey := d];
    assert claims - {SubjectClaim, IssuedAtClaim, ExpirationClaim} == claims;
    ExpirationNumericDate(now);
    DoGenerateToken(lib, secret, map[ClaimKey := d], d.username, now)
  }

  /**
   * The subject must equal the details' username and the token must not be
   * expired. The expiry is consulted only when the names agree; an absent
   * subject is dereferenced.
   */
  function ValidateToken(lib: JwsLibrary, secret: string, token: string, d: UserDetails, now: nat): (r: Result<bool, JwtError>)
    ensures AllClaims(lib, secret, token).Failure? ==> r == Failure(AllClaims(lib, secret, token).error)
    ensures AllClaims(lib, secret, token).Success? ==>
              var c := AllClaims(lib, secret, token).value;
              r == if c.subject.None? then Failure(MissingClaim(SubjectClaim))
                   else if c.subject != d.username then Success(false)
                   else if c.expiration.None? then Failure(MissingClaim(ExpirationClaim))
                   else Success(now <= c.expiration.value * 1000)
  {
    match UsernameFromToken(lib, secret, token)
    case Failure(e) => Failure(e)
    case Success(None) => Failure(MissingClaim(SubjectClaim))
    case Success(Some(name)) =>
      if Some(name) != d.username then Success(false)
      else
        match IsTokenExpired(lib, secret, token, now)
        case Failure(e) => Failure(e)
        case Success(expired) => Success(!expired)
  }

  /** The claim set an issued token carries. */
  function IssuedClaims(d: UserDetails, now: nat): Claims
  {
    Claims(d.username, Some(NumericDate(now)), Some(NumericDate(now) + TokenValidity), map[ClaimKey := d])
  }

  // ---------------------------------------------------------------------------
  // Issuance

  /** The validity window is 18000 seconds, i.e. 18,000,000 milliseconds. */
  lemma ValidityIsFiveHours()
    ensures TokenValidity == 18000 && TokenValidity * 1000 == 18_000_000
  {
  }

  /** An expiration of now + 5 h, truncated to seconds, is exactly 18000 s after the issued-at. */
  lemma ExpirationNumericDate(now: nat)
    ensures NumericDate(now + TokenValidity * 1000) == NumericDate(now) + TokenValidity
    ensures now + TokenValidity * 1000 < (NumericDate(now) + TokenValidity) * 1000 + 1000
    ensures (NumericDate(now) + TokenValidity) * 1000 <= now + TokenValidity * 1000
  {
    var q, r := now / 1000, now % 1000;
    assert now == q * 1000 + r;
    assert now + TokenValidity * 1000 == (q + TokenValidity) * 1000 + r;
  }

  /**
   * An issued token parses under the same secret into an HS512 header and
   * the claims subject = username, "user" = d, iat = now and exp = now + 5 h.
   */
  /**
   * What any generated token carries: an HS512 header, a signature that
   * verifies under the same secret, the given subject, issue and expiry
   * NumericDates five hours apart, and every caller claim except the three
   * registered names the builder sets afterwards.
   */
  lemma GeneratedTokenClaims(lib: JwsLibrary, secret: string, claims: map<string, UserDetails>,
                             subject: Option<string>, now: nat)
    requires forall j :: lib.parse(lib.compact(j)) == Some(j)
    ensures lib.parse(DoGenerateToken(lib, secret, claims, subject, now)).Some?
    ensures lib.parse(DoGenerateToken(lib, secret, claims, subject, now)).value.header.alg == Hs512
    ensures AllClaims(lib, secret, DoGenerateToken(lib, secret, claims, subject, now)).Success?
    ensures var c := AllClaims(lib, secret, DoGenerateToken(lib, secret, claims, subject, now)).value;
      && c.subject == subject
      && c.issuedAt == Some(NumericDate(now))
      && c.expiration == Some(NumericDate(now) + TokenValidity)
      && (forall k :: k in c.custom <==> k in claims && k !in {SubjectClaim, IssuedAtClaim, ExpirationClaim})
      && (forall k :: k in c.custom ==> c.custom[k] == claims[k])
  {
    ExpirationNumericDate(now);
  }

  lemma IssuedToken(lib: JwsLibrary, secret: string, d: UserDetails, now: nat)
    requires forall j :: lib.parse(lib.compact(j)) == Some(j)
    ensures lib.parse(GenerateToken(lib, secret, d, now)).Some?
    ensures lib.parse(GenerateToken(lib, secret, d, now)).value.header.alg == Hs512
    ensures AllClaims(lib, secret, GenerateToken(lib, secret, d, now)) == Success(IssuedClaims(d, now))
  {
    var claims := map[ClaimKey := d];
    var custom := claims - {SubjectClaim, IssuedAtClaim, ExpirationClaim};
    assert custom == claims;
    ExpirationNumericDate(now);
  }

  /** Round trip: the username read from an issued token is the details' username. */
  lemma UsernameRoundTrip(lib: JwsLibrary, secret: string, d: UserDetails, now: nat)
    requires forall j :: lib.parse(lib.compact(j)) == Some(j)
    ensures UsernameFromToken(lib, secret, GenerateToken(lib, secret, d, now)) == Success(d.username)
  {
    IssuedToken(lib, secret, d, now);
  }

  /** Round trip: the details read from an issued token are the details it was issued for. */
  lemma DetailsRoundTrip(lib: JwsLibrary, secret: string, d: UserDetails, now: nat)
    requires forall j :: lib.parse(lib.compact(j)) == Some(j)
    ensures DetailsFromToken(lib, secret, GenerateToken(lib, secret, d, now)) == Success(d)
  {
    IssuedToken(lib, secret, d, now);
  }

  /**
   * The expiration read from an issued token is 18,000,000 ms after its
   * issued-at, and lies within the last second before now + 5 h.
   */
  lemma IssuedExpiration(lib: JwsLibrary, secret: string, d: UserDetails, now: nat)
    requires forall j :: lib.parse(lib.compact(j)) == Some(j)
    ensures ExpirationDateFromToken(lib, secret, GenerateToken(lib, secret, d, now))
            == Success(Some(NumericDate(now) * 1000 + TokenValidity * 1000))
    ensures now + TokenValidity * 1000 < NumericDate(now) * 1000 + TokenValidity * 1000 + 1000
    ensures NumericDate(now) * 1000 + TokenValidity * 1000 <= now + TokenValidity * 1000
  {
    IssuedToken(lib, secret, d, now);
    ExpirationNumericDate(now);
  }

  // ---------------------------------------------------------------------------
  // Rejection

  /** A token the parser rejects makes every getter and the validation fail with that error. */
  lemma RejectedTokenFailsEverywhere(lib: JwsLibrary, secret: string, token: string, d: UserDetails, now: nat)
    requires AllClaims(lib, secret, token).Failure?
    ensures var e := AllClaims(lib, secret, token).error;
      && UsernameFromToken(lib, secret, token) == Failure(e)
      && ExpirationDateFromToken(lib, secret, token) == Failure(e)
      && DetailsFromToken(lib, secret, token) == Failure(e)
      && IsTokenExpired(lib, secret, token, now) == Failure(e)
      && ValidateToken(lib, secret, token, d, now) == Failure(e)
  {
  }

  /** A token whose signature is not the MAC of its contents under the secret is rejected. */
  lemma TamperedSignatureRejected(lib: JwsLibrary, secret: string, j: Jws)
    requires forall j :: lib.parse(lib.compact(j)) == Some(j)
    requires j.signature != lib.sign(secret, j.header, j.claims)
    ensures AllClaims(lib, secret, lib.compact(j)) == Failure(SignatureInvalid)
  {
  }

  /** A token issued under one secret is rejected under another whose MAC differs. */
  lemma OtherSecretRejected(lib: JwsLibrary, secret: string, other: string, d: UserDetails, now: nat)
    requires forall j :: lib.parse(lib.compact(j)) == Some(j)
    requires lib.sign(other, Header(Hs512), IssuedClaims(d, now)) != lib.sign(secret, Header(Hs512), IssuedClaims(d, now))
    ensures AllClaims(lib, other, GenerateToken(lib, secret, d, now)) == Failure(SignatureInvalid)
  {
    IssuedToken(lib, secret, d, now);
  }

  // ---------------------------------------------------------------------------
  // Expiry and validation

  /** Expiry is strict: a token expiring exactly at `now` is not expired; one ms later it is. */
  lemma ExpiryBoundary(lib: JwsLibrary, secret: string, token: string, exp: nat)
    requires ExpirationDateFromToken(lib, secret, token) == Success(Some(exp))
    ensures IsTokenExpired(lib, secret, token, exp) == Success(false)
    ensures IsTokenExpired(lib, secret, token, exp + 1) == Success(true)
  {
  }

  /**
   * For a token that parses into claims c, validation succeeds exactly when
   * the subject is present and equals the username and the expiration is
   * present and not before `now`.
   */
  lemma ValidateIff(lib: JwsLibrary, secret: string, token: string, c: Claims, d: UserDetails, now: nat)
    requires AllClaims(lib, secret, token) == Success(c)
    ensures ValidateToken(lib, secret, token, d, now) == Success(true)
            <==> c.subject.Some? && c.subject == d.username && c.expiration.Some? && now <= c.expiration.value * 1000
  {
  }

  /** A subject other than the username gives false at every time, whatever the expiration. */
  lemma OtherUserNeverValid(lib: JwsLibrary, secret: string, token: string, c: Claims, d: UserDetails, now: nat)
    requires AllClaims(lib, secret, token) == Success(c)
    requires c.subject.Some? && c.subject != d.username
    ensures ValidateToken(lib, secret, token, d, now) == Success(false)
  {
  }

  /**
   * A token issued for d at `issued` validates against d at every time up to
   * its expiration, the issued-at second plus 18000 s.
   */
  lemma IssuedTokenValidates(lib: JwsLibrary, secret: string, d: UserDetails, issued: nat, now: nat)
    requires forall j :: lib.parse(lib.compact(j)) == Some(j)
    requires d.username.Some?
    requires now <= (NumericDate(issued) + TokenValidity) * 1000
    ensures ValidateToken(lib, secret, GenerateToken(lib, secret, d, issued), d, now) == Success(true)
  {
    IssuedToken(lib, secret, d, issued);
    ValidateIff(lib, secret, GenerateToken(lib, secret, d, issued), IssuedClaims(d, issued), d, now);
  }

  /** In particular a freshly issued token validates at its issue time. */
  lemma IssuedTokenValidAtIssue(lib: JwsLibrary, secret: string, d: UserDetails, now: nat)
    requires forall j :: lib.parse(lib.compact(j)) == Some(j)
    requires d.username.Some?
    ensures ValidateToken(lib, secret, GenerateToken(lib, secret, d, now), d, now) == Success(true)
  {
    ExpirationNumericDate(now);
    IssuedTokenValidates(lib, secret, d, now, now);
  }

  /** Once `now` is past the issued-at second plus 18000 s, the issued token no longer validates. */
  lemma IssuedTokenExpires(lib: JwsLibrary, secret: string, d: UserDetails, issued: nat, now: nat)
    requires forall j :: lib.parse(lib.compact(j)) == Some(j)
    requires d.username.Some?
    requires now > (NumericDate(issued) + TokenValidity) * 1000
    ensures ValidateToken(lib, secret, GenerateToken(lib, secret, d, issued), d, now) == Success(false)
  {
    IssuedToken(lib, secret, d, issued);
  }

  /**
   * Because the claims hold whole seconds, a token issued at 1500 ms no
   * longer validates at 1500 ms + 18,000,000 ms.
   */
  lemma SubSecondIssueShortensWindow(lib: JwsLibrary, secret: string, d: UserDetails)
    requires forall j :: lib.parse(lib.compact(j)) == Some(j)
    requires d.username.Some?
    ensures ValidateToken(lib, secret, GenerateToken(lib, secret, d, 1500), d, 1500 + TokenValidity * 1000) == Success(false)
  {
    IssuedTokenExpires(lib, secret, d, 1500, 1500 + TokenValidity * 1000);
  }

  /** Details without a username give a token without a subject, which never validates. */
  lemma NullUsernameNeverValidates(lib: JwsLibrary, secret: string, d: UserDetails, other: UserDetails, issued: nat, now: nat)
    requires forall j :: lib.parse(lib.compact(j)) == Some(j)
    requires d.username.None?
    ensures ValidateToken(lib, secret, GenerateToken(lib, secret, d, issued), other, now) == Failure(MissingClaim(SubjectClaim))
  {
    IssuedToken(lib, secret, d, issued);
  }
}
