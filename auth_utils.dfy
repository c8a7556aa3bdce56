/**
 * The authentication helpers: JWT claim building and checking, the
 * bcrypt password hash behind a SHA-256 pre-hash, the refresh-token
 * digest, and six-digit verification codes.
 *
 * The cryptographic library calls are not modelled; they are values of
 * `Primitives`, and `Lawful` states the contracts the helpers rely on.
 */
module AuthUtils {
  import opened Wrappers
  import opened Ids
  import opened Text
  import opened Time
  import opened Dicts

  /** A claim value: the helpers only put strings and POSIX timestamps in tokens. */
  datatype ClaimValue = Str(s: string) | Num(n: int)

  /** A JWT payload, as a dict in insertion order. */
  type Claims = seq<(string, ClaimValue)>

  /**
   * The library calls, with SECRET_KEY and JWT_ALGORITHM fixed:
   * `jwt.encode`; `jwt.decode` at a given instant (None for a JWTError; its
   * check that `sub` is a string is written out as `TextSubject`);
   * `base64.b64encode(hashlib.sha256(p.encode()).digest())`;
   * `bcrypt.hashpw` and `bcrypt.checkpw`; `hashlib.sha256(t.encode()).hexdigest()`;
   * and `str(uuid)` with its parser.
   */
  datatype Primitives = Primitives(
    encode: Claims -> string,
    decode: (string, Instant) -> Option<Claims>,
    preHash: string -> string,
    hashpw: (string, string) -> string,
    checkpw: (string, string) -> bool,
    sha256Hex: string -> string,
    showUuid: Uuid -> string,
    parseUuid: string -> Option<Uuid>)

  /** A token whose `exp` claim, if any, is a timestamp not before the current second. */
  predicate Unexpired(c: Claims, now: Instant) {
    match Get(c, "exp")
    case None => true
    case Some(v) => v.Num? && EpochSeconds(now) <= v.n
  }

  /**
   * No claim that python-jose's `jwt.decode` checks beyond `exp` and `sub`
   * when, as here, no audience and no access token are passed: `aud` (then
   * always refused), `nbf` (refused while in the future), `iat`, `jti` and
   * `at_hash`.
   */
  predicate NoLibraryClaims(c: Claims) {
    && Get(c, "aud").None? && Get(c, "nbf").None? && Get(c, "iat").None?
    && Get(c, "jti").None? && Get(c, "at_hash").None?
  }

  /** Claims whose fate under `jwt.decode` depends only on `exp` and `sub`: no other checked claim, and a numeric `exp` if any. */
  predicate PlainClaims(c: Claims) {
    NoLibraryClaims(c) && (Get(c, "exp").None? || Get(c, "exp").value.Num?)
  }

  /**
   * What the helpers rely on: a token the service signed decodes, if at
   * all, to exactly its claims; with plain claims it decodes until it
   * expires and is refused after. bcrypt accepts the password it hashed,
   * and its hashes are never empty (they are 60 characters); UUIDs print
   * as non-empty text that parses back.
   */
  ghost predicate Lawful(p: Primitives) {
    && (forall c: Claims, now: Instant ::
          p.decode(p.encode(c), now) == None || p.decode(p.encode(c), now) == Some(c))
    && (forall c: Claims, now: Instant :: PlainClaims(c) ==>
          (p.decode(p.encode(c), now).Some? <==> Unexpired(c, now)))
    && (forall pw: string, salt: string :: p.checkpw(pw, p.hashpw(pw, salt)))
    && (forall pw: string, salt: string :: p.hashpw(pw, salt) != "")
    && (forall u: Uuid :: p.showUuid(u) != "" && p.parseUuid(p.showUuid(u)) == Some(u))
  }

  /** The settings the helpers read; only ACCESS_TOKEN_EXPIRE_MINUTES is declared, with default 30. */
  datatype Settings = Settings(accessMinutes: nat, refreshDays: nat, codeMinutes: nat, postgresConfigured: bool)

  const DEFAULT_ACCESS_TOKEN_EXPIRE_MINUTES: nat := 30

  const ACCESS: string := "access"
  const REFRESH: string := "refresh"

  // ---------------------------------------------------------------------
  // Tokens
  // ---------------------------------------------------------------------

  /** `to_encode = data.copy(); to_encode.update({"exp": expire, "type": token_type})`. */
  function WithExpiry(data: Claims, expire: Instant, tokenType: string): Claims {
    Put(Put(data, "exp", Num(EpochSeconds(expire))), "type", Str(tokenType))
  }

  /**
   * The access token's expiry: `now + expires_delta` when a delta is given
   * and is not zero (a zero timedelta is falsy), else the configured minutes.
   */
  function AccessExpiry(s: Settings, now: Instant, expiresDelta: Option<nat>): Instant {
    if expiresDelta.Some? && expiresDelta.value != 0 then now + expiresDelta.value
    else now + Minutes(s.accessMinutes)
  }

  function AccessClaims(s: Settings, data: Claims, now: Instant, expiresDelta: Option<nat>): Claims {
    WithExpiry(data, AccessExpiry(s, now, expiresDelta), ACCESS)
  }

  function RefreshClaims(s: Settings, data: Claims, now: Instant): Claims {
    WithExpiry(data, now + Days(s.refreshDays), REFRESH)
  }

  function CreateAccessToken(p: Primitives, s: Settings, data: Claims, now: Instant, expiresDelta: Option<nat>): string {
    p.encode(AccessClaims(s, data, now, expiresDelta))
  }

  function CreateRefreshToken(p: Primitives, s: Settings, data: Claims, now: Instant): string {
    p.encode(RefreshClaims(s, data, now))
  }

  /**
   * The registered-claim check python-jose's `jwt.decode` runs on `sub`:
   * the claim is absent or a string; any other value raises
   * JWTClaimsError, a JWTError.
   */
  predicate TextSubject(c: Claims) {
    match Get(c, "sub")
    case None => true
    case Some(v) => v.Str?
  }

  /**
   * The payload of a token that decodes, passes the `sub` check and
   * carries the expected type, else None (every JWTError becomes None).
   */
  function VerifyToken(p: Primitives, token: string, tokenType: string, now: Instant): Option<Claims> {
    match p.decode(token, now)
    case None => None
    case Some(payload) =>
      if !TextSubject(payload) || Get(payload, "type") != Some(Str(tokenType)) then None else Some(payload)
  }

  /** The digest stored for a refresh token. */
  function HashRefreshToken(p: Primitives, token: string): string {
    p.sha256Hex(token)
  }

  /** The token claims are the caller's claims with `exp` and `type` set, and nothing else changed. */
  lemma ClaimsOfToken(data: Claims, expire: Instant, tokenType: string, k: string)
    ensures Get(WithExpiry(data, expire, tokenType), k) ==
      if k == "type" then Some(Str(tokenType))
      else if k == "exp" then Some(Num(EpochSeconds(expire)))
      else Get(data, k)
  {
    GetPut(data, "exp", Num(EpochSeconds(expire)), k);
    GetPut(Put(data, "exp", Num(EpochSeconds(expire))), "type", Str(tokenType), k);
  }

  /**
   * An access token expires `expires_delta` after issue when a non-zero delta
   * is given, else after the configured minutes; a refresh token after the
   * configured days. Every other claim is the caller's.
   */
  lemma IssuedClaims(s: Settings, data: Claims, now: Instant, expiresDelta: Option<nat>, k: string)
    ensures Get(AccessClaims(s, data, now, expiresDelta), k) ==
      if k == "type" then Some(Str(ACCESS))
      else if k == "exp" then
        Some(Num(EpochSeconds(if expiresDelta.Some? && expiresDelta.value > 0
                              then now + expiresDelta.value else now + Minutes(s.accessMinutes))))
      else Get(data, k)
    ensures Get(RefreshClaims(s, data, now), k) ==
      if k == "type" then Some(Str(REFRESH))
      else if k == "exp" then Some(Num(EpochSeconds(now + Days(s.refreshDays))))
      else Get(data, k)
  {
    ClaimsOfToken(data, AccessExpiry(s, now, expiresDelta), ACCESS, k);
    ClaimsOfToken(data, now + Days(s.refreshDays), REFRESH, k);
  }

  /** A verified payload always carries the expected type. */
  lemma VerifiedTypeMatches(p: Primitives, token: string, tokenType: string, now: Instant)
    ensures VerifyToken(p, token, tokenType, now).Some? <==>
      && p.decode(token, now).Some?
      && TextSubject(p.decode(token, now).value)
      && Get(p.decode(token, now).value, "type") == Some(Str(tokenType))
    ensures VerifyToken(p, token, tokenType, now).Some? ==>
      p.decode(token, now) == VerifyToken(p, token, tokenType, now)
  {
  }

  /** `exp` and `type` are set by the helpers, so the token's claims are plain when the caller's data has no other checked claim. */
  lemma TokenClaimsPlain(data: Claims, expire: Instant, tokenType: string)
    requires NoLibraryClaims(data)
    ensures PlainClaims(WithExpiry(data, expire, tokenType))
  {
    ClaimsOfToken(data, expire, tokenType, "exp");
    ClaimsOfToken(data, expire, tokenType, "aud");
    ClaimsOfToken(data, expire, tokenType, "nbf");
    ClaimsOfToken(data, expire, tokenType, "iat");
    ClaimsOfToken(data, expire, tokenType, "jti");
    ClaimsOfToken(data, expire, tokenType, "at_hash");
  }

  /**
   * A token the service signed verifies, as its own type, to its claims
   * exactly while unexpired, provided the caller's data carries no other
   * claim the library checks and its `sub`, if any, is a string.
   */
  lemma SignedTokenVerifies(p: Primitives, data: Claims, expire: Instant, tokenType: string, now: Instant)
    requires Lawful(p) && NoLibraryClaims(data)
    ensures VerifyToken(p, p.encode(WithExpiry(data, expire, tokenType)), tokenType, now) ==
      if EpochSeconds(now) <= EpochSeconds(expire) && TextSubject(data)
      then Some(WithExpiry(data, expire, tokenType)) else None
  {
    var c := WithExpiry(data, expire, tokenType);
    TokenClaimsPlain(data, expire, tokenType);
    ClaimsOfToken(data, expire, tokenType, "exp");
    ClaimsOfToken(data, expire, tokenType, "type");
    ClaimsOfToken(data, expire, tokenType, "sub");
    assert p.decode(p.encode(c), now).Some? <==> Unexpired(c, now);
    assert p.decode(p.encode(c), now) == None || p.decode(p.encode(c), now) == Some(c);
  }

  /** A token the service signed is never accepted as a token of another type. */
  lemma SignedTokenTypeChecked(p: Primitives, data: Claims, expire: Instant, tokenType: string,
                               expected: string, now: Instant)
    requires Lawful(p) && expected != tokenType
    ensures VerifyToken(p, p.encode(WithExpiry(data, expire, tokenType)), expected, now) == None
  {
    var c := WithExpiry(data, expire, tokenType);
    ClaimsOfToken(data, expire, tokenType, "type");
    assert p.decode(p.encode(c), now) == None || p.decode(p.encode(c), now) == Some(c);
  }

  /** A refresh token is never accepted as an access token, nor an access token as a refresh token. */
  lemma TokenTypesDisjoint(p: Primitives, s: Settings, data: Claims, now: Instant,
                           expiresDelta: Option<nat>, later: Instant)
    requires Lawful(p)
    ensures VerifyToken(p, CreateRefreshToken(p, s, data, now), ACCESS, later) == None
    ensures VerifyToken(p, CreateAccessToken(p, s, data, now, expiresDelta), REFRESH, later) == None
  {
    SignedTokenTypeChecked(p, data, now + Days(s.refreshDays), REFRESH, ACCESS, later);
    SignedTokenTypeChecked(p, data, AccessExpiry(s, now, expiresDelta), ACCESS, REFRESH, later);
  }

  // ---------------------------------------------------------------------
  // Passwords
  // ---------------------------------------------------------------------

  /** `bcrypt.hashpw(pre_hash(password), salt)`; the salt stands for `bcrypt.gensalt()`. */
  function HashPassword(p: Primitives, password: string, salt: string): string {
    p.hashpw(p.preHash(password), salt)
  }

  /** `bcrypt.checkpw(pre_hash(plain), hashed)`. */
  function VerifyPassword(p: Primitives, plain: string, hashed: string): bool {
    p.checkpw(p.preHash(plain), hashed)
  }

  /** Both sides apply the same pre-hash, so a password always verifies against its own hash. */
  lemma PasswordRoundTrip(p: Primitives, password: string, salt: string)
    requires Lawful(p)
    ensures HashPassword(p, password, salt) != ""
    ensures VerifyPassword(p, password, HashPassword(p, password, salt))
  {
    assert p.hashpw(p.preHash(password), salt) != "";
    assert p.checkpw(p.preHash(password), p.hashpw(p.preHash(password), salt));
  }

  // ---------------------------------------------------------------------
  // Verification codes
  // ---------------------------------------------------------------------

  const CODE_MIN: nat := 100000
  const CODE_MAX: nat := 999999

  /** `f"{random.randint(100000, 999999)}"`; `n` is the number randint drew. */
  function GenerateVerificationCode(n: nat): (code: string)
    requires CODE_MIN <= n <= CODE_MAX
  {
    NatToDecimal(n)
  }

  /** A generated code is six decimal digits with no leading zero, and it reads back as the number drawn. */
  lemma VerificationCodeShape(n: nat)
    requires CODE_MIN <= n <= CODE_MAX
    ensures var code := GenerateVerificationCode(n);
      |code| == 6 && IsDigits(code) && code[0] != '0' && DecimalValue(code) == n
  {
    assert Pow10(5) == CODE_MIN && Pow10(6) == CODE_MAX + 1;
    DecimalLength(n, 6);
    DecimalRoundTrip(n);
  }

  /** `now + timedelta(minutes=VERIFICATION_CODE_EXPIRE_MINUTES)`. */
  function VerificationCodeExpiry(s: Settings, now: Instant): Instant {
    now + Minutes(s.codeMinutes)
  }
}
