/**
 * The auth endpoints as operations on three tables: users, refresh-token
 * records and verification codes. Each handler is a method of `AuthDb`
 * that updates the tables in place, proved equal to a specification
 * function that returns the response and the tables afterwards.
 *
 * A handler that fails leaves the tables unchanged: every write is made
 * in the one transaction that the handler commits at its end, and a
 * database error rolls it back.
 */
module AuthStore {
  import opened Wrappers
  import opened Ids
  import opened Time
  import opened Dicts
  import opened AuthUtils
  import opened Schemas

  datatype CodeType = EmailVerification | PasswordReset

  /** A users row; `passwordHash` is None for an account without a password. */
  datatype User = User(id: Uuid, email: string, passwordHash: Option<string>, emailVerified: bool,
                       name: string, role: string, deletedAt: Option<Instant>)

  /** An auth_refresh_tokens row. */
  datatype RefreshRecord = RefreshRecord(userId: Uuid, tokenHash: string, expiresAt: Instant,
                                         revokedAt: Option<Instant>, deletedAt: Option<Instant>)

  /** A verification_codes row. */
  datatype Code = Code(userId: Uuid, code: string, codeType: CodeType, expiresAt: Instant,
                       usedAt: Option<Instant>, deletedAt: Option<Instant>)

  datatype Tables = Tables(users: seq<User>, tokens: seq<RefreshRecord>, codes: seq<Code>)

  /** The HTTP errors the handlers raise; an uncaught database error is a ServerError. */
  datatype AuthError =
    | CredentialsNotValidated
    | EmailTaken
    | InvalidCode
    | InvalidCredentials
    | EmailNotVerified
    | InvalidRefreshToken
    | InvalidToken
    | TokenNotFound
    | UserNotFound
    | ResetUserNotFound
    | ServerError

  function StatusCode(e: AuthError): int {
    match e
    case EmailTaken | InvalidCode | ResetUserNotFound => 400
    case EmailNotVerified => 403
    case ServerError => 500
    case _ => 401
  }

  const STUDENT: string := "student"
  const REFRESH_RECORD_DAYS: nat := 7

  const REGISTERED: string := "Регистрация успешна. Проверьте email для подтверждения адреса."
  const EMAIL_VERIFIED: string := "Email успешно подтвержден"
  const RESET_CODE_SENT: string := "Если пользователь с таким email существует, код восстановления отправлен на почту."
  const PASSWORD_CHANGED: string := "Пароль успешно изменен"
  const LOGGED_OUT: string := "Выход выполнен успешно"

  // ---------------------------------------------------------------------
  // Queries
  // ---------------------------------------------------------------------

  /** The outcome of `scalar_one_or_none()`: no row, the one row, or more than one (an error). */
  datatype Selected = NoRow | OneRow(index: nat) | ManyRows

  function Select<T>(rows: seq<T>, keep: T -> bool): (r: Selected)
    ensures r.NoRow? <==> forall j :: 0 <= j < |rows| ==> !keep(rows[j])
    ensures r.OneRow? ==>
      && r.index < |rows| && keep(rows[r.index])
      && (forall j :: 0 <= j < |rows| && j != r.index ==> !keep(rows[j]))
    ensures r.ManyRows? ==> exists i, j :: 0 <= i < j < |rows| && keep(rows[i]) && keep(rows[j])
  {
    if rows == [] then NoRow
    else
      var rest := Select(rows[1..], keep);
      if keep(rows[0]) then
        if rest.NoRow? then OneRow(0)
        else
          var i :| 0 <= i < |rows| - 1 && keep(rows[1..][i]);
          assert keep(rows[i + 1]);
          ManyRows
      else
        match rest
        case NoRow => NoRow
        case OneRow(i) => assert forall j :: 1 <= j < |rows| ==> rows[j] == rows[1..][j - 1]; OneRow(i + 1)
        case ManyRows =>
          var i, j :| 0 <= i < j < |rows| - 1 && keep(rows[1..][i]) && keep(rows[1..][j]);
          assert keep(rows[i + 1]) && keep(rows[j + 1]);
          ManyRows
  }

  function UserByEmail(users: seq<User>, email: string): Selected {
    Select(users, (u: User) => u.email == email && u.deletedAt.None?)
  }

  function LiveUserById(users: seq<User>, id: Uuid): Selected {
    Select(users, (u: User) => u.id == id && u.deletedAt.None?)
  }

  /** `scalar_one()` by id, deleted or not. */
  function UserById(users: seq<User>, id: Uuid): Selected {
    Select(users, (u: User) => u.id == id)
  }

  function ResetOwner(users: seq<User>, id: Uuid, email: string): Selected {
    Select(users, (u: User) => u.id == id && u.email == email && u.deletedAt.None?)
  }

  /** A code that can still be redeemed at `now`. */
  predicate Redeemable(c: Code, code: string, codeType: CodeType, now: Instant) {
    c.code == code && c.codeType == codeType && c.usedAt.None? && c.deletedAt.None? && c.expiresAt > now
  }

  function RedeemableCode(codes: seq<Code>, code: string, codeType: CodeType, now: Instant): Selected {
    Select(codes, (c: Code) => Redeemable(c, code, codeType, now))
  }

  /** A record that can still be exchanged at `now`. */
  predicate LiveRecord(r: RefreshRecord, hash: string, now: Instant) {
    r.tokenHash == hash && r.revokedAt.None? && r.deletedAt.None? && r.expiresAt > now
  }

  function LiveRecordByHash(tokens: seq<RefreshRecord>, hash: string, now: Instant): Selected {
    Select(tokens, (r: RefreshRecord) => LiveRecord(r, hash, now))
  }

  function UnrevokedByHash(tokens: seq<RefreshRecord>, hash: string): Selected {
    Select(tokens, (r: RefreshRecord) => r.tokenHash == hash && r.revokedAt.None?)
  }

  predicate EmailInUse(users: seq<User>, email: string) {
    exists i :: 0 <= i < |users| && users[i].email == email
  }

  predicate IdInUse(users: seq<User>, id: Uuid) {
    exists i :: 0 <= i < |users| && users[i].id == id
  }

  predicate HashInUse(tokens: seq<RefreshRecord>, hash: string) {
    exists i :: 0 <= i < |tokens| && tokens[i].tokenHash == hash
  }

  /** The unique indexes: user ids and emails (deleted users included), and token hashes. */
  predicate Consistent(t: Tables) {
    && (forall i, j :: 0 <= i < j < |t.users| ==> t.users[i].id != t.users[j].id)
    && (forall i, j :: 0 <= i < j < |t.users| ==> t.users[i].email != t.users[j].email)
    && (forall i, j :: 0 <= i < j < |t.tokens| ==> t.tokens[i].tokenHash != t.tokens[j].tokenHash)
  }

  // ---------------------------------------------------------------------
  // Token payloads
  // ---------------------------------------------------------------------

  /** What the `sub` claim yields: nothing usable (falsy), a value the id column rejects, or a user id. */
  datatype Subject = NoSubject | BadSubject | SubjectId(id: Uuid)

  /**
   * `payload.get("sub")` tested with `if not user_id`, then compared with a
   * UUID column. A verified payload's `sub` is never a number (see
   * `TextSubject`); that case is answered as a missing subject.
   */
  function SubjectOf(p: Primitives, payload: Claims): Subject {
    match Get(payload, "sub")
    case None => NoSubject
    case Some(v) =>
      match v
      case Str(x) =>
        if x == "" then NoSubject
        else if p.parseUuid(x).None? then BadSubject
        else SubjectId(p.parseUuid(x).value)
      case Num(_) => NoSubject
  }

  function AccessData(p: Primitives, u: User): Claims {
    [("sub", Str(p.showUuid(u.id))), ("email", Str(u.email)), ("role", Str(u.role))]
  }

  function RefreshData(p: Primitives, u: User): Claims {
    [("sub", Str(p.showUuid(u.id)))]
  }

  /** The data the handlers sign carries no claim the library checks beyond `exp` and `sub`. */
  lemma ServiceDataPlain(p: Primitives, u: User)
    ensures NoLibraryClaims(AccessData(p, u)) && NoLibraryClaims(RefreshData(p, u))
  {
    forall k | k in ["aud", "nbf", "iat", "jti", "at_hash"]
      ensures Get(AccessData(p, u), k).None? && Get(RefreshData(p, u), k).None?
    {
      GetHasKey(AccessData(p, u), k);
      GetHasKey(RefreshData(p, u), k);
    }
  }

  function NewRecord(userId: Uuid, hash: string, now: Instant): RefreshRecord {
    RefreshRecord(userId, hash, now + Days(REFRESH_RECORD_DAYS), None, None)
  }

  function Revoke(r: RefreshRecord, now: Instant): RefreshRecord {
    r.(revokedAt := Some(now))
  }

  /** The bulk update: every unrevoked record of the user is revoked at `now`. */
  function RevokeAll(tokens: seq<RefreshRecord>, userId: Uuid, now: Instant): seq<RefreshRecord> {
    seq(|tokens|, j requires 0 <= j < |tokens| =>
      if tokens[j].userId == userId && tokens[j].revokedAt.None? then Revoke(tokens[j], now) else tokens[j])
  }

  // ---------------------------------------------------------------------
  // The handlers, as functions of the tables
  // ---------------------------------------------------------------------

  /** get_current_user: the live user an access token names. */
  function CurrentUserSpec(t: Tables, p: Primitives, token: string, now: Instant): Result<User, AuthError> {
    var payload := VerifyToken(p, token, ACCESS, now);
    if payload.None? then Failure(CredentialsNotValidated)
    else
      match SubjectOf(p, payload.value)
      case NoSubject => Failure(CredentialsNotValidated)
      case BadSubject => Failure(ServerError)
      case SubjectId(id) =>
        match LiveUserById(t.users, id)
        case NoRow => Failure(CredentialsNotValidated)
        case ManyRows => Failure(ServerError)
        case OneRow(i) => Success(t.users[i])
  }

  /** POST /register; `newId`, `salt` and `codeNumber` stand for uuid4, gensalt and randint. */
  function RegisterSpec(t: Tables, p: Primitives, s: Settings, email: string, password: string, name: string,
                        newId: Uuid, salt: string, codeNumber: nat, now: Instant)
    : (Result<string, AuthError>, Tables)
    requires CODE_MIN <= codeNumber <= CODE_MAX
  {
    if !s.postgresConfigured then (Failure(ServerError), t)
    else
      match UserByEmail(t.users, email)
      case OneRow(_) => (Failure(EmailTaken), t)
      case ManyRows => (Failure(ServerError), t)
      case NoRow =>
        if EmailInUse(t.users, email) || IdInUse(t.users, newId) then (Failure(ServerError), t)
        else
          var user := User(newId, email, Some(HashPassword(p, password, salt)), false, name, STUDENT, None);
          var code := Code(newId, GenerateVerificationCode(codeNumber), EmailVerification,
                           VerificationCodeExpiry(s, now), None, None);
          (Success(REGISTERED), t.(users := t.users + [user], codes := t.codes + [code]))
  }

  /** POST /verify-email. */
  function VerifyEmailSpec(t: Tables, code: string, now: Instant): (Result<string, AuthError>, Tables) {
    match RedeemableCode(t.codes, code, EmailVerification, now)
    case NoRow => (Failure(InvalidCode), t)
    case ManyRows => (Failure(ServerError), t)
    case OneRow(k) =>
      match UserById(t.users, t.codes[k].userId)
      case OneRow(i) =>
        (Success(EMAIL_VERIFIED),
         t.(codes := t.codes[k := t.codes[k].(usedAt := Some(now))],
            users := t.users[i := t.users[i].(emailVerified := true)]))
      case _ => (Failure(ServerError), t)
  }

  /** POST /login. */
  function LoginSpec(t: Tables, p: Primitives, s: Settings, email: string, password: string, now: Instant)
    : (Result<TokenResponse, AuthError>, Tables)
  {
    match UserByEmail(t.users, email)
    case NoRow => (Failure(InvalidCredentials), t)
    case ManyRows => (Failure(ServerError), t)
    case OneRow(i) =>
      var u := t.users[i];
      if u.passwordHash.None? || u.passwordHash.value == "" then (Failure(InvalidCredentials), t)
      else if !VerifyPassword(p, password, u.passwordHash.value) then (Failure(InvalidCredentials), t)
      else if !u.emailVerified then (Failure(EmailNotVerified), t)
      else
        var access := CreateAccessToken(p, s, AccessData(p, u), now, None);
        var refresh := CreateRefreshToken(p, s, RefreshData(p, u), now);
        var hash := HashRefreshToken(p, refresh);
        if HashInUse(t.tokens, hash) then (Failure(ServerError), t)
        else (Success(Tokens(access, refresh)), t.(tokens := t.tokens + [NewRecord(u.id, hash, now)]))
  }

  /** POST /refresh: exchanges a live refresh token for a new pair and revokes the old record. */
  function RefreshSpec(t: Tables, p: Primitives, s: Settings, token: string, now: Instant)
    : (Result<TokenResponse, AuthError>, Tables)
  {
    var payload := VerifyToken(p, token, REFRESH, now);
    if payload.None? then (Failure(InvalidRefreshToken), t)
    else
      var sub := SubjectOf(p, payload.value);
      if sub.NoSubject? then (Failure(InvalidToken), t)
      else
        match LiveRecordByHash(t.tokens, HashRefreshToken(p, token), now)
        case NoRow => (Failure(TokenNotFound), t)
        case ManyRows => (Failure(ServerError), t)
        case OneRow(k) =>
          if sub.BadSubject? then (Failure(ServerError), t)
          else
            match LiveUserById(t.users, sub.id)
            case NoRow => (Failure(UserNotFound), t)
            case ManyRows => (Failure(ServerError), t)
            case OneRow(i) =>
              var u := t.users[i];
              var access := CreateAccessToken(p, s, AccessData(p, u), now, None);
              var refresh := CreateRefreshToken(p, s, RefreshData(p, u), now);
              var hash := HashRefreshToken(p, refresh);
              if HashInUse(t.tokens, hash) then (Failure(ServerError), t)
              else
                (Success(Tokens(access, refresh)),
                 t.(tokens := t.tokens[k := Revoke(t.tokens[k], now)] + [NewRecord(u.id, hash, now)]))
  }

  /** POST /logout: revokes the unrevoked record of the token, if there is one. */
  function LogoutSpec(t: Tables, p: Primitives, token: string, now: Instant): (Result<string, AuthError>, Tables) {
    match UnrevokedByHash(t.tokens, HashRefreshToken(p, token))
    case NoRow => (Success(LOGGED_OUT), t)
    case ManyRows => (Failure(ServerError), t)
    case OneRow(k) => (Success(LOGGED_OUT), t.(tokens := t.tokens[k := Revoke(t.tokens[k], now)]))
  }

  /** POST /forgot-password. */
  function ForgotPasswordSpec(t: Tables, s: Settings, email: string, codeNumber: nat, now: Instant)
    : (Result<string, AuthError>, Tables)
    requires CODE_MIN <= codeNumber <= CODE_MAX
  {
    match UserByEmail(t.users, email)
    case NoRow => (Success(RESET_CODE_SENT), t)
    case ManyRows => (Failure(ServerError), t)
    case OneRow(i) =>
      var code := Code(t.users[i].id, GenerateVerificationCode(codeNumber), PasswordReset,
                       VerificationCodeExpiry(s, now), None, None);
      (Success(RESET_CODE_SENT), t.(codes := t.codes + [code]))
  }

  /** POST /reset-password. */
  function ResetPasswordSpec(t: Tables, p: Primitives, code: string, email: string, newPassword: string,
                             salt: string, now: Instant)
    : (Result<string, AuthError>, Tables)
  {
    match RedeemableCode(t.codes, code, PasswordReset, now)
    case NoRow => (Failure(InvalidCode), t)
    case ManyRows => (Failure(ServerError), t)
    case OneRow(k) =>
      match ResetOwner(t.users, t.codes[k].userId, email)
      case NoRow => (Failure(ResetUserNotFound), t)
      case ManyRows => (Failure(ServerError), t)
      case OneRow(i) =>
        var u := t.users[i];
        (Success(PASSWORD_CHANGED),
         Tables(t.users[i := u.(passwordHash := Some(HashPassword(p, newPassword, salt)))],
                RevokeAll(t.tokens, u.id, now),
                t.codes[k := t.codes[k].(usedAt := Some(now))]))
  }

  // ---------------------------------------------------------------------
  // The unique indexes hold after every handler
  // ---------------------------------------------------------------------

  lemma RegisterKeepsConsistent(t: Tables, p: Primitives, s: Settings, email: string, password: string,
                                name: string, newId: Uuid, salt: string, codeNumber: nat, now: Instant)
    requires CODE_MIN <= codeNumber <= CODE_MAX && Consistent(t)
    ensures Consistent(RegisterSpec(t, p, s, email, password, name, newId, salt, codeNumber, now).1)
  {
  }

  lemma RefreshKeepsConsistent(t: Tables, p: Primitives, s: Settings, token: string, now: Instant)
    requires Consistent(t)
    ensures Consistent(RefreshSpec(t, p, s, token, now).1)
  {
    var after := RefreshSpec(t, p, s, token, now).1;
    if after != t {
      var k := LiveRecordByHash(t.tokens, HashRefreshToken(p, token), now).index;
      var mid := t.tokens[k := Revoke(t.tokens[k], now)];
      assert forall j :: 0 <= j < |mid| ==> mid[j].tokenHash == t.tokens[j].tokenHash;
    }
  }

  lemma ResetKeepsConsistent(t: Tables, p: Primitives, code: string, email: string, newPassword: string,
                             salt: string, now: Instant)
    requires Consistent(t)
    ensures Consistent(ResetPasswordSpec(t, p, code, email, newPassword, salt, now).1)
  {
  }

  // ---------------------------------------------------------------------
  // The tables, updated in place
  // ---------------------------------------------------------------------

  class AuthDb {
    var users: seq<User>
    var tokens: seq<RefreshRecord>
    var codes: seq<Code>

    function State(): Tables
      reads this
    {
      Tables(users, tokens, codes)
    }

    predicate Valid()
      reads this
    {
      Consistent(State())
    }

    constructor ()
      ensures Valid() && State() == Tables([], [], [])
    {
      users, tokens, codes := [], [], [];
    }

    method GetCurrentUser(p: Primitives, token: string, now: Instant) returns (r: Result<User, AuthError>)
      ensures r == CurrentUserSpec(State(), p, token, now)
    {
      var payload := VerifyToken(p, token, ACCESS, now);
      if payload.None? {
        return Failure(CredentialsNotValidated);
      }
      var sub := SubjectOf(p, payload.value);
      if sub.NoSubject? {
        return Failure(CredentialsNotValidated);
      }
      if sub.BadSubject? {
        return Failure(ServerError);
      }
      var found := LiveUserById(users, sub.id);
      match found {
        case NoRow => r := Failure(CredentialsNotValidated);
        case ManyRows => r := Failure(ServerError);
        case OneRow(i) => r := Success(users[i]);
      }
    }

    method Register(p: Primitives, s: Settings, email: string, password: string, name: string,
                    newId: Uuid, salt: string, codeNumber: nat, now: Instant)
      returns (r: Result<string, AuthError>)
      requires Valid() && CODE_MIN <= codeNumber <= CODE_MAX
      modifies this
      ensures Valid()
      ensures (r, State()) == RegisterSpec(old(State()), p, s, email, password, name, newId, salt, codeNumber, now)
    {
      RegisterKeepsConsistent(State(), p, s, email, password, name, newId, salt, codeNumber, now);
      if !s.postgresConfigured {
        return Failure(ServerError);
      }
      var existing := UserByEmail(users, email);
      if existing.OneRow? {
        return Failure(EmailTaken);
      }
      if existing.ManyRows? {
        return Failure(ServerError);
      }
      if EmailInUse(users, email) || IdInUse(users, newId) {
        return Failure(ServerError);
      }
      var hashed := HashPassword(p, password, salt);
      users := users + [User(newId, email, Some(hashed), false, name, STUDENT, None)];
      var code := GenerateVerificationCode(codeNumber);
      codes := codes + [Code(newId, code, EmailVerification, VerificationCodeExpiry(s, now), None, None)];
      r := Success(REGISTERED);
    }

    method VerifyEmail(code: string, now: Instant) returns (r: Result<string, AuthError>)
      requires Valid()
      modifies this
      ensures Valid()
      ensures (r, State()) == VerifyEmailSpec(old(State()), code, now)
    {
      var verification := RedeemableCode(codes, code, EmailVerification, now);
      if verification.NoRow? {
        return Failure(InvalidCode);
      }
      if verification.ManyRows? {
        return Failure(ServerError);
      }
      var k := verification.index;
      var owner := UserById(users, codes[k].userId);
      if !owner.OneRow? {
        return Failure(ServerError);
      }
      codes := codes[k := codes[k].(usedAt := Some(now))];
      var i := owner.index;
      users := users[i := users[i].(emailVerified := true)];
      r := Success(EMAIL_VERIFIED);
    }

    method Login(p: Primitives, s: Settings, email: string, password: string, now: Instant)
      returns (r: Result<TokenResponse, AuthError>)
      requires Valid()
      modifies this
      ensures Valid()
      ensures (r, State()) == LoginSpec(old(State()), p, s, email, password, now)
    {
      var found := UserByEmail(users, email);
      if found.NoRow? {
        return Failure(InvalidCredentials);
      }
      if found.ManyRows? {
        return Failure(ServerError);
      }
      var user := users[found.index];
      if user.passwordHash.None? || user.passwordHash.value == "" {
        return Failure(InvalidCredentials);
      }
      if !VerifyPassword(p, password, user.passwordHash.value) {
        return Failure(InvalidCredentials);
      }
      if !user.emailVerified {
        return Failure(EmailNotVerified);
      }
      var access := CreateAccessToken(p, s, AccessData(p, user), now, None);
      var refresh := CreateRefreshToken(p, s, RefreshData(p, user), now);
      var hash := HashRefreshToken(p, refresh);
      if HashInUse(tokens, hash) {
        return Failure(ServerError);
      }
      tokens := tokens + [NewRecord(user.id, hash, now)];
      r := Success(Tokens(access, refresh));
    }

    method Refresh(p: Primitives, s: Settings, token: string, now: Instant)
      returns (r: Result<TokenResponse, AuthError>)
      requires Valid()
      modifies this
      ensures Valid()
      ensures (r, State()) == RefreshSpec(old(State()), p, s, token, now)
    {
      RefreshKeepsConsistent(State(), p, s, token, now);
      var payload := VerifyToken(p, token, REFRESH, now);
      if payload.None? {
        return Failure(InvalidRefreshToken);
      }
      var sub := SubjectOf(p, payload.value);
      if sub.NoSubject? {
        return Failure(InvalidToken);
      }
      var record := LiveRecordByHash(tokens, HashRefreshToken(p, token), now);
      if record.NoRow? {
        return Failure(TokenNotFound);
      }
      if record.ManyRows? {
        return Failure(ServerError);
      }
      if sub.BadSubject? {
        return Failure(ServerError);
      }
      var found := LiveUserById(users, sub.id);
      if found.NoRow? {
        return Failure(UserNotFound);
      }
      if found.ManyRows? {
        return Failure(ServerError);
      }
      var user := users[found.index];
      var access := CreateAccessToken(p, s, AccessData(p, user), now, None);
      var refresh := CreateRefreshToken(p, s, RefreshData(p, user), now);
      var hash := HashRefreshToken(p, refresh);
      if HashInUse(tokens, hash) {
        return Failure(ServerError);
      }
      var k := record.index;
      tokens := tokens[k := Revoke(tokens[k], now)];
      tokens := tokens + [NewRecord(user.id, hash, now)];
      r := Success(Tokens(access, refresh));
    }

    method Logout(p: Primitives, token: string, now: Instant) returns (r: Result<string, AuthError>)
      requires Valid()
      modifies this
      ensures Valid()
      ensures (r, State()) == LogoutSpec(old(State()), p, token, now)
    {
      var record := UnrevokedByHash(tokens, HashRefreshToken(p, token));
      if record.ManyRows? {
        return Failure(ServerError);
      }
      if record.OneRow? {
        var k := record.index;
        tokens := tokens[k := Revoke(tokens[k], now)];
      }
      r := Success(LOGGED_OUT);
    }

    method ForgotPassword(s: Settings, email: string, codeNumber: nat, now: Instant)
      returns (r: Result<string, AuthError>)
      requires Valid() && CODE_MIN <= codeNumber <= CODE_MAX
      modifies this
      ensures Valid()
      ensures (r, State()) == ForgotPasswordSpec(old(State()), s, email, codeNumber, now)
    {
      var found := UserByEmail(users, email);
      if found.NoRow? {
        return Success(RESET_CODE_SENT);
      }
      if found.ManyRows? {
        return Failure(ServerError);
      }
      var code := GenerateVerificationCode(codeNumber);
      codes := codes + [Code(users[found.index].id, code, PasswordReset, VerificationCodeExpiry(s, now), None, None)];
      r := Success(RESET_CODE_SENT);
    }

    method ResetPassword(p: Primitives, code: string, email: string, newPassword: string, salt: string, now: Instant)
      returns (r: Result<string, AuthError>)
      requires Valid()
      modifies this
      ensures Valid()
      ensures (r, State()) == ResetPasswordSpec(old(State()), p, code, email, newPassword, salt, now)
    {
      ResetKeepsConsistent(State(), p, code, email, newPassword, salt, now);
      var verification := RedeemableCode(codes, code, PasswordReset, now);
      if verification.NoRow? {
        return Failure(InvalidCode);
      }
      if verification.ManyRows? {
        return Failure(ServerError);
      }
      var k := verification.index;
      var owner := ResetOwner(users, codes[k].userId, email);
      if owner.NoRow? {
        return Failure(ResetUserNotFound);
      }
      if owner.ManyRows? {
        return Failure(ServerError);
      }
      var i := owner.index;
      var userId := users[i].id;
      codes := codes[k := codes[k].(usedAt := Some(now))];
      users := users[i := users[i].(passwordHash := Some(HashPassword(p, newPassword, salt)))];
      RevokeAllOf(userId, now);
      r := Success(PASSWORD_CHANGED);
    }

    /** The bulk `UPDATE ... SET revoked_at = now WHERE user_id = ... AND revoked_at IS NULL`. */
    method RevokeAllOf(userId: Uuid, now: Instant)
      modifies this
      ensures tokens == RevokeAll(old(tokens), userId, now)
      ensures users == old(users) && codes == old(codes)
    {
      ghost var before := tokens;
      for j := 0 to |tokens|
        invariant |tokens| == |before|
        invariant forall m :: 0 <= m < j ==> tokens[m] == RevokeAll(before, userId, now)[m]
        invariant forall m :: j <= m < |tokens| ==> tokens[m] == before[m]
        invariant users == old(users) && codes == old(codes)
      {
        if tokens[j].userId == userId && tokens[j].revokedAt.None? {
          tokens := tokens[j := Revoke(tokens[j], now)];
        }
      }
    }
  }
}
