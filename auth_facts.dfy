/**
 * Properties of the auth handlers: what each one changes, the errors it
 * reports, and how the handlers interact (codes redeem once, refresh
 * tokens rotate, logout and reset end sessions).
 */
module AuthFacts {
  import opened Wrappers
  import opened Ids
  import opened Time
  import opened Dicts
  import opened AuthUtils
  import opened Schemas
  import opened AuthStore

  // ---------------------------------------------------------------------
  // scalar_one_or_none on a key that is unique
  // ---------------------------------------------------------------------

  /** When exactly one live user has the email, the email query returns that user. */
  lemma UserByEmailFinds(users: seq<User>, email: string, i: nat)
    requires i < |users| && users[i].email == email && users[i].deletedAt.None?
    requires forall j :: 0 <= j < |users| && j != i ==> !(users[j].email == email && users[j].deletedAt.None?)
    ensures UserByEmail(users, email) == OneRow(i)
  {
  }

  /** With emails unique, a live user is the one the email query returns. */
  lemma LiveUserFoundByEmail(t: Tables, i: nat)
    requires Consistent(t) && i < |t.users| && t.users[i].deletedAt.None?
    ensures UserByEmail(t.users, t.users[i].email) == OneRow(i)
  {
    forall j | 0 <= j < |t.users| && j != i
      ensures t.users[j].email != t.users[i].email
    {
      if j < i {} else {}
    }
    UserByEmailFinds(t.users, t.users[i].email, i);
  }

  /** With ids unique, a live user is the one the id query returns. */
  lemma LiveUserFoundById(t: Tables, i: nat)
    requires Consistent(t) && i < |t.users| && t.users[i].deletedAt.None?
    ensures LiveUserById(t.users, t.users[i].id) == OneRow(i)
  {
    forall j | 0 <= j < |t.users| && j != i
      ensures t.users[j].id != t.users[i].id
    {
      if j < i {} else {}
    }
  }

  /** A record appended under a hash no other record carries is the one the hash query returns while it lives. */
  lemma AppendedRecordFound(tokens: seq<RefreshRecord>, r: RefreshRecord, now: Instant)
    requires !HashInUse(tokens, r.tokenHash) && LiveRecord(r, r.tokenHash, now)
    ensures LiveRecordByHash(tokens + [r], r.tokenHash, now) == OneRow(|tokens|)
  {
    var all := tokens + [r];
    forall j | 0 <= j < |tokens|
      ensures !LiveRecord(all[j], r.tokenHash, now)
    {
      assert all[j] == tokens[j];
    }
    assert all[|tokens|] == r;
  }

  /** With emails unique, the email query never finds two users. */
  lemma UserByEmailUnique(t: Tables, email: string)
    requires Consistent(t)
    ensures !UserByEmail(t.users, email).ManyRows?
  {
  }

  /** With token hashes unique, a hash query never finds two records. */
  lemma HashQueriesUnique(t: Tables, hash: string, now: Instant)
    requires Consistent(t)
    ensures !LiveRecordByHash(t.tokens, hash, now).ManyRows?
    ensures !UnrevokedByHash(t.tokens, hash).ManyRows?
  {
  }

  /** A code redeemable later was already redeemable earlier: expiry only moves codes out. */
  lemma RedeemableEarlier(c: Code, code: string, codeType: CodeType, now: Instant, later: Instant)
    requires now <= later && Redeemable(c, code, codeType, later)
    ensures Redeemable(c, code, codeType, now)
  {
  }

  /** Once the only redeemable matching code is marked used, no code matches at that time or later. */
  lemma UsedCodeExhausted(codes: seq<Code>, k: nat, code: string, codeType: CodeType, now: Instant, later: Instant)
    requires RedeemableCode(codes, code, codeType, now) == OneRow(k)
    requires now <= later
    ensures RedeemableCode(codes[k := codes[k].(usedAt := Some(now))], code, codeType, later) == NoRow
  {
    var after := codes[k := codes[k].(usedAt := Some(now))];
    forall j | 0 <= j < |after|
      ensures !Redeemable(after[j], code, codeType, later)
    {
      if j != k && Redeemable(after[j], code, codeType, later) {
        RedeemableEarlier(codes[j], code, codeType, now, later);
      }
    }
  }

  // ---------------------------------------------------------------------
  // register
  // ---------------------------------------------------------------------

  /**
   * Registration is refused with 400 exactly when a live user has the
   * email; it succeeds exactly when no user at all holds the email or the
   * new id. A success adds one unverified student and one unused
   * email-verification code for them, a six-digit code that expires after
   * the configured minutes; a failure changes nothing.
   */
  lemma RegisterOutcome(t: Tables, p: Primitives, s: Settings, email: string, password: string, name: string,
                        newId: Uuid, salt: string, codeNumber: nat, now: Instant)
    requires Consistent(t) && CODE_MIN <= codeNumber <= CODE_MAX
    ensures var (r, after) := RegisterSpec(t, p, s, email, password, name, newId, salt, codeNumber, now);
      && (r == Failure(EmailTaken) <==>
            s.postgresConfigured && exists i :: 0 <= i < |t.users| && t.users[i].email == email && t.users[i].deletedAt.None?)
      && (r.Success? <==> s.postgresConfigured && !EmailInUse(t.users, email) && !IdInUse(t.users, newId))
      && (r.Failure? ==> after == t && StatusCode(r.error) in {400, 500})
      && (r.Success? ==>
            && r.value == REGISTERED
            && after.tokens == t.tokens
            && |after.users| == |t.users| + 1 && after.users[..|t.users|] == t.users
            && after.users[|t.users|] == User(newId, email, Some(HashPassword(p, password, salt)), false, name, STUDENT, None)
            && |after.codes| == |t.codes| + 1 && after.codes[..|t.codes|] == t.codes
            && var c := after.codes[|t.codes|];
               c.userId == newId && c.codeType == EmailVerification && c.usedAt.None? && c.deletedAt.None?
               && CodeFormatOk(c.code) && c.expiresAt == now + Minutes(s.codeMinutes))
  {
    GeneratedCodesPass(codeNumber);
    var found := UserByEmail(t.users, email);
    if s.postgresConfigured && found.NoRow? && EmailInUse(t.users, email) {
      var i :| 0 <= i < |t.users| && t.users[i].email == email;
      assert t.users[i].deletedAt.Some?;
    }
  }

  /** A freshly registered account cannot log in until its email is verified, whatever the password. */
  lemma RegisteredMustVerify(t: Tables, p: Primitives, s: Settings, email: string, password: string, name: string,
                             newId: Uuid, salt: string, codeNumber: nat, now: Instant,
                             attempt: string, later: Instant)
    requires Consistent(t) && CODE_MIN <= codeNumber <= CODE_MAX && Lawful(p)
    requires RegisterSpec(t, p, s, email, password, name, newId, salt, codeNumber, now).0.Success?
    ensures var after := RegisterSpec(t, p, s, email, password, name, newId, salt, codeNumber, now).1;
      && LoginSpec(after, p, s, email, attempt, later).0.Failure?
      && (attempt == password ==> LoginSpec(after, p, s, email, attempt, later).0 == Failure(EmailNotVerified))
  {
    var after := RegisterSpec(t, p, s, email, password, name, newId, salt, codeNumber, now).1;
    RegisterOutcome(t, p, s, email, password, name, newId, salt, codeNumber, now);
    RegisterKeepsConsistent(t, p, s, email, password, name, newId, salt, codeNumber, now);
    LiveUserFoundByEmail(after, |t.users|);
    PasswordRoundTrip(p, password, salt);
  }

  // ---------------------------------------------------------------------
  // verify-email
  // ---------------------------------------------------------------------

  /**
   * A code redeems only when it is the one unused, undeleted, unexpired
   * email-verification code with that value; redemption marks it used and
   * the owner's email verified, and changes nothing else.
   */
  lemma VerifyEmailOutcome(t: Tables, code: string, now: Instant)
    requires Consistent(t)
    ensures var (r, after) := VerifyEmailSpec(t, code, now);
      && (r == Failure(InvalidCode) <==> forall k :: 0 <= k < |t.codes| ==> !Redeemable(t.codes[k], code, EmailVerification, now))
      && (r.Failure? ==> after == t)
      && (r.Success? ==>
            exists k, i ::
              && 0 <= k < |t.codes| && 0 <= i < |t.users|
              && Redeemable(t.codes[k], code, EmailVerification, now)
              && t.users[i].id == t.codes[k].userId
              && after.codes == t.codes[k := t.codes[k].(usedAt := Some(now))]
              && after.users == t.users[i := t.users[i].(emailVerified := true)]
              && after.tokens == t.tokens)
  {
    var sel := RedeemableCode(t.codes, code, EmailVerification, now);
    if sel.OneRow? {
      var owner := UserById(t.users, t.codes[sel.index].userId);
      if owner.OneRow? {
        var k, i := sel.index, owner.index;
        assert Redeemable(t.codes[k], code, EmailVerification, now);
      }
    }
  }

  /** A verification code redeems at most once: a second attempt, then or later, is refused with 400. */
  lemma RedeemAtMostOnce(t: Tables, code: string, now: Instant, later: Instant)
    requires Consistent(t) && now <= later
    requires VerifyEmailSpec(t, code, now).0.Success?
    ensures VerifyEmailSpec(VerifyEmailSpec(t, code, now).1, code, later).0 == Failure(InvalidCode)
  {
    var k := RedeemableCode(t.codes, code, EmailVerification, now).index;
    UsedCodeExhausted(t.codes, k, code, EmailVerification, now, later);
  }

  // ---------------------------------------------------------------------
  // login
  // ---------------------------------------------------------------------

  predicate LiveWithEmail(u: User, email: string) {
    u.email == email && u.deletedAt.None?
  }

  /** The stored hash is present, not empty, and bcrypt accepts the password against it. */
  predicate PasswordAccepted(p: Primitives, u: User, password: string) {
    u.passwordHash.Some? && u.passwordHash.value != "" && VerifyPassword(p, password, u.passwordHash.value)
  }

  /**
   * Login answers 401 exactly when no live user with the email has a
   * usable hash the password matches, and 403 exactly when one does but
   * has not verified the email. A success returns a bearer pair for that
   * user and stores one new record for the refresh token, keyed by its
   * digest and expiring in seven days; a failure changes nothing.
   */
  lemma LoginOutcome(t: Tables, p: Primitives, s: Settings, email: string, password: string, now: Instant)
    requires Consistent(t)
    ensures var (r, after) := LoginSpec(t, p, s, email, password, now);
      && (r == Failure(InvalidCredentials) <==>
            forall i :: 0 <= i < |t.users| && LiveWithEmail(t.users[i], email) ==> !PasswordAccepted(p, t.users[i], password))
      && (r == Failure(EmailNotVerified) <==>
            exists i :: 0 <= i < |t.users| && LiveWithEmail(t.users[i], email) && PasswordAccepted(p, t.users[i], password)
                        && !t.users[i].emailVerified)
      && (r.Failure? ==> after == t && r.error in {InvalidCredentials, EmailNotVerified, ServerError})
      && (r.Success? ==>
            exists i ::
              && 0 <= i < |t.users| && LiveWithEmail(t.users[i], email)
              && PasswordAccepted(p, t.users[i], password) && t.users[i].emailVerified
              && r.value.tokenType == BEARER
              && r.value.accessToken == CreateAccessToken(p, s, AccessData(p, t.users[i]), now, None)
              && r.value.refreshToken == CreateRefreshToken(p, s, RefreshData(p, t.users[i]), now)
              && after == t.(tokens := t.tokens + [NewRecord(t.users[i].id, HashRefreshToken(p, r.value.refreshToken), now)]))
  {
    var found := UserByEmail(t.users, email);
    if found.OneRow? {
      var i := found.index;
      assert LiveWithEmail(t.users[i], email);
    }
  }

  /**
   * The access token a login returns identifies the user until its expiry
   * second has passed, and is refused after.
   */
  lemma LoginAccessTokenWorks(t: Tables, p: Primitives, s: Settings, email: string, password: string,
                              now: Instant, later: Instant)
    requires Consistent(t) && Lawful(p)
    requires LoginSpec(t, p, s, email, password, now).0.Success?
    ensures var (r, after) := LoginSpec(t, p, s, email, password, now);
      && (EpochSeconds(later) <= EpochSeconds(now + Minutes(s.accessMinutes)) ==>
            CurrentUserSpec(after, p, r.value.accessToken, later).Success?
            && LiveWithEmail(CurrentUserSpec(after, p, r.value.accessToken, later).value, email))
      && (EpochSeconds(later) > EpochSeconds(now + Minutes(s.accessMinutes)) ==>
            CurrentUserSpec(after, p, r.value.accessToken, later) == Failure(CredentialsNotValidated))
  {
    var (r, after) := LoginSpec(t, p, s, email, password, now);
    var i := UserByEmail(t.users, email).index;
    assert LiveWithEmail(t.users[i], email);
    assert after.users == t.users;
    AccessTokenNamesUser(after, p, s, i, now, later);
  }

  /** The refresh token a login returns has the live record for its digest for seven days. */
  lemma LoginRefreshRecordLive(t: Tables, p: Primitives, s: Settings, email: string, password: string,
                               now: Instant, later: Instant)
    requires Consistent(t) && later < now + Days(REFRESH_RECORD_DAYS)
    requires LoginSpec(t, p, s, email, password, now).0.Success?
    ensures var (r, after) := LoginSpec(t, p, s, email, password, now);
      LiveRecordByHash(after.tokens, HashRefreshToken(p, r.value.refreshToken), later) == OneRow(|t.tokens|)
  {
    var (r, after) := LoginSpec(t, p, s, email, password, now);
    AppendedRecordFound(t.tokens, after.tokens[|t.tokens|], later);
  }

  /** An access token issued for a live user names that user until it expires. */
  lemma AccessTokenNamesUser(t: Tables, p: Primitives, s: Settings, i: nat, now: Instant, later: Instant)
    requires Consistent(t) && Lawful(p) && i < |t.users| && t.users[i].deletedAt.None?
    ensures var token := CreateAccessToken(p, s, AccessData(p, t.users[i]), now, None);
      CurrentUserSpec(t, p, token, later) ==
        if EpochSeconds(later) <= EpochSeconds(now + Minutes(s.accessMinutes)) then Success(t.users[i])
        else Failure(CredentialsNotValidated)
  {
    var u := t.users[i];
    var expire := now + Minutes(s.accessMinutes);
    ServiceDataPlain(p, u);
    SignedTokenVerifies(p, AccessData(p, u), expire, ACCESS, later);
    ClaimsOfToken(AccessData(p, u), expire, ACCESS, "sub");
    assert p.showUuid(u.id) != "" && p.parseUuid(p.showUuid(u.id)) == Some(u.id);
    LiveUserFoundById(t, i);
  }

  /** A refresh token is never accepted where an access token is required. */
  lemma RefreshTokenNotAccess(t: Tables, p: Primitives, s: Settings, data: Claims, now: Instant, later: Instant)
    requires Lawful(p)
    ensures CurrentUserSpec(t, p, CreateRefreshToken(p, s, data, now), later) == Failure(CredentialsNotValidated)
  {
    TokenTypesDisjoint(p, s, data, now, None, later);
  }

  /**
   * A token whose `sub` decodes to a number fails jwt.decode's claim check,
   * so verify_token returns None: get_current_user answers 401, and refresh
   * answers 401 for an invalid refresh token and changes nothing.
   */
  lemma NumericSubjectRefused(t: Tables, p: Primitives, s: Settings, token: string, now: Instant)
    requires p.decode(token, now).Some?
    requires Get(p.decode(token, now).value, "sub").Some? && Get(p.decode(token, now).value, "sub").value.Num?
    ensures VerifyToken(p, token, ACCESS, now).None? && VerifyToken(p, token, REFRESH, now).None?
    ensures CurrentUserSpec(t, p, token, now) == Failure(CredentialsNotValidated)
    ensures RefreshSpec(t, p, s, token, now) == (Failure(InvalidRefreshToken), t)
  {
  }

  /** get_current_user returns only a live user, the one the token's subject names. */
  lemma CurrentUserIsLive(t: Tables, p: Primitives, token: string, now: Instant)
    ensures var r := CurrentUserSpec(t, p, token, now);
      r.Success? ==>
        && r.value in t.users && r.value.deletedAt.None?
        && VerifyToken(p, token, ACCESS, now).Some?
        && SubjectOf(p, VerifyToken(p, token, ACCESS, now).value) == SubjectId(r.value.id)
  {
  }

  // ---------------------------------------------------------------------
  // refresh
  // ---------------------------------------------------------------------

  /**
   * Refresh answers 401 for a token that does not verify as a refresh
   * token, and for one whose digest has no live record. A success revokes
   * that one record, issues a new pair for the live user the token names,
   * and stores the new refresh token's record; a failure changes nothing.
   */
  lemma RefreshOutcome(t: Tables, p: Primitives, s: Settings, token: string, now: Instant)
    requires Consistent(t)
    ensures var (r, after) := RefreshSpec(t, p, s, token, now);
      var payload := VerifyToken(p, token, REFRESH, now);
      && (r == Failure(InvalidRefreshToken) <==> payload.None?)
      && (r == Failure(TokenNotFound) <==>
            payload.Some? && !SubjectOf(p, payload.value).NoSubject?
            && forall k :: 0 <= k < |t.tokens| ==> !LiveRecord(t.tokens[k], HashRefreshToken(p, token), now))
      && (r.Failure? ==> after == t)
      && (r.Success? ==>
            && payload.Some?
            && exists k, i ::
              && 0 <= k < |t.tokens| && 0 <= i < |t.users|
              && LiveRecord(t.tokens[k], HashRefreshToken(p, token), now)
              && t.users[i].deletedAt.None? && SubjectOf(p, payload.value) == SubjectId(t.users[i].id)
              && r.value == Tokens(CreateAccessToken(p, s, AccessData(p, t.users[i]), now, None),
                                   CreateRefreshToken(p, s, RefreshData(p, t.users[i]), now))
              && after == t.(tokens := t.tokens[k := Revoke(t.tokens[k], now)]
                                       + [NewRecord(t.users[i].id, HashRefreshToken(p, r.value.refreshToken), now)]))
  {
    var payload := VerifyToken(p, token, REFRESH, now);
    if payload.Some? && !SubjectOf(p, payload.value).NoSubject? {
      var sel := LiveRecordByHash(t.tokens, HashRefreshToken(p, token), now);
      if sel.OneRow? {
        assert LiveRecord(t.tokens[sel.index], HashRefreshToken(p, token), now);
      }
    }
  }

  /** After a refresh, no record is live under the digest of the token it consumed. */
  lemma ConsumedTokenDead(t: Tables, p: Primitives, s: Settings, token: string, now: Instant, later: Instant)
    requires Consistent(t)
    requires RefreshSpec(t, p, s, token, now).0.Success?
    ensures var after := RefreshSpec(t, p, s, token, now).1;
      forall j :: 0 <= j < |after.tokens| ==> !LiveRecord(after.tokens[j], HashRefreshToken(p, token), later)
  {
    var (r, after) := RefreshSpec(t, p, s, token, now);
    var h := HashRefreshToken(p, token);
    var k := LiveRecordByHash(t.tokens, h, now).index;
    assert t.tokens[k].tokenHash == h;
    forall j | 0 <= j < |after.tokens|
      ensures !LiveRecord(after.tokens[j], h, later)
    {
      if j < k || k < j < |t.tokens| {
        assert after.tokens[j] == t.tokens[j];
      }
    }
  }

  /** A refresh token is exchanged at most once: using it again, then or later, fails. */
  lemma RefreshAtMostOnce(t: Tables, p: Primitives, s: Settings, token: string, now: Instant, later: Instant)
    requires Consistent(t)
    requires RefreshSpec(t, p, s, token, now).0.Success?
    ensures var after := RefreshSpec(t, p, s, token, now).1;
      RefreshSpec(after, p, s, token, later).0.Failure?
  {
    ConsumedTokenDead(t, p, s, token, now, later);
  }

  /** The refresh token a refresh returns is the live record for its digest for seven days. */
  lemma RefreshRotates(t: Tables, p: Primitives, s: Settings, token: string, now: Instant, later: Instant)
    requires Consistent(t) && later < now + Days(REFRESH_RECORD_DAYS)
    requires RefreshSpec(t, p, s, token, now).0.Success?
    ensures var (r, after) := RefreshSpec(t, p, s, token, now);
      LiveRecordByHash(after.tokens, HashRefreshToken(p, r.value.refreshToken), later) == OneRow(|t.tokens|)
  {
    var (r, after) := RefreshSpec(t, p, s, token, now);
    var k := LiveRecordByHash(t.tokens, HashRefreshToken(p, token), now).index;
    var mid := t.tokens[k := Revoke(t.tokens[k], now)];
    var h := HashRefreshToken(p, r.value.refreshToken);
    assert forall j :: 0 <= j < |mid| ==> mid[j].tokenHash == t.tokens[j].tokenHash;
    var last := after.tokens[|mid|];
    AppendedRecordFound(mid, last, later);
  }

  /** An access token is refused by refresh with 401 and changes nothing. */
  lemma AccessTokenCannotRefresh(t: Tables, p: Primitives, s: Settings, data: Claims, issued: Instant,
                                 expiresDelta: Option<nat>, now: Instant)
    requires Lawful(p)
    ensures RefreshSpec(t, p, s, CreateAccessToken(p, s, data, issued, expiresDelta), now) == (Failure(InvalidRefreshToken), t)
  {
    TokenTypesDisjoint(p, s, data, issued, expiresDelta, now);
  }

  // ---------------------------------------------------------------------
  // logout
  // ---------------------------------------------------------------------

  /**
   * Logout always answers success, whether or not the token is known, and
   * its only change is to revoke the unrevoked record under the token's
   * digest.
   */
  lemma LogoutOutcome(t: Tables, p: Primitives, token: string, now: Instant)
    requires Consistent(t)
    ensures var (r, after) := LogoutSpec(t, p, token, now);
      && r == Success(LOGGED_OUT)
      && after.users == t.users && after.codes == t.codes
      && |after.tokens| == |t.tokens|
      && forall j :: 0 <= j < |t.tokens| ==>
           after.tokens[j] ==
             if t.tokens[j].tokenHash == HashRefreshToken(p, token) && t.tokens[j].revokedAt.None?
             then Revoke(t.tokens[j], now) else t.tokens[j]
  {
    HashQueriesUnique(t, HashRefreshToken(p, token), now);
  }

  /** After logout the token's digest has no unrevoked record, so logging out again changes nothing. */
  lemma LogoutIdempotent(t: Tables, p: Primitives, token: string, now: Instant, later: Instant)
    requires Consistent(t)
    ensures var after := LogoutSpec(t, p, token, now).1;
      LogoutSpec(after, p, token, later) == (Success(LOGGED_OUT), after)
  {
    LogoutOutcome(t, p, token, now);
  }

  /** A refresh token that was logged out can no longer be exchanged. */
  lemma LogoutEndsRefresh(t: Tables, p: Primitives, s: Settings, token: string, now: Instant, later: Instant)
    requires Consistent(t)
    ensures var after := LogoutSpec(t, p, token, now).1;
      RefreshSpec(after, p, s, token, later).0.Failure?
  {
    var after := LogoutSpec(t, p, token, now).1;
    LogoutOutcome(t, p, token, now);
    forall j | 0 <= j < |after.tokens|
      ensures !LiveRecord(after.tokens[j], HashRefreshToken(p, token), later)
    {
    }
  }

  // ---------------------------------------------------------------------
  // forgot-password and reset-password
  // ---------------------------------------------------------------------

  /**
   * Forgot-password gives the same answer whether or not the email is
   * registered; it stores a password-reset code exactly when a live user
   * has the email, and changes nothing else.
   */
  lemma ForgotPasswordOutcome(t: Tables, s: Settings, email: string, codeNumber: nat, now: Instant)
    requires Consistent(t) && CODE_MIN <= codeNumber <= CODE_MAX
    ensures var (r, after) := ForgotPasswordSpec(t, s, email, codeNumber, now);
      && r == Success(RESET_CODE_SENT)
      && after.users == t.users && after.tokens == t.tokens
      && ((forall i :: 0 <= i < |t.users| ==> !LiveWithEmail(t.users[i], email)) ==> after.codes == t.codes)
      && (forall i :: 0 <= i < |t.users| && LiveWithEmail(t.users[i], email) ==>
            after.codes == t.codes + [Code(t.users[i].id, GenerateVerificationCode(codeNumber), PasswordReset,
                                           now + Minutes(s.codeMinutes), None, None)])
  {
    UserByEmailUnique(t, email);
    var found := UserByEmail(t.users, email);
    if found.OneRow? {
      forall i | 0 <= i < |t.users| && LiveWithEmail(t.users[i], email)
        ensures i == found.index
      {
      }
    }
  }

  /**
   * Reset answers 400 when no unused, unexpired reset code has the value,
   * and 400 when the code's owner is not the live user with the email. A
   * success marks the code used, replaces the owner's hash with one of the
   * new password, and revokes every unrevoked refresh record of the owner,
   * and no other; a failure changes nothing.
   */
  lemma ResetOutcome(t: Tables, p: Primitives, code: string, email: string, newPassword: string,
                     salt: string, now: Instant)
    requires Consistent(t)
    ensures var (r, after) := ResetPasswordSpec(t, p, code, email, newPassword, salt, now);
      && (r == Failure(InvalidCode) <==> forall k :: 0 <= k < |t.codes| ==> !Redeemable(t.codes[k], code, PasswordReset, now))
      && (r.Failure? ==> after == t && StatusCode(r.error) in {400, 500})
      && (r.Success? ==>
            exists k, i ::
              && 0 <= k < |t.codes| && 0 <= i < |t.users|
              && Redeemable(t.codes[k], code, PasswordReset, now)
              && LiveWithEmail(t.users[i], email) && t.users[i].id == t.codes[k].userId
              && after.codes == t.codes[k := t.codes[k].(usedAt := Some(now))]
              && after.users == t.users[i := t.users[i].(passwordHash := Some(HashPassword(p, newPassword, salt)))]
              && |after.tokens| == |t.tokens|
              && forall j :: 0 <= j < |t.tokens| ==>
                   after.tokens[j] ==
                     if t.tokens[j].userId == t.users[i].id && t.tokens[j].revokedAt.None?
                     then Revoke(t.tokens[j], now) else t.tokens[j])
  {
    var sel := RedeemableCode(t.codes, code, PasswordReset, now);
    if sel.OneRow? {
      var k := sel.index;
      assert Redeemable(t.codes[k], code, PasswordReset, now);
      var owner := ResetOwner(t.users, t.codes[k].userId, email);
      if owner.OneRow? {
        assert LiveWithEmail(t.users[owner.index], email);
      }
    }
  }

  /** The owner of a redeemed reset code is the live user with the email. */
  lemma ResetOwnerIsEmailUser(t: Tables, p: Primitives, code: string, email: string, newPassword: string,
                              salt: string, now: Instant, i: nat)
    requires Consistent(t)
    requires ResetPasswordSpec(t, p, code, email, newPassword, salt, now).0.Success?
    requires i < |t.users| && LiveWithEmail(t.users[i], email)
    ensures var k := RedeemableCode(t.codes, code, PasswordReset, now).index;
      ResetOwner(t.users, t.codes[k].userId, email) == OneRow(i)
  {
    LiveUserFoundByEmail(t, i);
  }

  /** A reset ends every session of the user: none of their refresh tokens can be exchanged afterwards. */
  lemma ResetEndsSessions(t: Tables, p: Primitives, s: Settings, code: string, email: string, newPassword: string,
                          salt: string, now: Instant, i: nat, token: string, later: Instant)
    requires Consistent(t)
    requires ResetPasswordSpec(t, p, code, email, newPassword, salt, now).0.Success?
    requires i < |t.users| && LiveWithEmail(t.users[i], email)
    requires exists j :: 0 <= j < |t.tokens| && t.tokens[j].tokenHash == HashRefreshToken(p, token)
                         && t.tokens[j].userId == t.users[i].id
    ensures var after := ResetPasswordSpec(t, p, code, email, newPassword, salt, now).1;
      RefreshSpec(after, p, s, token, later).0.Failure?
  {
    var after := ResetPasswordSpec(t, p, code, email, newPassword, salt, now).1;
    ResetOwnerIsEmailUser(t, p, code, email, newPassword, salt, now, i);
    var h := HashRefreshToken(p, token);
    var j0 :| 0 <= j0 < |t.tokens| && t.tokens[j0].tokenHash == h && t.tokens[j0].userId == t.users[i].id;
    forall j | 0 <= j < |after.tokens|
      ensures !LiveRecord(after.tokens[j], h, later)
    {
      if j != j0 {
        if j < j0 {} else {}
      }
    }
  }

  /** After a reset the new password logs in: login no longer answers 401 for it. */
  lemma ResetNewPasswordWorks(t: Tables, p: Primitives, s: Settings, code: string, email: string,
                              newPassword: string, salt: string, now: Instant, later: Instant)
    requires Consistent(t) && Lawful(p)
    requires ResetPasswordSpec(t, p, code, email, newPassword, salt, now).0.Success?
    ensures var after := ResetPasswordSpec(t, p, code, email, newPassword, salt, now).1;
      LoginSpec(after, p, s, email, newPassword, later).0 != Failure(InvalidCredentials)
  {
    var after := ResetPasswordSpec(t, p, code, email, newPassword, salt, now).1;
    var k := RedeemableCode(t.codes, code, PasswordReset, now).index;
    var i := ResetOwner(t.users, t.codes[k].userId, email).index;
    ResetKeepsConsistent(t, p, code, email, newPassword, salt, now);
    LiveUserFoundByEmail(after, i);
    PasswordRoundTrip(p, newPassword, salt);
  }

  /** A reset code works once: a second reset with it, then or later, is refused with 400. */
  lemma ResetCodeOnce(t: Tables, p: Primitives, code: string, email: string, newPassword: string, salt: string,
                      now: Instant, email2: string, password2: string, salt2: string, later: Instant)
    requires Consistent(t) && now <= later
    requires ResetPasswordSpec(t, p, code, email, newPassword, salt, now).0.Success?
    ensures var after := ResetPasswordSpec(t, p, code, email, newPassword, salt, now).1;
      ResetPasswordSpec(after, p, code, email2, password2, salt2, later).0 == Failure(InvalidCode)
  {
    var k := RedeemableCode(t.codes, code, PasswordReset, now).index;
    UsedCodeExhausted(t.codes, k, code, PasswordReset, now, later);
  }

  /**
   * The code forgot-password sends resets the password while it is
   * unexpired, provided no other unused reset code shares its six digits.
   */
  lemma ForgotThenReset(t: Tables, s: Settings, p: Primitives, email: string, codeNumber: nat, now: Instant,
                        newPassword: string, salt: string, later: Instant)
    requires Consistent(t) && CODE_MIN <= codeNumber <= CODE_MAX
    requires exists i :: 0 <= i < |t.users| && LiveWithEmail(t.users[i], email)
    requires now <= later < now + Minutes(s.codeMinutes)
    requires forall k :: 0 <= k < |t.codes| ==>
      !Redeemable(t.codes[k], GenerateVerificationCode(codeNumber), PasswordReset, later)
    ensures var after := ForgotPasswordSpec(t, s, email, codeNumber, now).1;
      ResetPasswordSpec(after, p, GenerateVerificationCode(codeNumber), email, newPassword, salt, later).0
        == Success(PASSWORD_CHANGED)
  {
    var after := ForgotPasswordSpec(t, s, email, codeNumber, now).1;
    var i :| 0 <= i < |t.users| && LiveWithEmail(t.users[i], email);
    ForgotPasswordOutcome(t, s, email, codeNumber, now);
    AppendedCodeFound(t.codes, after.codes[|t.codes|], later);
    LiveUserFoundByEmail(t, i);
    LiveUserIsResetOwner(t, i);
  }

  /** A code appended when no other redeemable code has its value is the one the code query returns. */
  lemma AppendedCodeFound(codes: seq<Code>, c: Code, now: Instant)
    requires Redeemable(c, c.code, c.codeType, now)
    requires forall k :: 0 <= k < |codes| ==> !Redeemable(codes[k], c.code, c.codeType, now)
    ensures RedeemableCode(codes + [c], c.code, c.codeType, now) == OneRow(|codes|)
  {
    var all := codes + [c];
    forall k | 0 <= k < |codes|
      ensures !Redeemable(all[k], c.code, c.codeType, now)
    {
      assert all[k] == codes[k];
    }
    assert all[|codes|] == c;
  }

  /** With ids unique, a live user owns their reset codes for their own email. */
  lemma LiveUserIsResetOwner(t: Tables, i: nat)
    requires Consistent(t) && i < |t.users| && t.users[i].deletedAt.None?
    ensures ResetOwner(t.users, t.users[i].id, t.users[i].email) == OneRow(i)
  {
    forall j | 0 <= j < |t.users| && j != i
      ensures t.users[j].id != t.users[i].id
    {
      if j < i {} else {}
    }
  }
}
