/**
 * The request and response schemas of the auth endpoints: the field
 * constraints a request must meet before a handler runs, and the token
 * response.
 */
module Schemas {
  import opened Text
  import opened AuthUtils

  /** The validation errors pydantic reports, one per failing field or validator. */
  datatype FieldError =
    | InvalidEmail
    | PasswordLength
    | PasswordConfirmLength
    | NameLength
    | PasswordsDiffer
    | CodeFormat

  const PASSWORD_MIN := 8
  const PASSWORD_MAX := 100
  const NAME_MIN := 2
  const NAME_MAX := 255
  const CODE_LENGTH := 6

  predicate PasswordLengthOk(p: string) {
    PASSWORD_MIN <= |p| <= PASSWORD_MAX
  }

  /** `Field(min_length=6, max_length=6, pattern=r'^\d{6}$')`. */
  predicate CodeFormatOk(code: string) {
    |code| == CODE_LENGTH && IsDigits(code)
  }

  /**
   * `passwords_match`: the validator runs only when the confirmation passed
   * its own constraints, and compares only when the password did too.
   */
  function MismatchErrors(password: string, confirm: string): set<FieldError> {
    if PasswordLengthOk(confirm) && PasswordLengthOk(password) && confirm != password then {PasswordsDiffer} else {}
  }

  /** Errors for a UserRegister body; `emailOk` is the EmailStr verdict. */
  function RegisterErrors(emailOk: bool, password: string, confirm: string, name: string): set<FieldError> {
    (if emailOk then {} else {InvalidEmail})
    + (if PasswordLengthOk(password) then {} else {PasswordLength})
    + (if PasswordLengthOk(confirm) then {} else {PasswordConfirmLength})
    + MismatchErrors(password, confirm)
    + (if NAME_MIN <= |name| <= NAME_MAX then {} else {NameLength})
  }

  /** Errors for a VerificationCodeRequest body. */
  function CodeErrors(code: string): set<FieldError> {
    if CodeFormatOk(code) then {} else {CodeFormat}
  }

  /** Errors for a PasswordResetConfirm body. */
  function ResetErrors(emailOk: bool, code: string, newPassword: string, confirm: string): set<FieldError> {
    (if emailOk then {} else {InvalidEmail})
    + CodeErrors(code)
    + (if PasswordLengthOk(newPassword) then {} else {PasswordLength})
    + (if PasswordLengthOk(confirm) then {} else {PasswordConfirmLength})
    + MismatchErrors(newPassword, confirm)
  }

  /** A registration is accepted exactly when every field is within bounds and the passwords agree. */
  lemma RegisterAccepted(emailOk: bool, password: string, confirm: string, name: string)
    ensures RegisterErrors(emailOk, password, confirm, name) == {} <==>
      emailOk && PasswordLengthOk(password) && password == confirm && 2 <= |name| <= 255
  {
    var e := RegisterErrors(emailOk, password, confirm, name);
    if !emailOk { assert InvalidEmail in e; }
    if !PasswordLengthOk(password) { assert PasswordLength in e; }
    if !PasswordLengthOk(confirm) { assert PasswordConfirmLength in e; }
    if !(2 <= |name| <= 255) { assert NameLength in e; }
  }

  /** The mismatch error appears only when both passwords are within bounds and differ. */
  lemma MismatchOnlyForValidPasswords(emailOk: bool, password: string, confirm: string, name: string)
    ensures PasswordsDiffer in RegisterErrors(emailOk, password, confirm, name) <==>
      PasswordLengthOk(password) && PasswordLengthOk(confirm) && password != confirm
  {
  }

  /** A reset is accepted exactly when the code is six digits and the new password is within bounds and confirmed. */
  lemma ResetAccepted(emailOk: bool, code: string, newPassword: string, confirm: string)
    ensures ResetErrors(emailOk, code, newPassword, confirm) == {} <==>
      emailOk && |code| == 6 && IsDigits(code) && PasswordLengthOk(newPassword) && newPassword == confirm
  {
    var e := ResetErrors(emailOk, code, newPassword, confirm);
    if !emailOk { assert InvalidEmail in e; }
    if !CodeFormatOk(code) { assert CodeFormat in e; }
    if !PasswordLengthOk(newPassword) { assert PasswordLength in e; }
    if !PasswordLengthOk(confirm) { assert PasswordConfirmLength in e; }
  }

  /** Every code the service generates passes the code schema. */
  lemma GeneratedCodesPass(n: nat)
    requires CODE_MIN <= n <= CODE_MAX
    ensures CodeErrors(GenerateVerificationCode(n)) == {}
  {
    VerificationCodeShape(n);
  }

  const BEARER: string := "bearer"

  /** A TokenResponse; `token_type` keeps its default. */
  datatype TokenResponse = TokenResponse(accessToken: string, refreshToken: string, tokenType: string)

  function Tokens(access: string, refresh: string): TokenResponse {
    TokenResponse(access, refresh, BEARER)
  }
}
