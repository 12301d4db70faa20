/** SignupRequestDTO: the body of POST /api/auth/signup, checked by @Valid before the
    handler runs. */
module SignupRequests {
  import opened Types
  import opened AppConstants
  import opened Constraints

  /** A field missing from the JSON body is null. */
  datatype SignupRequestDTO = SignupRequestDTO(
    nickName: Option<string>,
    firstName: Option<string>,
    lastName: Option<string>,
    email: Option<string>,
    password: Option<string>)

  const NICKNAME_CHECKS := [
    Check(NotBlankConstraint, "Nickname is required"),
    Check(SizeConstraint(MAX_NICKNAME_LENGTH), SizeMessage("Nickname", MAX_NICKNAME_LENGTH))]
  const FIRSTNAME_CHECKS := [
    Check(NotBlankConstraint, "First name is required"),
    Check(SizeConstraint(MAX_FIRSTNAME_LENGTH), SizeMessage("First name", MAX_FIRSTNAME_LENGTH))]
  const LASTNAME_CHECKS := [
    Check(NotBlankConstraint, "Last name is required"),
    Check(SizeConstraint(MAX_LASTNAME_LENGTH), SizeMessage("Last name", MAX_LASTNAME_LENGTH))]
  const EMAIL_CHECKS := [
    Check(NotBlankConstraint, "Email is required"),
    Check(SizeConstraint(MAX_EMAIL_LENGTH), SizeMessage("Email", MAX_EMAIL_LENGTH)),
    Check(EmailConstraint, "Email should be valid")]
  const PASSWORD_CHECKS := [
    Check(NotBlankConstraint, "Password is required"),
    Check(SizeConstraint(MAX_PASSWORD_LENGTH), SizeMessage("Password", MAX_PASSWORD_LENGTH))]

  /** Every violation of the request's annotations; isEmail is the validator's address syntax. */
  function Violations(request: SignupRequestDTO, isEmail: string -> bool): set<Violation> {
    FieldViolations("nickName", request.nickName, NICKNAME_CHECKS, isEmail)
    + FieldViolations("firstName", request.firstName, FIRSTNAME_CHECKS, isEmail)
    + FieldViolations("lastName", request.lastName, LASTNAME_CHECKS, isEmail)
    + FieldViolations("email", request.email, EMAIL_CHECKS, isEmail)
    + FieldViolations("password", request.password, PASSWORD_CHECKS, isEmail)
  }

  /** A present, non-blank value of at most max UTF-16 units. */
  predicate BoundedText(value: Option<string>, max: nat) {
    value.Some? && |Trim(value.value)| > 0 && Utf16Length(value.value) <= max
  }

  /** A field with a NotBlank and a Size(max) check has no violation exactly when it is
      bounded text. */
  lemma BoundedFieldAccepted(field: string, value: Option<string>, checks: seq<Check>, max: nat, isEmail: string -> bool)
    requires |checks| == 2 && checks[0].constraint == NotBlankConstraint && checks[1].constraint == SizeConstraint(max)
    ensures FieldViolations(field, value, checks, isEmail) == {} <==> BoundedText(value, max)
  {
    if FieldViolations(field, value, checks, isEmail) == {} {
      assert Satisfies(value, checks[0].constraint, isEmail);
      assert Satisfies(value, checks[1].constraint, isEmail);
    }
  }

  /** The email field has no violation exactly when it is bounded text with the address
      syntax: once it is non-blank, the empty-string exemption of @Email cannot apply. */
  lemma EmailFieldAccepted(value: Option<string>, isEmail: string -> bool)
    ensures FieldViolations("email", value, EMAIL_CHECKS, isEmail) == {} <==>
      BoundedText(value, MAX_EMAIL_LENGTH) && isEmail(value.value)
  {
    if FieldViolations("email", value, EMAIL_CHECKS, isEmail) == {} {
      assert Satisfies(value, EMAIL_CHECKS[0].constraint, isEmail);
      assert Satisfies(value, EMAIL_CHECKS[1].constraint, isEmail);
      assert Satisfies(value, EMAIL_CHECKS[2].constraint, isEmail);
      assert value.value != "";
    }
  }

  /** The request is accepted exactly when every field is present, non-blank and within its
      limit, and the email has the address syntax. */
  lemma SignupAcceptedIff(request: SignupRequestDTO, isEmail: string -> bool)
    ensures Violations(request, isEmail) == {} <==>
      && BoundedText(request.nickName, MAX_NICKNAME_LENGTH)
      && BoundedText(request.firstName, MAX_FIRSTNAME_LENGTH)
      && BoundedText(request.lastName, MAX_LASTNAME_LENGTH)
      && BoundedText(request.email, MAX_EMAIL_LENGTH) && isEmail(request.email.value)
      && BoundedText(request.password, MAX_PASSWORD_LENGTH)
  {
    BoundedFieldAccepted("nickName", request.nickName, NICKNAME_CHECKS, MAX_NICKNAME_LENGTH, isEmail);
    BoundedFieldAccepted("firstName", request.firstName, FIRSTNAME_CHECKS, MAX_FIRSTNAME_LENGTH, isEmail);
    BoundedFieldAccepted("lastName", request.lastName, LASTNAME_CHECKS, MAX_LASTNAME_LENGTH, isEmail);
    BoundedFieldAccepted("password", request.password, PASSWORD_CHECKS, MAX_PASSWORD_LENGTH, isEmail);
    EmailFieldAccepted(request.email, isEmail);
  }

  /** A whitespace-only value is reported as missing, whichever field carries it. */
  lemma WhitespaceOnlyRejected(request: SignupRequestDTO, s: string, isEmail: string -> bool)
    requires forall i :: 0 <= i < |s| ==> Trimmed(s[i])
    ensures Violation("nickName", NotBlankConstraint, "Nickname is required") in Violations(request.(nickName := Some(s)), isEmail)
    ensures Violation("firstName", NotBlankConstraint, "First name is required") in Violations(request.(firstName := Some(s)), isEmail)
    ensures Violation("lastName", NotBlankConstraint, "Last name is required") in Violations(request.(lastName := Some(s)), isEmail)
    ensures Violation("email", NotBlankConstraint, "Email is required") in Violations(request.(email := Some(s)), isEmail)
    ensures Violation("password", NotBlankConstraint, "Password is required") in Violations(request.(password := Some(s)), isEmail)
  {
    WhitespaceOnlyIsBlank(s);
    assert !Satisfies(Some(s), NICKNAME_CHECKS[0].constraint, isEmail);
    assert !Satisfies(Some(s), FIRSTNAME_CHECKS[0].constraint, isEmail);
    assert !Satisfies(Some(s), LASTNAME_CHECKS[0].constraint, isEmail);
    assert !Satisfies(Some(s), EMAIL_CHECKS[0].constraint, isEmail);
    assert !Satisfies(Some(s), PASSWORD_CHECKS[0].constraint, isEmail);
  }
}
