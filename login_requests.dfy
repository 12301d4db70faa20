/** LoginRequestDTO: the body of POST /api/auth/login, checked by @Valid before the
    handler runs. */
module LoginRequests {
  import opened Types
  import opened AppConstants
  import opened Constraints
  import SignupRequests

  datatype LoginRequestDTO = LoginRequestDTO(nickName: Option<string>, password: Option<string>)

  const NICKNAME_CHECKS := [
    Check(NotBlankConstraint, "Nickname is required"),
    Check(SizeConstraint(MAX_NICKNAME_LENGTH), SizeMessage("Nickname", MAX_NICKNAME_LENGTH))]
  const PASSWORD_CHECKS := [
    Check(NotBlankConstraint, "Password is required"),
    Check(SizeConstraint(MAX_PASSWORD_LENGTH), SizeMessage("Password", MAX_PASSWORD_LENGTH))]

  /** Every violation of the request's annotations. */
  function Violations(request: LoginRequestDTO, isEmail: string -> bool): set<Violation> {
    FieldViolations("nickName", request.nickName, NICKNAME_CHECKS, isEmail)
    + FieldViolations("password", request.password, PASSWORD_CHECKS, isEmail)
  }

  /** The request is accepted exactly when both fields are present, non-blank and within
      their limits. */
  lemma LoginAcceptedIff(request: LoginRequestDTO, isEmail: string -> bool)
    ensures Violations(request, isEmail) == {} <==>
      && SignupRequests.BoundedText(request.nickName, MAX_NICKNAME_LENGTH)
      && SignupRequests.BoundedText(request.password, MAX_PASSWORD_LENGTH)
  {
    SignupRequests.BoundedFieldAccepted("nickName", request.nickName, NICKNAME_CHECKS, MAX_NICKNAME_LENGTH, isEmail);
    SignupRequests.BoundedFieldAccepted("password", request.password, PASSWORD_CHECKS, MAX_PASSWORD_LENGTH, isEmail);
  }

  /** The login checks on a nickname and password are the signup checks on those two fields:
      logging in with the credentials of an accepted signup raises no violation, and a
      rejected login reports what signup would have reported for those fields. */
  lemma LoginChecksAreSignupChecks(request: SignupRequests.SignupRequestDTO, isEmail: string -> bool)
    ensures Violations(LoginRequestDTO(request.nickName, request.password), isEmail) ==
      set v | v in SignupRequests.Violations(request, isEmail) && (v.field == "nickName" || v.field == "password")
    ensures SignupRequests.Violations(request, isEmail) == {} ==>
      Violations(LoginRequestDTO(request.nickName, request.password), isEmail) == {}
  {
    var login := Violations(LoginRequestDTO(request.nickName, request.password), isEmail);
    var signup := SignupRequests.Violations(request, isEmail);
    assert NICKNAME_CHECKS == SignupRequests.NICKNAME_CHECKS;
    assert PASSWORD_CHECKS == SignupRequests.PASSWORD_CHECKS;
    forall v | v in signup && (v.field == "nickName" || v.field == "password") ensures v in login {
    }
  }
}
