/** `authService`: `register` and `login` validate locally and post; unlike the
    other services their `catch` keeps the local error's own message. */
module AuthService {
  import opened Common
  import opened ApiTypes
  import opened EmailFormat
  import AuthContext

  datatype RegisterError = MissingFields | InvalidEmail | PasswordTooShort

  function RegisterMessage(e: RegisterError): string
  {
    match e
    case MissingFields => "Missing required fields"
    case InvalidEmail => "Invalid email format"
    case PasswordTooShort => "Password must be at least 6 characters"
  }

  const MinPasswordLength := 6
  const RegisterFallback := "Registration failed"
  const LoginFallback := "Login failed"
  const LoginMissingMessage := "Email and password are required"

  /** The body of a successful register or login reply; any field may be absent. */
  datatype AuthResponse = AuthResponse(
    token: Option<string>,
    userId: Option<Key>,
    email: Option<string>,
    name: Option<string>)

  /** The user record both sign-in pages hand to the session, `{id: userId,
      email, name}`: it has no role, so such a session is never an admin. */
  function SessionUser(response: AuthResponse): (u: AuthContext.User)
    ensures u.id == response.userId && u.email == response.email && u.name == response.name
    ensures u.role.None?
  {
    AuthContext.User(response.userId, response.email, response.name, None)
  }

  /** `register`'s guard chain: required fields, then the e-mail format, then the
      password length. The length is counted in characters. */
  function RegisterCheck(u: RegisterData): (r: Option<RegisterError>)
    ensures r == Some(MissingFields) <==> u.email == "" || u.password == "" || u.name == ""
    ensures r == Some(InvalidEmail) <==>
      u.email != "" && u.password != "" && u.name != "" && !MatchesPattern(u.email)
    ensures r == Some(PasswordTooShort) <==>
      u.email != "" && u.password != "" && u.name != "" && MatchesPattern(u.email)
      && |u.password| < MinPasswordLength
    ensures r.None? <==>
      u.name != "" && MatchesPattern(u.email) && |u.password| >= MinPasswordLength
  {
    EmailFormatIffPattern(u.email);
    if u.email == "" || u.password == "" || u.name == "" then Some(MissingFields)
    else if !IsEmailFormat(u.email) then Some(InvalidEmail)
    else if |u.password| < MinPasswordLength then Some(PasswordTooShort)
    else None
  }

  function Register(u: RegisterData, reply: Reply<AuthResponse>): (r: Call<AuthResponse>)
    ensures r.sent.Some? <==> RegisterCheck(u).None?
    ensures r.sent.Some? ==> r.sent.value == PostRegister(u)
    ensures r.sent.Some? && reply.Answered? ==> r.outcome == Resolved(reply.data)
    ensures RegisterCheck(u).Some? ==> r.outcome == Rejected(RegisterMessage(RegisterCheck(u).value))
    ensures r.sent.Some? && reply.HttpError? && TextTruthy(reply.serverMessage) ==>
      r.outcome == Rejected(reply.serverMessage.value)
    ensures r.sent.Some? && reply.HttpError? && !TextTruthy(reply.serverMessage) && reply.errorMessage != "" ==>
      r.outcome == Rejected(reply.errorMessage)
    ensures r.sent.Some? && reply.HttpError? && !TextTruthy(reply.serverMessage) && reply.errorMessage == "" ==>
      r.outcome == Rejected(RegisterFallback)
  {
    var mapError := f => ServerOrErrorMessageOr(f, RegisterFallback);
    match RegisterCheck(u)
    case Some(e) => Refuse(RegisterMessage(e), mapError)
    case None => Send(PostRegister(u), reply, mapError)
  }

  function Login(c: Credentials, reply: Reply<AuthResponse>): (r: Call<AuthResponse>)
    ensures r.sent.Some? <==> c.email != "" && c.password != ""
    ensures r.sent.Some? ==> r.sent.value == PostLogin(c)
    ensures r.sent.None? ==> r.outcome == Rejected(LoginMissingMessage)
    ensures r.sent.Some? && reply.Answered? ==> r.outcome == Resolved(reply.data)
    ensures r.sent.Some? && reply.HttpError? && TextTruthy(reply.serverMessage) ==>
      r.outcome == Rejected(reply.serverMessage.value)
    ensures r.sent.Some? && reply.HttpError? && !TextTruthy(reply.serverMessage) && reply.errorMessage != "" ==>
      r.outcome == Rejected(reply.errorMessage)
    ensures r.sent.Some? && reply.HttpError? && !TextTruthy(reply.serverMessage) && reply.errorMessage == "" ==>
      r.outcome == Rejected(LoginFallback)
  {
    var mapError := f => ServerOrErrorMessageOr(f, LoginFallback);
    if c.email == "" || c.password == "" then Refuse(LoginMissingMessage, mapError)
    else Send(PostLogin(c), reply, mapError)
  }

  /** A malformed e-mail with a short password is reported as a format error:
      the format is checked before the length. */
  lemma FormatCheckedBeforeLength()
    ensures RegisterCheck(RegisterData("Ann", "ann", "abc", "")) == Some(InvalidEmail)
  {
    assert !IsEmailFormat("ann");
  }
}
