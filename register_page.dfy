/** The registration form: it checks the fields itself, registers, then signs the
    new user in through the session. */
module RegisterPage {
  import opened Common
  import opened ApiTypes
  import opened EmailFormat
  import AuthService
  import opened AuthContext

  /** The page's own checks, in the order it runs them. */
  datatype FormError = FieldsRequired | PasswordsDiffer | PasswordTooShort | InvalidEmail

  function FormMessage(e: FormError): string
  {
    match e
    case FieldsRequired => "Name, email and password are required"
    case PasswordsDiffer => "Passwords do not match"
    case PasswordTooShort => "Password must be at least 6 characters"
    case InvalidEmail => "Invalid email format"
  }

  const LoginFailedMessage := "Registration successful but login failed"
  const Fallback := "Registration failed. Please try again."

  /** The form's fields. */
  datatype RegisterFields = RegisterFields(
    name: string, email: string, password: string, confirmPassword: string, phone: string)

  /** The field a change event names. */
  datatype FieldName = NameField | EmailField | PasswordField | ConfirmPasswordField | PhoneField

  /** `{ ...formData, [name]: value }`. */
  function WithField(f: RegisterFields, field: FieldName, value: string): (r: RegisterFields)
    ensures field == NameField ==> r == f.(name := value)
    ensures field == EmailField ==> r == f.(email := value)
    ensures field == PasswordField ==> r == f.(password := value)
    ensures field == ConfirmPasswordField ==> r == f.(confirmPassword := value)
    ensures field == PhoneField ==> r == f.(phone := value)
  {
    match field
    case NameField => f.(name := value)
    case EmailField => f.(email := value)
    case PasswordField => f.(password := value)
    case ConfirmPasswordField => f.(confirmPassword := value)
    case PhoneField => f.(phone := value)
  }

  /** The checks of `handleSubmit`, first failure wins: required fields, matching
      passwords, length, then the e-mail format. The phone is never checked. */
  function Validate(f: RegisterFields): (r: Option<FormError>)
    ensures r == Some(FieldsRequired) <==> f.name == "" || f.email == "" || f.password == ""
    ensures r == Some(PasswordsDiffer) <==>
      f.name != "" && f.email != "" && f.password != "" && f.password != f.confirmPassword
    ensures r == Some(PasswordTooShort) <==>
      f.name != "" && f.email != "" && f.password != "" && f.password == f.confirmPassword
      && |f.password| < AuthService.MinPasswordLength
    ensures r == Some(InvalidEmail) <==>
      f.name != "" && f.email != "" && f.password == f.confirmPassword
      && |f.password| >= AuthService.MinPasswordLength && !MatchesPattern(f.email)
    ensures r.None? <==>
      f.name != "" && f.password == f.confirmPassword
      && |f.password| >= AuthService.MinPasswordLength && MatchesPattern(f.email)
  {
    EmailFormatIffPattern(f.email);
    if f.name == "" || f.email == "" || f.password == "" then Some(FieldsRequired)
    else if f.password != f.confirmPassword then Some(PasswordsDiffer)
    else if |f.password| < AuthService.MinPasswordLength then Some(PasswordTooShort)
    else if !IsEmailFormat(f.email) then Some(InvalidEmail)
    else None
  }

  /** What the page passes to the service: everything but the confirmation. */
  function Registration(f: RegisterFields): RegisterData
  {
    RegisterData(f.name, f.email, f.password, f.phone)
  }

  /** The page accepts exactly what the service accepts with matching passwords,
      so the service's own checks never fail after the page's have passed. */
  lemma PageChecksCoverService(f: RegisterFields)
    ensures Validate(f).None? <==>
      AuthService.RegisterCheck(Registration(f)).None? && f.password == f.confirmPassword
  {
  }

  /** The page checks the length before the format, the service the other way
      round: a short password with a malformed e-mail gets different messages. */
  lemma PageAndServiceOrderDiffer()
    ensures var f := RegisterFields("Ann", "ann", "abc", "abc", "");
      Validate(f) == Some(PasswordTooShort)
      && AuthService.RegisterCheck(Registration(f)) == Some(AuthService.InvalidEmail)
  {
    assert !IsEmailFormat("ann");
  }

  class RegisterForm {
    var fields: RegisterFields
    var error: string
    var loading: bool

    constructor()
      ensures fields == RegisterFields("", "", "", "", "") && error == "" && !loading
    {
      fields := RegisterFields("", "", "", "", "");
      error, loading := "", false;
    }

    /** `handleChange`: the named field takes the new text. */
    method HandleChange(field: FieldName, value: string)
      modifies this`fields
      ensures fields == WithField(old(fields), field, value)
    {
      fields := WithField(fields, field, value);
    }

    /** `handleSubmit`: a failed page check shows its message; otherwise the user is
        registered and then signed in with the reply's token and a role-less user
        record. Only a successful sign-in navigates to the dashboard, and the
        session then is authenticated but never an admin. */
    method HandleSubmit(session: AuthSession, reply: Reply<AuthService.AuthResponse>,
                        jwtDecode: string -> Option<Claims>, now: real)
      returns (sent: Option<Request>, navigateTo: Option<Route>)
      requires session.Valid()
      modifies this`error, this`loading, session
      ensures session.Valid() && !loading
      ensures Validate(fields).Some? ==>
        sent.None? && navigateTo.None? && error == FormMessage(Validate(fields).value)
        && unchanged(session)
      ensures Validate(fields).None? ==> sent == Some(PostRegister(Registration(fields)))
      ensures Validate(fields).None? && reply.HttpError? ==>
        navigateTo.None? && error == Fallback && unchanged(session)
      ensures Validate(fields).None? && reply.Answered? ==>
        var token := reply.data.token;
        && (navigateTo.Some? <==> token.Some? && AcceptedAtLogin(jwtDecode(token.value), now))
        && (navigateTo.Some? ==>
             navigateTo.value == DashboardRoute && error == ""
             && session.token == token && session.user == Some(AuthService.SessionUser(reply.data))
             && !session.IsAdmin())
        && (navigateTo.None? ==> error == LoginFailedMessage && unchanged(session))
    {
      error := "";
      loading := true;
      sent, navigateTo := None, None;
      match Validate(fields) {
        case Some(e) =>
          error := PageErrorText(PageError(FormMessage(e)), Fallback);
        case None =>
          PageChecksCoverService(fields);
          var call := AuthService.Register(Registration(fields), reply);
          sent := call.sent;
          match call.outcome {
            case Rejected(reason) =>
              error := PageErrorText(ThrownString(reason), Fallback);
            case Resolved(response) =>
              var ok := session.Login(response.token, AuthService.SessionUser(response), jwtDecode, now);
              if ok {
                navigateTo := Some(DashboardRoute);
              } else {
                error := PageErrorText(PageError(LoginFailedMessage), Fallback);
              }
          }
      }
      loading := false;
    }
  }
}
