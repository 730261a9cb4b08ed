/** The sign-in form: it checks its two fields, asks the server for a token,
    checks the reply and signs in through the session. */
module LoginPage {
  import opened Common
  import opened ApiTypes
  import AuthService
  import opened AuthContext

  const InputMissingMessage := "Email and password are required"
  const InvalidResponseMessage := "Invalid server response"
  const AuthenticateFailedMessage := "Failed to authenticate"
  const Fallback := "Login failed. Please try again."

  /** `!email || !password`: the page refuses before any request. */
  predicate InputMissing(email: string, password: string)
  {
    email == "" || password == ""
  }

  /** `!response.token || !response.userId`: a reply the page cannot use. */
  predicate ResponseUnusable(response: AuthService.AuthResponse)
  {
    !TextTruthy(response.token) || !Present(response.userId)
  }

  /** The page asks exactly when the service would also send the request. */
  lemma PageAndServiceAgreeOnInput(email: string, password: string, reply: Reply<AuthService.AuthResponse>)
    ensures !InputMissing(email, password) <==>
      AuthService.Login(Credentials(email, password), reply).sent.Some?
  {
  }

  class LoginForm {
    var email: string
    var password: string
    var error: string
    var loading: bool

    constructor()
      ensures email == "" && password == "" && error == "" && !loading
    {
      email, password := "", "";
      error, loading := "", false;
    }

    /** The e-mail input's `onChange`. */
    method SetEmail(text: string)
      modifies this`email
      ensures email == text
    {
      email := text;
    }

    /** The password input's `onChange`. */
    method SetPassword(text: string)
      modifies this`password
      ensures password == text
    {
      password := text;
    }

    /** `handleSubmit`: missing input, a rejected request, a reply without a token
        or user id, and a token the session refuses each show their own message;
        only a session that accepts the token navigates to the dashboard, and
        the user it stores is exactly `{id: userId, email, name}`. Loading ends
        in every case. */
    method HandleSubmit(session: AuthSession, reply: Reply<AuthService.AuthResponse>,
                        jwtDecode: string -> Option<Claims>, now: real)
      returns (sent: Option<Request>, navigateTo: Option<Route>)
      requires session.Valid()
      modifies this`error, this`loading, session
      ensures session.Valid() && !loading
      ensures InputMissing(email, password) ==>
        sent.None? && navigateTo.None? && error == InputMissingMessage && unchanged(session)
      ensures !InputMissing(email, password) ==> sent == Some(PostLogin(Credentials(email, password)))
      ensures !InputMissing(email, password) && reply.HttpError? ==>
        navigateTo.None? && error == Fallback && unchanged(session)
      ensures !InputMissing(email, password) && reply.Answered? && ResponseUnusable(reply.data) ==>
        navigateTo.None? && error == InvalidResponseMessage && unchanged(session)
      ensures !InputMissing(email, password) && reply.Answered? && !ResponseUnusable(reply.data) ==>
        var token := reply.data.token.value;
        && (navigateTo.Some? <==> AcceptedAtLogin(jwtDecode(token), now))
        && (navigateTo.Some? ==>
             navigateTo.value == DashboardRoute && error == ""
             && session.token == Some(token) && session.user == Some(AuthService.SessionUser(reply.data))
             && session.IsAuthenticated() && !session.IsAdmin())
        && (navigateTo.None? ==> error == AuthenticateFailedMessage && unchanged(session))
    {
      error := "";
      loading := true;
      sent, navigateTo := None, None;
      if InputMissing(email, password) {
        error := PageErrorText(PageError(InputMissingMessage), Fallback);
      } else {
        var call := AuthService.Login(Credentials(email, password), reply);
        sent := call.sent;
        match call.outcome {
          case Rejected(reason) =>
            error := PageErrorText(ThrownString(reason), Fallback);
          case Resolved(response) =>
            if ResponseUnusable(response) {
              error := PageErrorText(PageError(InvalidResponseMessage), Fallback);
            } else {
              var ok := session.Login(response.token, AuthService.SessionUser(response), jwtDecode, now);
              if ok {
                navigateTo := Some(DashboardRoute);
              } else {
                error := PageErrorText(PageError(AuthenticateFailedMessage), Fallback);
              }
            }
        }
      }
      loading := false;
    }
  }
}
