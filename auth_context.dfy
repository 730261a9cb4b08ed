/** The session held by `AuthProvider`: the current token and user, a loading flag,
    and the two browser storage entries `token` and `user`. Decoding a token and
    reading the clock are inputs: `jwtDecode` gives the claims or `None` where the
    library throws, and `now` is the current time in seconds. */
module AuthContext {
  import opened Common

  /** The user record the pages store; `role` is absent unless the server sent one. */
  datatype User = User(id: Option<Key>, email: Option<string>, name: Option<string>, role: Option<string>)

  /** The claims of a decoded token; `exp` is in seconds and may be absent. */
  datatype Claims = Claims(exp: Option<real>)

  /** The text of the `user` storage entry: JSON of a user, or text `JSON.parse` rejects. */
  datatype StoredUser = UserJson(user: User) | Unparsable

  const AdminRole := "ADMIN"

  /** The mount effect keeps a token only when `decoded.exp > currentTime`; an
      absent `exp` compares false, so such a token is not restored. */
  predicate StillValidAtMount(decoded: Option<Claims>, now: real)
  {
    decoded.Some? && decoded.value.exp.Some? && decoded.value.exp.value > now
  }

  /** `login` refuses a token only when `decoded.exp <= currentTime`; an absent
      `exp` compares false there too, so such a token is accepted. */
  predicate AcceptedAtLogin(decoded: Option<Claims>, now: real)
  {
    decoded.Some? && !(decoded.value.exp.Some? && decoded.value.exp.value <= now)
  }

  class AuthSession {
    var user: Option<User>
    var token: Option<string>
    var loading: bool
    var storedToken: Option<string>
    var storedUser: Option<StoredUser>

    /** The token and the user are set and cleared together. */
    ghost predicate Valid()
      reads this
    {
      token.Some? <==> user.Some?
    }

    /** The provider starts loading, with no session, over whatever storage holds. */
    constructor(storedToken: Option<string>, storedUser: Option<StoredUser>)
      ensures Valid() && loading && token.None? && user.None?
      ensures this.storedToken == storedToken && this.storedUser == storedUser
    {
      user, token, loading := None, None, true;
      this.storedToken, this.storedUser := storedToken, storedUser;
    }

    /** `getItem('token') && getItem('user')`: both entries are there. */
    predicate HasStoredSession()
      reads this
    {
      TextTruthy(storedToken) && storedUser.Some?
    }

    /** The stored token is still valid and the stored user parses. */
    predicate StoredSessionRestorable(jwtDecode: string -> Option<Claims>, now: real)
      reads this
    {
      HasStoredSession() && StillValidAtMount(jwtDecode(storedToken.value), now) && storedUser.value.UserJson?
    }

    /** `!!token && !!user`: in a valid session the user check adds nothing, and
        only a non-empty token counts. */
    predicate IsAuthenticated()
      reads this
      ensures Valid() ==> (IsAuthenticated() <==> TextTruthy(token))
    {
      TextTruthy(token) && user.Some?
    }

    /** `user && user.role === 'ADMIN'`: it looks at the user only, so in a valid
        session an admin is authenticated unless the token is the empty string. */
    predicate IsAdmin()
      reads this
      ensures Valid() && IsAdmin() ==> IsAuthenticated() || token == Some("")
    {
      user.Some? && user.value.role == Some(AdminRole)
    }

    /** Clears the session and both storage entries. Calling it again changes nothing. */
    method Logout()
      modifies this
      ensures Valid()
      ensures token.None? && user.None? && storedToken.None? && storedUser.None?
      ensures loading == old(loading)
      ensures !IsAuthenticated() && !IsAdmin()
    {
      storedToken := None;
      storedUser := None;
      token := None;
      user := None;
    }

    /** Stores the token and the user when the token decodes and has not expired;
        otherwise returns false and changes nothing. */
    method Login(newToken: Option<string>, userData: User, jwtDecode: string -> Option<Claims>, now: real)
      returns (ok: bool)
      requires Valid()
      modifies this
      ensures Valid()
      ensures ok <==> newToken.Some? && AcceptedAtLogin(jwtDecode(newToken.value), now)
      ensures ok ==>
        token == newToken && user == Some(userData)
        && storedToken == newToken && storedUser == Some(UserJson(userData))
        && loading == old(loading)
      ensures !ok ==> unchanged(this)
    {
      if newToken.None? {
        return false;
      }
      var decoded := jwtDecode(newToken.value);
      if decoded.None? || (decoded.value.exp.Some? && decoded.value.exp.value <= now) {
        return false;
      }
      storedToken := newToken;
      storedUser := Some(UserJson(userData));
      token := newToken;
      user := Some(userData);
      ok := true;
    }

    /** The mount effect: with both storage entries present it restores a session
        whose token is still valid and whose user parses, and logs out otherwise;
        with either entry missing it changes nothing. Loading ends in every case. */
    method Mount(jwtDecode: string -> Option<Claims>, now: real)
      requires Valid()
      modifies this
      ensures Valid() && !loading
      ensures !old(HasStoredSession()) ==>
        token == old(token) && user == old(user)
        && storedToken == old(storedToken) && storedUser == old(storedUser)
      ensures old(StoredSessionRestorable(jwtDecode, now)) ==>
        token == old(storedToken) && user == Some(old(storedUser).value.user)
        && storedToken == old(storedToken) && storedUser == old(storedUser)
      ensures old(HasStoredSession()) && !old(StoredSessionRestorable(jwtDecode, now)) ==>
        token.None? && user.None? && storedToken.None? && storedUser.None?
    {
      if HasStoredSession() {
        var decoded := jwtDecode(storedToken.value);
        if decoded.None? {
          Logout();
        } else if decoded.value.exp.Some? && decoded.value.exp.value > now {
          match storedUser.value
          case UserJson(u) =>
            token := storedToken;
            user := Some(u);
          case Unparsable =>
            Logout();
        } else {
          Logout();
        }
      }
      loading := false;
    }
  }

  /** A token that expires exactly now is refused both at mount and at login. */
  lemma ExpiryAtNowIsExpired(now: real)
    ensures !StillValidAtMount(Some(Claims(Some(now))), now)
    ensures !AcceptedAtLogin(Some(Claims(Some(now))), now)
  {
  }

  /** Whatever the mount effect restores, `login` would also accept; the converse
      fails only for a token without `exp`. */
  lemma MountAndLoginAgree(decoded: Option<Claims>, now: real)
    ensures StillValidAtMount(decoded, now) ==> AcceptedAtLogin(decoded, now)
    ensures AcceptedAtLogin(decoded, now) && !StillValidAtMount(decoded, now) ==>
      decoded.value.exp.None?
  {
  }
}
