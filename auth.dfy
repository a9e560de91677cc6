/** src/contexts/AuthContext.tsx: the session state the provider keeps and
    the transitions of login, admin login, registration, logout and the
    start-up check. The auth service's answer is a parameter; the browser's
    stored token is the field `storedToken`. */
module AuthContext {
  import opened Base

  datatype SessionUser = SessionUser(name: string, email: string, role: string)

  /** How an auth call failed: an HTTP error whose body carries `message`
      ("" when absent), another `Error`, or anything else thrown. */
  datatype AuthFailure = HttpError(message: string) | ClientError(message: string) | UnknownError

  datatype AuthReply = Authenticated(user: SessionUser, token: string) | Failed(failure: AuthFailure)

  /** The message a failed call leaves in `error`. */
  function ErrorMessage(f: AuthFailure, fallback: string, unknown: string): string
  {
    match f
    case HttpError(m) => MessageOr(m, fallback)
    case ClientError(m) => m
    case UnknownError => unknown
  }

  /** A server message wins over the call's fallback, which shows only when
      the server sent none; a thrown non-error shows the unknown-error text;
      so with non-empty fallbacks the error shown is never empty unless a
      client error carried an empty message. */
  lemma ErrorMessageFallbacks(f: AuthFailure, fallback: string, unknown: string)
    ensures f.HttpError? ==>
      ErrorMessage(f, fallback, unknown) == (if f.message == "" then fallback else f.message)
    ensures f.ClientError? ==> ErrorMessage(f, fallback, unknown) == f.message
    ensures f.UnknownError? ==> ErrorMessage(f, fallback, unknown) == unknown
    ensures fallback != "" && unknown != "" && !(f.ClientError? && f.message == "") ==>
      ErrorMessage(f, fallback, unknown) != ""
  {
  }

  /** `useAuth`: the context, or the error thrown outside the provider. */
  function UseAuth<T>(context: Option<T>): Result<T, string>
  {
    if context.None? then Failure("useAuth must be used within an AuthProvider") else Success(context.value)
  }

  lemma UseAuthOutsideProvider<T>(context: Option<T>)
    ensures UseAuth(context).Failure? <==> context.None?
    ensures context.Some? ==> UseAuth(context) == Success(context.value)
  {
  }

  /** `if (storedToken)`: a missing or empty stored string is falsy. */
  predicate Truthy(stored: Option<string>)
  {
    stored.Some? && stored.value != ""
  }

  class AuthProvider {
    var user: Option<SessionUser>
    var token: Option<string>
    var isAdmin: bool
    var loading: bool
    var error: Option<string>
    /** `localStorage` under the key 'token'. */
    var storedToken: Option<string>

    /** An admin flag implies a signed-in user, and a user implies a token. */
    ghost predicate Valid()
      reads this
    {
      (isAdmin ==> user.Some?) && (user.Some? ==> token.Some?)
    }

    constructor (stored: Option<string>)
      ensures user == None && token == None && !isAdmin && loading && error == None
      ensures storedToken == stored
      ensures Valid()
    {
      user, token, isAdmin, loading, error := None, None, false, true, None;
      storedToken := stored;
    }

    /** The start-up check: a stored token that is present and non-empty
        (JavaScript's truthiness of a string) is adopted and the current
        user looked up; a failed lookup is only logged. */
    method CheckAuth(current: Result<SessionUser, AuthFailure>)
      requires Valid()
      modifies this
      ensures Valid() && !loading
      ensures storedToken == old(storedToken) && error == old(error)
      ensures !Truthy(old(storedToken)) ==> user == old(user) && token == old(token) && isAdmin == old(isAdmin)
      ensures Truthy(old(storedToken)) ==> token == old(storedToken)
      ensures Truthy(old(storedToken)) && current.Success? ==>
        user == Some(current.value) && isAdmin == (current.value.role == "admin")
      ensures Truthy(old(storedToken)) && current.Failure? ==> user == old(user) && isAdmin == old(isAdmin)
    {
      loading := true;
      if storedToken.Some? && storedToken.value != "" {
        token := storedToken;
        if current.Success? {
          user := Some(current.value);
          isAdmin := current.value.role == "admin";
        }
      }
      loading := false;
    }

    method Login(reply: AuthReply) returns (result: Result<SessionUser, AuthFailure>)
      requires Valid()
      modifies this
      ensures Valid() && !loading
      ensures reply.Authenticated? ==>
        && result == Success(reply.user)
        && user == Some(reply.user) && token == Some(reply.token) && storedToken == Some(reply.token)
        && isAdmin == (reply.user.role == "admin") && error == None
      ensures reply.Failed? ==>
        && result == Failure(reply.failure)
        && user == old(user) && token == old(token) && storedToken == old(storedToken) && isAdmin == old(isAdmin)
        && error == Some(ErrorMessage(reply.failure, "Login failed", "An unknown error occurred during login."))
    {
      loading := true;
      error := None;
      match reply {
      case Authenticated(u, t) =>
        storedToken := Some(t);
        token := Some(t);
        user := Some(u);
        isAdmin := u.role == "admin";
        result := Success(u);
      case Failed(f) =>
        error := Some(ErrorMessage(f, "Login failed", "An unknown error occurred during login."));
        result := Failure(f);
      }
      loading := false;
    }

    /** As `Login`, but the session is an admin one whatever role the answer
        reports. */
    method AdminLogin(reply: AuthReply) returns (result: Result<SessionUser, AuthFailure>)
      requires Valid()
      modifies this
      ensures Valid() && !loading
      ensures reply.Authenticated? ==>
        && result == Success(reply.user)
        && user == Some(reply.user) && token == Some(reply.token) && storedToken == Some(reply.token)
        && isAdmin && error == None
      ensures reply.Failed? ==>
        && result == Failure(reply.failure)
        && user == old(user) && token == old(token) && storedToken == old(storedToken) && isAdmin == old(isAdmin)
        && error == Some(ErrorMessage(reply.failure, "Admin login failed", "An unknown error occurred during admin login."))
    {
      loading := true;
      error := None;
      match reply {
      case Authenticated(u, t) =>
        storedToken := Some(t);
        token := Some(t);
        user := Some(u);
        isAdmin := true;
        result := Success(u);
      case Failed(f) =>
        error := Some(ErrorMessage(f, "Admin login failed", "An unknown error occurred during admin login."));
        result := Failure(f);
      }
      loading := false;
    }

    /** As `Login`, but the admin flag is left as it was. */
    method Register(reply: AuthReply) returns (result: Result<SessionUser, AuthFailure>)
      requires Valid()
      modifies this
      ensures Valid() && !loading && isAdmin == old(isAdmin)
      ensures reply.Authenticated? ==>
        && result == Success(reply.user)
        && user == Some(reply.user) && token == Some(reply.token) && storedToken == Some(reply.token)
        && error == None
      ensures reply.Failed? ==>
        && result == Failure(reply.failure)
        && user == old(user) && token == old(token) && storedToken == old(storedToken)
        && error == Some(ErrorMessage(reply.failure, "Registration failed", "An unknown error occurred during registration."))
    {
      loading := true;
      error := None;
      match reply {
      case Authenticated(u, t) =>
        storedToken := Some(t);
        token := Some(t);
        user := Some(u);
        result := Success(u);
      case Failed(f) =>
        error := Some(ErrorMessage(f, "Registration failed", "An unknown error occurred during registration."));
        result := Failure(f);
      }
      loading := false;
    }

    method Logout()
      modifies this
      ensures Valid()
      ensures user == None && token == None && storedToken == None && !isAdmin
      ensures loading == old(loading) && error == old(error)
    {
      storedToken := None;
      token := None;
      user := None;
      isAdmin := false;
    }
  }
}
