/**
 * The sign-in page's controller (AuthManager): who is signed in, whether
 * Google Sign-In is ready, and the notices the two forms show. Every fetch
 * is replaced by a parameter holding its outcome, and the requests, the
 * Google Identity Services calls and the page changes the controller asks
 * for are recorded in order.
 */
module Auth {

  import opened Wrappers
  import Text

  const SignInEndpoint := "/auth/signin"
  const SignUpEndpoint := "/auth/signup"
  const SignInKind := "signin"

  const PasswordMismatch := "Passwords do not match"
  const PasswordTooShort := "Password must be at least 6 characters"
  const MinPasswordLength := 6
  const AuthFailedFallback := "Authentication failed"

  const SignInSuccess := "Successfully signed in! Redirecting..."
  const SignUpSuccess := "Account created successfully! Redirecting..."
  const VerifyFallback := "Account created! Please check your email to verify your account."
  const ResendSuccess := "Verification email has been resent. Please check your inbox."
  const ResendFallback := "Failed to resend verification email"
  const ResendNetworkError := "Network error. Please try again."
  const GoogleUnavailable := "Google Sign-In is not available. Please use email sign-in."
  const GoogleNotLoaded := "Google Sign-In API not loaded. Please refresh the page and try again."
  const GooglePromptFailed := "Failed to open Google Sign-In. Please try again or use email sign-in."
  const GoogleSuccess := "Successfully signed in with Google! Redirecting..."
  const GoogleFailure := "Failed to sign in with Google. Please try again."

  /** How many times setGoogleClientId looks for the Google library. */
  const MaxAttempts := 10

  /** The user object the server returns; its fields are carried, not interpreted. */
  datatype User = User(id: string, name: string, email: string)

  /**
   * A JavaScript value where a user is expected: `null`, `undefined` (a
   * response without a `user` field), or a user object.
   */
  datatype UserValue = Null | Undefined | Known(user: User)

  datatype Form = SignIn | SignUp
  datatype NoticeKind = ErrorNotice | SuccessNotice

  /** One of the four notice elements: auth-error, auth-success, signup-error, signup-success. */
  datatype Notice = Notice(kind: NoticeKind, form: Form)

  datatype AuthBody =
    | Credentials(email: string, password: string)
    | Registration(email: string, password: string, name: Option<string>)

  datatype Request =
    | AuthPost(endpoint: string, body: AuthBody)
    | GooglePost(credential: string)
    | ResendPost(email: string)
    | SignOutPost

  datatype GoogleCall = Initialize(clientId: string) | Prompt | DisableAutoSelect

  /** The page changes asked for: to the app after a sign-in, back to the sign-in page after a sign-out. */
  datatype Page = AppPage | AuthPage

  /** The fields of a JSON reply from the /auth routes that the controller reads. */
  datatype AuthData = AuthData(
    user: UserValue,
    error: Option<string>,
    verificationRequired: bool,
    message: Option<string>,
    success: bool)

  /**
   * How a fetch ends: a response (its `ok` flag and its parsed body), or a
   * rejected promise (no connection, a body that is not JSON) with its message.
   */
  datatype Reply = Responded(ok: bool, data: AuthData) | NetworkFailure(reason: string)

  /** The Error callAuthAPI throws: its message and its `verification_required` flag. */
  datatype AuthError = AuthError(message: string, verificationRequired: bool)

  /**
   * callAuthAPI's request: the sign-in endpoint with the credentials for the
   * type "signin", the sign-up endpoint with the name as well for any other.
   */
  function AuthRequestFor(email: string, password: string, kind: string, name: Option<string>): (req: Request)
    ensures req.AuthPost?
    ensures req.endpoint == SignInEndpoint <==> kind == SignInKind
    ensures req.body.email == email && req.body.password == password
    ensures req.body.Registration? ==> req.body.name == name
  {
    if kind == SignInKind then AuthPost(SignInEndpoint, Credentials(email, password))
    else AuthPost(SignUpEndpoint, Registration(email, password, name))
  }

  /** The endpoint and the body always agree: the credentials go to sign-in, a registration to sign-up. */
  lemma AuthRequestConsistent(email: string, password: string, kind: string, name: Option<string>)
    ensures var req := AuthRequestFor(email, password, kind, name);
            req.body.Credentials? <==> req.endpoint == SignInEndpoint
  {
  }

  /**
   * callAuthAPI's result: the body of an ok response, or the Error it throws,
   * whose message is the body's `error` (or the fallback) and which carries
   * `verification_required` only when the body says so. A rejected fetch
   * passes its own error through.
   */
  function InterpretAuthReply(reply: Reply): (r: Result<AuthData, AuthError>)
    ensures r.Success? <==> reply.Responded? && reply.ok
    ensures r.Success? ==> r.value == reply.data
    ensures r.Failure? && reply.Responded? ==> r.error.message != ""
    ensures r.Failure? && reply.Responded? && reply.data.error.None? ==> r.error.message == AuthFailedFallback
    ensures r.Failure? && reply.Responded? ==> r.error.message == Text.OrElse(reply.data.error, AuthFailedFallback)
    ensures reply.NetworkFailure? ==> r == Failure(AuthError(reply.reason, false))
    ensures r.Failure? ==> (r.error.verificationRequired <==> reply.Responded? && reply.data.verificationRequired)
  {
    match reply
    case NetworkFailure(reason) => Failure(AuthError(reason, false))
    case Responded(ok, data) =>
      if ok then Success(data)
      else Failure(AuthError(Text.OrElse(data.error, AuthFailedFallback), data.verificationRequired))
  }

  /**
   * handleEmailSignUp's local checks, in order: the passwords must match,
   * then the password must be at least 6 UTF-16 code units long. None means
   * the form may be sent.
   */
  function SignUpCheck(password: string, confirm: string): (error: Option<string>)
    ensures password != confirm ==> error == Some(PasswordMismatch)
    ensures password == confirm ==> (error.None? <==> Text.Utf16Length(password) >= MinPasswordLength)
    ensures password == confirm && Text.Utf16Length(password) < MinPasswordLength ==> error == Some(PasswordTooShort)
    ensures error.Some? ==> error.value == PasswordMismatch || error.value == PasswordTooShort
  {
    if password != confirm then Some(PasswordMismatch)
    else if Text.Utf16Length(password) < MinPasswordLength then Some(PasswordTooShort)
    else None
  }

  class AuthManager {
    var currentUser: UserValue
    var googleInitialized: bool
    var googleClientId: Option<string>
    /** The notices shown, with their text; an element not in the map is hidden and empty. */
    var notices: map<Notice, string>
    /** The address the "resend verification email" link is offered for, if it is shown. */
    var resendOfferedTo: Option<string>
    /** The requests issued, in order. */
    var requests: seq<Request>
    /** The Google Identity Services calls made, in order. */
    var googleCalls: seq<GoogleCall>
    /** The page changes asked for, in order. */
    var navigations: seq<Page>

    /**
     * A controller for `clientId`, on a page where a previous visit saved
     * `restored` (Null when nothing was saved), `googleLoaded` says whether
     * the Google library is present and `initThrows` whether its
     * initialize call throws.
     */
    constructor (clientId: Option<string>, restored: UserValue, googleLoaded: bool, initThrows: bool)
      ensures currentUser == restored && googleClientId == clientId
      ensures googleInitialized <==> googleLoaded && Text.Truthy(clientId) && !initThrows
      ensures googleCalls == if googleLoaded && Text.Truthy(clientId) then [Initialize(clientId.value)] else []
      ensures notices == map[] && resendOfferedTo.None? && requests == [] && navigations == []
    {
      currentUser := Null;
      googleInitialized := false;
      googleClientId := clientId;
      notices := map[];
      resendOfferedTo := None;
      requests := [];
      googleCalls := [];
      navigations := [];
      new;
      InitializeAuth(restored, googleLoaded, initThrows);
    }

    /** initializeAuth: the saved user, if any, then Google Sign-In when there is a client id. */
    method InitializeAuth(restored: UserValue, googleLoaded: bool, initThrows: bool)
      modifies this`currentUser, this`googleInitialized, this`googleCalls
      ensures currentUser == if restored.Null? then old(currentUser) else restored
      ensures googleInitialized <==> old(googleInitialized) || (googleLoaded && Text.Truthy(googleClientId) && !initThrows)
      ensures googleCalls == old(googleCalls) +
                (if googleLoaded && Text.Truthy(googleClientId) then [Initialize(googleClientId.value)] else [])
    {
      if !restored.Null? {
        currentUser := restored;
      }
      if Text.Truthy(googleClientId) {
        InitializeGoogleSignIn(googleLoaded, initThrows);
      }
    }

    /**
     * initializeGoogleSignIn: nothing without the library or a client id;
     * otherwise the library is initialized, and the flag is set unless that
     * call throws.
     */
    method InitializeGoogleSignIn(googleLoaded: bool, initThrows: bool)
      modifies this`googleInitialized, this`googleCalls
      ensures googleInitialized <==> old(googleInitialized) || (googleLoaded && Text.Truthy(googleClientId) && !initThrows)
      ensures googleCalls == old(googleCalls) +
                (if googleLoaded && Text.Truthy(googleClientId) then [Initialize(googleClientId.value)] else [])
    {
      if !googleLoaded {
        return;
      }
      if !Text.Truthy(googleClientId) {
        return;
      }
      googleCalls := googleCalls + [Initialize(googleClientId.value)];
      if !initThrows {
        googleInitialized := true;
      }
    }

    /**
     * setGoogleClientId: stores the id, then looks for the library up to ten
     * times (`loadedAt(i)` says whether it is there at attempt i) and
     * initializes Google Sign-In at the first attempt that finds it, when
     * the id is usable.
     */
    method SetGoogleClientId(clientId: Option<string>, loadedAt: nat -> bool, initThrows: bool)
      modifies this`googleClientId, this`googleInitialized, this`googleCalls
      ensures googleClientId == clientId
      ensures googleInitialized <==>
                old(googleInitialized) ||
                (Text.Truthy(clientId) && !initThrows && exists i | 0 <= i < MaxAttempts :: loadedAt(i))
      ensures googleCalls == old(googleCalls) +
                (if Text.Truthy(clientId) && exists i | 0 <= i < MaxAttempts :: loadedAt(i)
                 then [Initialize(clientId.value)] else [])
    {
      googleClientId := clientId;
      var attempts := 0;
      while attempts < MaxAttempts
        invariant 0 <= attempts <= MaxAttempts
        invariant googleClientId == clientId
        invariant Text.Truthy(clientId) ==> forall i | 0 <= i < attempts :: !loadedAt(i)
        invariant googleInitialized == old(googleInitialized) && googleCalls == old(googleCalls)
      {
        if loadedAt(attempts) && Text.Truthy(clientId) {
          InitializeGoogleSignIn(true, initThrows);
          return;
        }
        attempts := attempts + 1;
      }
    }

    /** clearMessages: every notice hidden and emptied. */
    method ClearMessages()
      modifies this`notices
      ensures notices == map[]
    {
      notices := map[];
    }

    method ShowError(message: string, form: Form)
      modifies this`notices
      ensures notices == old(notices)[Notice(ErrorNotice, form) := message]
    {
      notices := notices[Notice(ErrorNotice, form) := message];
    }

    method ShowSuccess(message: string, form: Form)
      modifies this`notices
      ensures notices == old(notices)[Notice(SuccessNotice, form) := message]
    {
      notices := notices[Notice(SuccessNotice, form) := message];
    }

    /** callAuthAPI: one request to the endpoint the type selects; its reply read as InterpretAuthReply says. */
    method CallAuthApi(email: string, password: string, kind: string, name: Option<string>, reply: Reply)
      returns (r: Result<AuthData, AuthError>)
      modifies this`requests
      ensures requests == old(requests) + [AuthRequestFor(email, password, kind, name)]
      ensures r == InterpretAuthReply(reply)
    {
      requests := requests + [AuthRequestFor(email, password, kind, name)];
      r := InterpretAuthReply(reply);
    }

    /**
     * setCurrentUser (its copy in localStorage is not modelled): getCurrentUser
     * then returns exactly the value set, and the controller counts as signed
     * in unless that value is null.
     */
    method SetCurrentUser(user: UserValue)
      modifies this`currentUser
      ensures GetCurrentUser() == user
      ensures IsAuthenticated() <==> !user.Null?
    {
      currentUser := user;
    }

    /** getCurrentUser. */
    function GetCurrentUser(): UserValue
      reads this
    {
      currentUser
    }

    /** isAuthenticated: anything but null counts, `undefined` included. */
    function IsAuthenticated(): bool
      reads this
    {
      currentUser != Null
    }

    /** showResendVerificationOption: the link, replacing any earlier one, now resends to `email`. */
    method ShowResendVerificationOption(email: string)
      modifies this`resendOfferedTo
      ensures resendOfferedTo == Some(email)
    {
      resendOfferedTo := Some(email);
    }

    /**
     * handleEmailSignIn: the notices are cleared and the credentials sent. On
     * success the server's user is signed in, a success notice shows and the
     * app page follows; on failure the user is left as it was, the error
     * shows, and the resend link is offered when the server asks for a
     * verification.
     */
    method HandleEmailSignIn(email: string, password: string, reply: Reply)
      modifies this`notices, this`requests, this`currentUser, this`resendOfferedTo, this`navigations
      ensures requests == old(requests) + [AuthPost(SignInEndpoint, Credentials(email, password))]
      ensures reply.Responded? && reply.ok ==>
                && currentUser == reply.data.user
                && notices == map[Notice(SuccessNotice, SignIn) := SignInSuccess]
                && navigations == old(navigations) + [AppPage]
                && resendOfferedTo == old(resendOfferedTo)
      ensures !(reply.Responded? && reply.ok) ==>
                && currentUser == old(currentUser)
                && notices == map[Notice(ErrorNotice, SignIn) := InterpretAuthReply(reply).error.message]
                && navigations == old(navigations)
                && resendOfferedTo ==
                     (if InterpretAuthReply(reply).error.verificationRequired then Some(email) else old(resendOfferedTo))
    {
      ClearMessages();
      var result := CallAuthApi(email, password, SignInKind, None, reply);
      match result {
        case Success(data) =>
          SetCurrentUser(data.user);
          ShowSuccess(SignInSuccess, SignIn);
          navigations := navigations + [AppPage];
        case Failure(error) =>
          if error.verificationRequired {
            ShowError(error.message, SignIn);
            ShowResendVerificationOption(email);
          } else {
            ShowError(error.message, SignIn);
          }
      }
    }

    /**
     * handleEmailSignUp: the notices are cleared; a failed local check shows
     * its error and sends nothing. Otherwise the registration is sent: a
     * reply asking for verification shows its message and offers the resend
     * link without signing anyone in; any other success signs the server's
     * user in and leads to the app page; a failure shows its error.
     */
    method HandleEmailSignUp(name: string, email: string, password: string, confirm: string, reply: Reply)
      modifies this`notices, this`requests, this`currentUser, this`resendOfferedTo, this`navigations
      ensures SignUpCheck(password, confirm).Some? ==>
                && notices == map[Notice(ErrorNotice, SignUp) := SignUpCheck(password, confirm).value]
                && requests == old(requests)
                && currentUser == old(currentUser) && resendOfferedTo == old(resendOfferedTo)
                && navigations == old(navigations)
      ensures SignUpCheck(password, confirm).None? ==>
                requests == old(requests) + [AuthPost(SignUpEndpoint, Registration(email, password, Some(name)))]
      ensures SignUpCheck(password, confirm).None? && reply.Responded? && reply.ok ==>
                if reply.data.verificationRequired then
                  && currentUser == old(currentUser)
                  && notices == map[Notice(SuccessNotice, SignUp) := Text.OrElse(reply.data.message, VerifyFallback)]
                  && resendOfferedTo == Some(email)
                  && navigations == old(navigations)
                else
                  && currentUser == reply.data.user
                  && notices == map[Notice(SuccessNotice, SignUp) := SignUpSuccess]
                  && resendOfferedTo == old(resendOfferedTo)
                  && navigations == old(navigations) + [AppPage]
      ensures SignUpCheck(password, confirm).None? && !(reply.Responded? && reply.ok) ==>
                && currentUser == old(currentUser)
                && notices == map[Notice(ErrorNotice, SignUp) := InterpretAuthReply(reply).error.message]
                && resendOfferedTo == old(resendOfferedTo)
                && navigations == old(navigations)
    {
      ClearMessages();
      var check := SignUpCheck(password, confirm);
      if check.Some? {
        ShowError(check.value, SignUp);
        return;
      }
      var result := CallAuthApi(email, password, "signup", Some(name), reply);
      match result {
        case Success(data) =>
          if data.verificationRequired {
            ShowSuccess(Text.OrElse(data.message, VerifyFallback), SignUp);
            ShowResendVerificationOption(email);
          } else {
            SetCurrentUser(data.user);
            ShowSuccess(SignUpSuccess, SignUp);
            navigations := navigations + [AppPage];
          }
        case Failure(error) =>
          ShowError(error.message, SignUp);
      }
    }

    /**
     * resendVerificationEmail: one request; the body's `success` flag decides
     * the notice (the status code is not looked at), and a rejected fetch
     * shows the network error.
     */
    method ResendVerificationEmail(email: string, reply: Reply)
      modifies this`notices, this`requests
      ensures requests == old(requests) + [ResendPost(email)]
      ensures reply.Responded? && reply.data.success ==>
                notices == old(notices)[Notice(SuccessNotice, SignUp) := ResendSuccess]
      ensures reply.Responded? && !reply.data.success ==>
                notices == old(notices)[Notice(ErrorNotice, SignUp) := Text.OrElse(reply.data.error, ResendFallback)]
      ensures reply.NetworkFailure? ==> notices == old(notices)[Notice(ErrorNotice, SignUp) := ResendNetworkError]
    {
      requests := requests + [ResendPost(email)];
      match reply {
        case NetworkFailure(_) =>
          ShowError(ResendNetworkError, SignUp);
        case Responded(_, data) =>
          if data.success {
            ShowSuccess(ResendSuccess, SignUp);
          } else {
            ShowError(Text.OrElse(data.error, ResendFallback), SignUp);
          }
      }
    }

    /**
     * initiateGoogleSignIn: without an initialized library and a client id,
     * or without the library itself, an error shows and no prompt opens;
     * otherwise the prompt opens, and an error shows if it throws.
     */
    method InitiateGoogleSignIn(googleLoaded: bool, promptThrows: bool)
      modifies this`notices, this`googleCalls
      ensures !(googleInitialized && Text.Truthy(googleClientId)) ==>
                notices == old(notices)[Notice(ErrorNotice, SignIn) := GoogleUnavailable] && googleCalls == old(googleCalls)
      ensures googleInitialized && Text.Truthy(googleClientId) && !googleLoaded ==>
                notices == old(notices)[Notice(ErrorNotice, SignIn) := GoogleNotLoaded] && googleCalls == old(googleCalls)
      ensures googleInitialized && Text.Truthy(googleClientId) && googleLoaded ==>
                && googleCalls == old(googleCalls) + [Prompt]
                && notices == if promptThrows then old(notices)[Notice(ErrorNotice, SignIn) := GooglePromptFailed]
                              else old(notices)
    {
      if !googleInitialized || !Text.Truthy(googleClientId) {
        ShowError(GoogleUnavailable, SignIn);
        return;
      }
      if !googleLoaded {
        ShowError(GoogleNotLoaded, SignIn);
        return;
      }
      googleCalls := googleCalls + [Prompt];
      if promptThrows {
        ShowError(GooglePromptFailed, SignIn);
      }
    }

    /**
     * handleGoogleSignIn: the credential goes to the server; an ok reply signs
     * its user in and leads to the app page, anything else shows one fixed
     * error and leaves the user as it was.
     */
    method HandleGoogleSignIn(credential: string, reply: Reply)
      modifies this`notices, this`requests, this`currentUser, this`navigations
      ensures requests == old(requests) + [GooglePost(credential)]
      ensures reply.Responded? && reply.ok ==>
                && currentUser == reply.data.user
                && notices == old(notices)[Notice(SuccessNotice, SignIn) := GoogleSuccess]
                && navigations == old(navigations) + [AppPage]
      ensures !(reply.Responded? && reply.ok) ==>
                && currentUser == old(currentUser)
                && notices == old(notices)[Notice(ErrorNotice, SignIn) := GoogleFailure]
                && navigations == old(navigations)
    {
      requests := requests + [GooglePost(credential)];
      if reply.Responded? && reply.ok {
        SetCurrentUser(reply.data.user);
        ShowSuccess(GoogleSuccess, SignIn);
        navigations := navigations + [AppPage];
      } else {
        ShowError(GoogleFailure, SignIn);
      }
    }

    /**
     * signOut: the request is sent and, whether it fails or not, the user is
     * cleared, Google's auto-select is disabled when it was set up and
     * loaded, and the sign-in page follows.
     */
    method SignOut(googleLoaded: bool, requestFails: bool)
      modifies this`requests, this`currentUser, this`googleCalls, this`navigations
      ensures currentUser == Null && !IsAuthenticated()
      ensures requests == old(requests) + [SignOutPost]
      ensures googleCalls == old(googleCalls) + (if googleInitialized && googleLoaded then [DisableAutoSelect] else [])
      ensures navigations == old(navigations) + [AuthPage]
    {
      requests := requests + [SignOutPost];
      // A failed request is caught and logged; what follows runs either way.
      currentUser := Null;
      if googleInitialized && googleLoaded {
        googleCalls := googleCalls + [DisableAutoSelect];
      }
      navigations := navigations + [AuthPage];
    }
  }

  /**
   * The currentUser lifecycle on a fresh page: an ok sign-in whose reply
   * carries a user authenticates, and a sign-out afterwards always ends
   * unauthenticated, whatever its own request does.
   */
  method SignInThenSignOut(email: string, password: string, reply: Reply, requestFails: bool)
    returns (afterSignIn: UserValue, authenticated: bool, authenticatedAfterSignOut: bool)
    ensures reply.Responded? && reply.ok ==> afterSignIn == reply.data.user
    ensures !(reply.Responded? && reply.ok) ==> afterSignIn == Null
    ensures authenticated <==> reply.Responded? && reply.ok && !reply.data.user.Null?
    ensures !authenticatedAfterSignOut
  {
    var manager := new AuthManager(None, Null, false, false);
    manager.HandleEmailSignIn(email, password, reply);
    afterSignIn := manager.GetCurrentUser();
    authenticated := manager.IsAuthenticated();
    manager.SignOut(false, requestFails);
    authenticatedAfterSignOut := manager.IsAuthenticated();
  }
}
