/** The login screen: the message handed over by the set-password screen,
    the sign-in call, the stored session and the redirect afterwards. */
module Login {
  import opened Js
  import opened Storage
  import opened Navigation
  import opened AuthFlow

  const MissingCredentialsMessage := "Please enter both email and password"
  const LoginFallbackMessage := "Login failed. Please check your credentials."
  /** Where a signed-in user goes when the route names no redirect. */
  const HomePath := "/(tabs)"

  /** The redirect after signing in: the route's `redirect` parameter unless
      it is missing or empty. */
  function RedirectTarget(redirectParam: Option<string>): (p: string)
    ensures Truthy(redirectParam) ==> p == redirectParam.value
    ensures !Truthy(redirectParam) ==> p == HomePath
    ensures p != ""
  {
    OrElse(redirectParam, HomePath)
  }

  class LoginScreen {
    var email: string
    var password: string
    var error: string
    var successMessage: string
    var requests: seq<AuthRequest>
    var navigations: seq<NavRequest>
    const store: KeyValueStore
    /** The route's `redirect` parameter. */
    const redirectParam: Option<string>

    /** The screen opens showing the route's `message` parameter, if any. */
    constructor (store: KeyValueStore, messageParam: Option<string>, redirectParam: Option<string>)
      ensures this.store == store && this.redirectParam == redirectParam
      ensures Truthy(messageParam) ==> successMessage == messageParam.value
      ensures !Truthy(messageParam) ==> successMessage == ""
      ensures email == "" && password == "" && error == ""
      ensures requests == [] && navigations == []
    {
      this.store, this.redirectParam := store, redirectParam;
      successMessage := OrElse(messageParam, "");
      email, password, error := "", "", "";
      requests, navigations := [], [];
    }

    /** The inputs are plain setters: typing does not clear the error. */
    method EditEmail(text: string)
      modifies this`email
      ensures email == text
    {
      email := text;
    }

    method EditPassword(text: string)
      modifies this`password
      ensures password == text
    {
      password := text;
    }

    /** `handleLogin`: both messages are cleared first; an empty address or
        password makes no call; a successful sign-in stores the token and the
        user record and then navigates to the redirect target; a failure
        shows its message and stores nothing. */
    method Submit(outcome: LoginOutcome)
      modifies this`error, this`successMessage, this`requests, this`navigations, store
      ensures successMessage == ""
      ensures old(email) == "" || old(password) == "" ==>
                error == MissingCredentialsMessage && requests == old(requests) &&
                navigations == old(navigations) && store.entries == old(store.entries)
      ensures old(email) != "" && old(password) != "" ==>
                requests == old(requests) + [Login(old(email), old(password))]
      ensures old(email) != "" && old(password) != "" && outcome.LoggedIn? ==>
                error == "" &&
                store.entries == old(store.entries)[AuthTokenKey := outcome.token][UserKey := outcome.userJson] &&
                navigations == old(navigations) + [Navigate(Path(RedirectTarget(redirectParam)), 0)]
      ensures old(email) != "" && old(password) != "" && outcome.LoginFailed? ==>
                error == OrElse(outcome.message, LoginFallbackMessage) &&
                store.entries == old(store.entries) && navigations == old(navigations)
    {
      error, successMessage := "", "";
      if email == "" || password == "" {
        error := MissingCredentialsMessage;
        return;
      }
      requests := requests + [Login(email, password)];
      match outcome
      case LoggedIn(token, userJson) =>
        store.SetItem(AuthTokenKey, token);
        store.SetItem(UserKey, userJson);
        navigations := navigations + [Navigate(Path(RedirectTarget(redirectParam)), 0)];
      case LoginFailed(message) =>
        error := OrElse(message, LoginFallbackMessage);
    }
  }
}
