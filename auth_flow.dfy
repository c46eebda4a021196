/** What the authentication screens share: the backend calls they make, each
    recorded as a request value whose result is an outcome supplied from
    outside, and the signup/reset flow distinction carried by the route's
    `type` parameter. */
module AuthFlow {
  import opened Js
  import opened Navigation

  datatype AuthRequest =
    | Register(firstName: string, lastName: string, email: string)
    | VerifyOtp(email: string, verificationCode: string)
    | ForgotPassword(email: string)
    | UpdatePassword(email: string, password: string)
    | Login(email: string, password: string)

  /** How an awaited call settled; `message` is the rejected error's `message`,
      absent when the error has none. */
  datatype CallOutcome = Succeeded | Failed(message: Option<string>)

  /** The result of the login call: the token and the user record as its
      `JSON.stringify` text. */
  datatype LoginOutcome =
    | LoggedIn(token: string, userJson: string)
    | LoginFailed(message: Option<string>)

  /** The flow is the password-reset flow when the route's `type` is "reset";
      any other value, or none, is the signup flow. */
  predicate IsReset(flowType: Option<string>) {
    flowType == Some("reset")
  }

  /** Where a screen of the flow sends the user when the e-mail it needs is
      missing. */
  function StartOverRoute(flowType: Option<string>): Route {
    if IsReset(flowType) then Path("/forgot-password") else Path("/signup")
  }
}
