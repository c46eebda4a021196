/** How the authentication screens hand over to each other through the stored
    addresses and the route parameters: signup or forgot-password, then OTP
    verification, then set-password, then login, and the session the REST
    client sees afterwards. */
module AuthJourney {
  import opened Js
  import opened Storage
  import opened Navigation
  import opened AuthFlow
  import opened ApiClient
  import VerifyOtp
  import SetPassword
  import ForgotPassword

  /** The address OTP verification settles on for the stored entries and the
      route's `email` parameter. */
  function AddressForVerification(entries: map<string, string>, emailParam: Option<string>): string {
    VerifyOtp.ResolveEmail(Lookup(entries, SignupEmailKey), Lookup(entries, ResetPasswordEmailKey), emailParam)
  }

  /** After a successful signup the verification screen works on the address
      just registered, whatever the route says. */
  lemma SignupHandsOverAddress(entries: map<string, string>, email: string, emailParam: Option<string>)
    requires email != ""
    ensures AddressForVerification(entries[SignupEmailKey := email], emailParam) == email
  {
  }

  /** After a reset request the verification screen works on the reset
      address only when no signup address is left in storage: a signup
      address stored earlier and never cleared takes precedence over both the
      stored reset address and the route's `email` parameter. */
  lemma StaleSignupAddressWins(entries: map<string, string>, email: string)
    requires email != ""
    ensures var after := entries[ResetPasswordEmailKey := email];
            var param := Some(ForgotPassword.ResetVerifyRoute(email).query[0].1);
            (Truthy(Lookup(entries, SignupEmailKey)) ==>
               AddressForVerification(after, param) == entries[SignupEmailKey]) &&
            (!Truthy(Lookup(entries, SignupEmailKey)) ==> AddressForVerification(after, param) == email)
  {
  }

  /** The reset request opens verification in the reset flow, which leads on
      to set-password in the reset flow. */
  lemma ResetRouteStaysInResetFlow(email: string)
    ensures var route := ForgotPassword.ResetVerifyRoute(email);
            IsReset(Some(route.query[1].1)) &&
            VerifyOtp.VerifiedRoute(Some(route.query[1].1)).query == [("type", "reset")]
  {
  }

  /** After a successful verification, set-password finds the verified
      address, and no other flow address is left. */
  lemma VerificationHandsOverAddress(entries: map<string, string>, email: string)
    ensures Lookup(VerifyOtp.AfterVerified(entries, email), VerifiedEmailKey) == Some(email)
    ensures Lookup(VerifyOtp.AfterVerified(entries, email), SignupEmailKey).None?
    ensures Lookup(VerifyOtp.AfterVerified(entries, email), ResetPasswordEmailKey).None?
  {
  }

  /** Setting the password removes every flow address and leaves the rest of
      the store, the session included, as it was. */
  lemma PasswordSetEndsFlow(entries: map<string, string>)
    ensures var after := entries - SetPassword.FlowKeys;
            Lookup(after, VerifiedEmailKey).None? && Lookup(after, SignupEmailKey).None? &&
            Lookup(after, ResetPasswordEmailKey).None? &&
            Lookup(after, AuthTokenKey) == Lookup(entries, AuthTokenKey) &&
            Lookup(after, UserKey) == Lookup(entries, UserKey)
  {
    var after := entries - SetPassword.FlowKeys;
    assert AuthTokenKey !in SetPassword.FlowKeys && UserKey !in SetPassword.FlowKeys;
  }

  /** The login screen opens with the message set-password sends, since that
      message is never empty. */
  lemma LoginShowsDoneMessage(flowType: Option<string>)
    ensures var route := SetPassword.LoginRoute(flowType);
            OrElse(Some(route.query[0].1), "") == SetPassword.DoneMessage(flowType)
  {
  }

  /** After signing in, requests carry the token; after a 401 the token and
      the user record are gone, so requests go out without it. */
  lemma SessionLifecycle(entries: map<string, string>, token: string, userJson: string, e: HttpError)
    requires ClearsSession(e)
    ensures Lookup(entries[AuthTokenKey := token][UserKey := userJson], AuthTokenKey) == Some(token)
    ensures var after := SessionAfter(entries[AuthTokenKey := token][UserKey := userJson], e);
            Lookup(after, AuthTokenKey).None? && Lookup(after, UserKey).None?
  {
    assert AuthTokenKey != UserKey;
  }
}
