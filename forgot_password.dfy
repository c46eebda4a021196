/** The forgot-password screen: it checks the address, asks for a reset code,
    stores the address as `resetPasswordEmail` and moves on to OTP
    verification in the reset flow after a two-second pause. */
module ForgotPassword {
  import opened Js
  import opened EmailPattern
  import opened Storage
  import opened Navigation
  import opened AuthFlow

  const InvalidAddressMessage := "Please enter a valid email address"
  const ResetFallbackMessage := "Failed to send reset code. Please try again."
  /** The pause, in milliseconds, before the verification screen opens. */
  const RedirectDelay := 2000

  /** `/verify-otp?email=...&type=reset`, the address kept unencoded. */
  function ResetVerifyRoute(email: string): (r: Route)
    ensures r.path == "/verify-otp"
    ensures r.query == [("email", email), ("type", "reset")]
  {
    Route("/verify-otp", [("email", email), ("type", "reset")])
  }

  class ForgotPasswordScreen {
    var email: string
    var error: string
    var success: bool
    var requests: seq<AuthRequest>
    var navigations: seq<NavRequest>
    const store: KeyValueStore

    constructor (store: KeyValueStore)
      ensures this.store == store
      ensures email == "" && error == "" && !success
      ensures requests == [] && navigations == []
    {
      this.store := store;
      email, error, success := "", "", false;
      requests, navigations := [], [];
    }

    /** Typing clears the error. */
    method EditEmail(text: string)
      modifies this`email, this`error
      ensures email == text && error == ""
    {
      email := text;
      if error != "" {
        error := "";
      }
    }

    /** The request part of `handleSubmit`: one reset-code request; success
        stores the address, raises the success flag and schedules the move to
        verification, a failure shows its message. */
    method RequestReset(address: string, outcome: CallOutcome)
      modifies this`error, this`success, this`requests, this`navigations, store
      ensures requests == old(requests) + [ForgotPassword(address)]
      ensures outcome.Succeeded? ==>
                error == old(error) && success &&
                store.entries == old(store.entries)[ResetPasswordEmailKey := address] &&
                navigations == old(navigations) + [Navigate(ResetVerifyRoute(address), RedirectDelay)]
      ensures outcome.Failed? ==>
                error == OrElse(outcome.message, ResetFallbackMessage) && success == old(success) &&
                store.entries == old(store.entries) && navigations == old(navigations)
    {
      requests := requests + [ForgotPassword(address)];
      match outcome
      case Succeeded =>
        store.SetItem(ResetPasswordEmailKey, address);
        success := true;
        navigations := navigations + [Navigate(ResetVerifyRoute(address), RedirectDelay)];
      case Failed(message) =>
        error := OrElse(message, ResetFallbackMessage);
    }

    /** `handleSubmit`: the error and the success flag are cleared first; an
        address that is blank or not of the pattern's shape makes no call;
        otherwise a reset code is requested. */
    method Submit(outcome: CallOutcome)
      modifies this`error, this`success, this`requests, this`navigations, store
      ensures var checked := EmailFieldError(old(email), InvalidAddressMessage);
              checked.Some? ==>
                error == checked.value && !success && requests == old(requests) &&
                navigations == old(navigations) && store.entries == old(store.entries)
      ensures var checked := EmailFieldError(old(email), InvalidAddressMessage);
              checked.None? ==> requests == old(requests) + [ForgotPassword(old(email))]
      ensures var checked := EmailFieldError(old(email), InvalidAddressMessage);
              checked.None? && outcome.Succeeded? ==>
                error == "" && success &&
                store.entries == old(store.entries)[ResetPasswordEmailKey := old(email)] &&
                navigations == old(navigations) + [Navigate(ResetVerifyRoute(old(email)), RedirectDelay)]
      ensures var checked := EmailFieldError(old(email), InvalidAddressMessage);
              checked.None? && outcome.Failed? ==>
                error == OrElse(outcome.message, ResetFallbackMessage) && !success &&
                store.entries == old(store.entries) && navigations == old(navigations)
    {
      var checked := EmailFieldError(email, InvalidAddressMessage);
      error, success := "", false;
      if checked.Some? {
        error := checked.value;
        return;
      }
      RequestReset(email, outcome);
    }
  }

  /** A reset code is requested only for an address of the pattern's shape,
      and every such address is accepted. */
  lemma RequestOnlyForValidAddress(email: string)
    ensures EmailFieldError(email, InvalidAddressMessage).None? <==> MatchesPattern(email)
    ensures Blank(email) ==> EmailFieldError(email, InvalidAddressMessage) == Some(EmailRequiredMessage)
  {
    EmailFieldErrorIff(email, InvalidAddressMessage);
    TrimEmptyIffBlank(email);
  }
}
