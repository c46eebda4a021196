/** The set-password screen that ends both the signup and the reset flow: it
    needs the address stored as `verifiedEmail`, checks the new password and
    its confirmation, and on success clears the flow's stored addresses and
    sends the user to the login screen with a message. */
module SetPassword {
  import opened Js
  import opened Storage
  import opened Navigation
  import opened AuthFlow

  const MinPasswordLength := 6
  const MaxPasswordLength := 15
  const TooShortMessage := "Password must be at least 6 characters"
  const TooLongMessage := "Password must be less than 15 characters"
  const MismatchMessage := "Passwords do not match"
  const NotVerifiedMessage := "Please verify your email first"
  const UpdateFallbackMessage := "Failed to set password. Please try again."
  const ResetDoneMessage := "Password reset successfully! Please login."
  const SetDoneMessage := "Password set successfully! Please login."

  /** The per-field error messages. */
  datatype PasswordErrors = PasswordErrors(password: Option<string>, confirmPassword: Option<string>)

  const NoErrors := PasswordErrors(None, None)

  /** Every error on display is a non-empty message. */
  predicate Displayed(errors: PasswordErrors) {
    (errors.password.Some? ==> errors.password.value != "") &&
    (errors.confirmPassword.Some? ==> errors.confirmPassword.value != "")
  }

  /** `validateForm`: the length rule on the password, and the confirmation
      checked independently of it. */
  function ValidatePassword(password: string, confirmPassword: string): (e: PasswordErrors)
    ensures e.password.None? <==> MinPasswordLength <= |password| <= MaxPasswordLength
    ensures |password| < MinPasswordLength ==> e.password == Some(TooShortMessage)
    ensures |password| > MaxPasswordLength ==> e.password == Some(TooLongMessage)
    ensures e.confirmPassword.None? <==> password == confirmPassword
    ensures e.confirmPassword.Some? ==> e.confirmPassword.value == MismatchMessage
    ensures Displayed(e)
  {
    var passwordError :=
      if password == "" || |password| < MinPasswordLength then Some(TooShortMessage)
      else if |password| > MaxPasswordLength then Some(TooLongMessage)
      else None;
    var confirmError := if password != confirmPassword then Some(MismatchMessage) else None;
    PasswordErrors(passwordError, confirmError)
  }

  /** The form is accepted exactly when the password has 6 to 15 characters
      and the confirmation repeats it; in particular a 15-character password
      is accepted although the message speaks of "less than 15". */
  lemma PasswordValidIff(password: string, confirmPassword: string)
    ensures ValidatePassword(password, confirmPassword) == NoErrors <==>
              MinPasswordLength <= |password| <= MaxPasswordLength && password == confirmPassword
    ensures |password| == MaxPasswordLength ==> ValidatePassword(password, password) == NoErrors
  {
  }

  /** The message shown when the update fails: the error's own message, or the
      fallback, with any message about an unverified address replaced. */
  function UpdateErrorMessage(message: Option<string>): (m: string)
    ensures Truthy(message) && !Contains(message.value, "not verified") ==> m == message.value
    ensures Truthy(message) && Contains(message.value, "not verified") ==> m == NotVerifiedMessage
    ensures !Truthy(message) ==> m == UpdateFallbackMessage
    ensures m != ""
  {
    FallbackNotRemapped();
    var text := OrElse(message, UpdateFallbackMessage);
    if Contains(text, "not verified") then NotVerifiedMessage else text
  }

  /** The fallback has no 'v', so it is never taken for an unverified-address
      message. */
  lemma FallbackNotRemapped()
    ensures !Contains(UpdateFallbackMessage, "not verified")
  {
    assert 'v' !in UpdateFallbackMessage;
    NotContainsMissingChar(UpdateFallbackMessage, "not verified", 'v');
  }

  /** The message the login screen is opened with. */
  function DoneMessage(flowType: Option<string>): (m: string)
    ensures IsReset(flowType) ==> m == ResetDoneMessage
    ensures !IsReset(flowType) ==> m == SetDoneMessage
  {
    if IsReset(flowType) then ResetDoneMessage else SetDoneMessage
  }

  /** `/login?message=...`, the message kept unencoded. */
  function LoginRoute(flowType: Option<string>): (r: Route)
    ensures r.path == "/login" && r.query == [("message", DoneMessage(flowType))]
  {
    Route("/login", [("message", DoneMessage(flowType))])
  }

  /** The flow's stored addresses, all removed once the password is set. */
  const FlowKeys: set<string> := {VerifiedEmailKey, SignupEmailKey, ResetPasswordEmailKey}

  class SetPasswordScreen {
    var email: string
    var password: string
    var confirmPassword: string
    var errors: PasswordErrors
    var requests: seq<AuthRequest>
    var navigations: seq<NavRequest>
    const store: KeyValueStore
    /** The route's `type` parameter. */
    const flowType: Option<string>

    predicate Valid()
      reads this
    {
      Displayed(errors)
    }

    constructor (store: KeyValueStore, flowType: Option<string>)
      ensures this.store == store && this.flowType == flowType
      ensures email == "" && password == "" && confirmPassword == "" && errors == NoErrors
      ensures requests == [] && navigations == []
      ensures Valid()
    {
      this.store, this.flowType := store, flowType;
      email, password, confirmPassword, errors := "", "", "", NoErrors;
      requests, navigations := [], [];
    }

    /** The mount effect: take the verified address from storage, or, when
        there is none, send the user back to the start of the flow. */
    method LoadEmail()
      modifies this`email, this`navigations
      ensures var saved := store.GetItem(VerifiedEmailKey);
              Truthy(saved) ==> email == saved.value && navigations == old(navigations)
      ensures var saved := store.GetItem(VerifiedEmailKey);
              !Truthy(saved) ==>
                email == old(email) && navigations == old(navigations) + [Navigate(StartOverRoute(flowType), 0)]
    {
      var saved := store.GetItem(VerifiedEmailKey);
      if !Truthy(saved) {
        navigations := navigations + [Navigate(StartOverRoute(flowType), 0)];
        return;
      }
      email := saved.value;
    }

    /** Typing into a field clears that field's error and no other. */
    method EditPassword(text: string)
      requires Valid()
      modifies this`password, this`errors
      ensures Valid()
      ensures password == text && errors == old(errors).(password := None)
    {
      password := text;
      if Truthy(errors.password) {
        errors := errors.(password := None);
      }
    }

    method EditConfirmPassword(text: string)
      requires Valid()
      modifies this`confirmPassword, this`errors
      ensures Valid()
      ensures confirmPassword == text && errors == old(errors).(confirmPassword := None)
    {
      confirmPassword := text;
      if Truthy(errors.confirmPassword) {
        errors := errors.(confirmPassword := None);
      }
    }

    /** The update part of `handleSubmit`: one update call; success removes
        the flow's three stored addresses and opens the login screen, a
        failure replaces the errors with one message under the password. */
    method SendUpdate(address: string, newPassword: string, outcome: CallOutcome)
      modifies this`errors, this`requests, this`navigations, store
      ensures requests == old(requests) + [UpdatePassword(address, newPassword)]
      ensures outcome.Succeeded? ==>
                errors == old(errors) && store.entries == old(store.entries) - FlowKeys &&
                navigations == old(navigations) + [Navigate(LoginRoute(flowType), 0)]
      ensures outcome.Failed? ==>
                errors == PasswordErrors(Some(UpdateErrorMessage(outcome.message)), None) &&
                store.entries == old(store.entries) && navigations == old(navigations)
    {
      requests := requests + [UpdatePassword(address, newPassword)];
      match outcome
      case Succeeded =>
        store.RemoveItem(VerifiedEmailKey);
        store.RemoveItem(SignupEmailKey);
        store.RemoveItem(ResetPasswordEmailKey);
        navigations := navigations + [Navigate(LoginRoute(flowType), 0)];
      case Failed(message) =>
        errors := PasswordErrors(Some(UpdateErrorMessage(message)), None);
    }

    /** `handleSubmit`. The form is always validated first; an invalid form or
        a missing address makes no call, and a missing address also sends the
        user back to the start of the flow. Otherwise the password is updated. */
    method Submit(outcome: CallOutcome)
      requires Valid()
      modifies this`errors, this`requests, this`navigations, store
      ensures Valid()
      ensures var checked := ValidatePassword(old(password), old(confirmPassword));
              checked != NoErrors || old(email) == "" ==>
                errors == checked && requests == old(requests) && store.entries == old(store.entries)
      ensures old(email) == "" ==> navigations == old(navigations) + [Navigate(StartOverRoute(flowType), 0)]
      ensures var checked := ValidatePassword(old(password), old(confirmPassword));
              checked != NoErrors && old(email) != "" ==> navigations == old(navigations)
      ensures var checked := ValidatePassword(old(password), old(confirmPassword));
              checked == NoErrors && old(email) != "" ==>
                requests == old(requests) + [UpdatePassword(old(email), old(password))]
      ensures var checked := ValidatePassword(old(password), old(confirmPassword));
              checked == NoErrors && old(email) != "" && outcome.Succeeded? ==>
                errors == NoErrors && store.entries == old(store.entries) - FlowKeys &&
                navigations == old(navigations) + [Navigate(LoginRoute(flowType), 0)]
      ensures var checked := ValidatePassword(old(password), old(confirmPassword));
              checked == NoErrors && old(email) != "" && outcome.Failed? ==>
                errors == PasswordErrors(Some(UpdateErrorMessage(outcome.message)), None) &&
                store.entries == old(store.entries) && navigations == old(navigations)
    {
      var checked := ValidatePassword(password, confirmPassword);
      errors := checked;
      if checked != NoErrors || email == "" {
        if email == "" {
          navigations := navigations + [Navigate(StartOverRoute(flowType), 0)];
        }
        return;
      }
      SendUpdate(email, password, outcome);
    }
  }
}
