/** The sign-up screen: field validation, registration, and the hand-off to
    OTP verification through the stored `signupEmail`. */
module Signup {
  import opened Js
  import opened EmailPattern
  import opened Storage
  import opened Navigation
  import opened AuthFlow

  const MinNameLength := 3
  const FirstNameMessage := "First name must be at least 3 characters"
  const LastNameMessage := "Last name must be at least 3 characters"
  const InvalidEmailMessage := "Please enter a valid email"
  const AlreadyRegisteredMessage := "Email already registered. Please login instead."
  const RegisterFallbackMessage := "Failed to register. Please try again."

  /** The per-field error messages; a field without an error has none. */
  datatype SignupErrors = SignupErrors(firstName: Option<string>, lastName: Option<string>, email: Option<string>)

  const NoErrors := SignupErrors(None, None, None)

  /** Every error on display is a non-empty message, so the truthiness test
      the input handlers make before clearing one is the same as presence. */
  predicate Displayed(errors: SignupErrors) {
    (errors.firstName.Some? ==> errors.firstName.value != "") &&
    (errors.lastName.Some? ==> errors.lastName.value != "") &&
    (errors.email.Some? ==> errors.email.value != "")
  }

  /** A name check: blank or shorter than three characters once trimmed. */
  function NameError(name: string, message: string): (e: Option<string>)
    ensures e.Some? <==> |Trim(name)| < MinNameLength
    ensures e.Some? ==> e.value == message
  {
    if Trim(name) == "" || |Trim(name)| < MinNameLength then Some(message) else None
  }

  /** `validateForm`: the three fields are checked independently. */
  function ValidateSignup(firstName: string, lastName: string, email: string): (errors: SignupErrors)
    ensures Displayed(errors)
  {
    SignupErrors(NameError(firstName, FirstNameMessage), NameError(lastName, LastNameMessage), EmailFieldError(email, InvalidEmailMessage))
  }

  /** The form is valid exactly when both trimmed names have at least three
      characters and the e-mail has the pattern's shape. */
  lemma SignupValidIff(firstName: string, lastName: string, email: string)
    ensures ValidateSignup(firstName, lastName, email) == NoErrors <==>
              |Trim(firstName)| >= MinNameLength && |Trim(lastName)| >= MinNameLength && MatchesPattern(email)
  {
    EmailFieldErrorIff(email, InvalidEmailMessage);
  }

  /** The message shown under the e-mail field when registration fails. */
  function RegisterErrorMessage(message: Option<string>): (m: string)
    ensures Truthy(message) && !Contains(message.value, "already present") ==> m == message.value
    ensures Truthy(message) && Contains(message.value, "already present") ==> m == AlreadyRegisteredMessage
    ensures !Truthy(message) ==> m == RegisterFallbackMessage
    ensures m != ""
  {
    FallbackNotRemapped();
    var text := OrElse(message, RegisterFallbackMessage);
    if Contains(text, "already present") then AlreadyRegisteredMessage else text
  }

  /** The fallback text is shown as it is: it has no lower-case 'p', so it
      cannot contain "already present". */
  lemma FallbackNotRemapped()
    ensures !Contains(RegisterFallbackMessage, "already present")
  {
    assert 'p' !in RegisterFallbackMessage;
    NotContainsMissingChar(RegisterFallbackMessage, "already present", 'p');
  }

  class SignupScreen {
    var firstName: string
    var lastName: string
    var email: string
    var errors: SignupErrors
    var requests: seq<AuthRequest>
    var navigations: seq<NavRequest>
    const store: KeyValueStore

    predicate Valid()
      reads this
    {
      Displayed(errors)
    }

    constructor (store: KeyValueStore)
      ensures this.store == store
      ensures firstName == "" && lastName == "" && email == "" && errors == NoErrors
      ensures requests == [] && navigations == []
      ensures Valid()
    {
      this.store := store;
      firstName, lastName, email, errors := "", "", "", NoErrors;
      requests, navigations := [], [];
    }

    /** Typing into a field clears that field's error and no other. */
    method EditFirstName(text: string)
      modifies this`firstName, this`errors
      requires Valid()
      ensures Valid()
      ensures firstName == text && errors == old(errors).(firstName := None)
    {
      firstName := text;
      if Truthy(errors.firstName) {
        errors := errors.(firstName := None);
      }
    }

    method EditLastName(text: string)
      modifies this`lastName, this`errors
      requires Valid()
      ensures Valid()
      ensures lastName == text && errors == old(errors).(lastName := None)
    {
      lastName := text;
      if Truthy(errors.lastName) {
        errors := errors.(lastName := None);
      }
    }

    method EditEmail(text: string)
      modifies this`email, this`errors
      requires Valid()
      ensures Valid()
      ensures email == text && errors == old(errors).(email := None)
    {
      email := text;
      if Truthy(errors.email) {
        errors := errors.(email := None);
      }
    }

    /** The registration part of `handleSubmit`: one register call; success
        stores `signupEmail` and then moves on to verification, a failure
        shows one message under the e-mail field. */
    method Register(first: string, last: string, address: string, outcome: CallOutcome)
      modifies this`errors, this`requests, this`navigations, store
      ensures requests == old(requests) + [AuthRequest.Register(first, last, address)]
      ensures outcome.Succeeded? ==>
                errors == old(errors) &&
                store.entries == old(store.entries)[SignupEmailKey := address] &&
                navigations == old(navigations) + [PushTo(Path("/verify-otp"))]
      ensures outcome.Failed? ==>
                errors == SignupErrors(None, None, Some(RegisterErrorMessage(outcome.message))) &&
                store.entries == old(store.entries) && navigations == old(navigations)
    {
      requests := requests + [AuthRequest.Register(first, last, address)];
      match outcome
      case Succeeded =>
        store.SetItem(SignupEmailKey, address);
        navigations := navigations + [PushTo(Path("/verify-otp"))];
      case Failed(message) =>
        errors := SignupErrors(None, None, Some(RegisterErrorMessage(message)));
    }

    /** `handleSubmit`: an invalid form shows its errors and makes no call; a
        valid one is registered. */
    method Submit(outcome: CallOutcome)
      modifies this`errors, this`requests, this`navigations, store
      requires Valid()
      ensures Valid()
      ensures var checked := ValidateSignup(old(firstName), old(lastName), old(email));
              checked != NoErrors ==>
                errors == checked && requests == old(requests) &&
                navigations == old(navigations) && store.entries == old(store.entries)
      ensures var checked := ValidateSignup(old(firstName), old(lastName), old(email));
              checked == NoErrors ==> requests == old(requests) + [AuthRequest.Register(old(firstName), old(lastName), old(email))]
      ensures var checked := ValidateSignup(old(firstName), old(lastName), old(email));
              checked == NoErrors && outcome.Succeeded? ==>
                errors == NoErrors &&
                store.entries == old(store.entries)[SignupEmailKey := old(email)] &&
                navigations == old(navigations) + [PushTo(Path("/verify-otp"))]
      ensures var checked := ValidateSignup(old(firstName), old(lastName), old(email));
              checked == NoErrors && outcome.Failed? ==>
                errors == SignupErrors(None, None, Some(RegisterErrorMessage(outcome.message))) &&
                store.entries == old(store.entries) && navigations == old(navigations)
    {
      var checked := ValidateSignup(firstName, lastName, email);
      errors := checked;
      if checked != NoErrors {
        return;
      }
      Register(firstName, lastName, email, outcome);
    }
  }
}
