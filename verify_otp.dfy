/** The OTP verification screen: which e-mail is being verified, the six-slot
    code buffer and its editing rules, verification and resending. */
module VerifyOtp {
  import opened Js
  import opened Storage
  import opened Navigation
  import opened AuthFlow

  const CodeLength := 6
  const LastSlot := 5
  const IncompleteCodeMessage := "Please enter the complete 6-digit code"
  const MissingEmailMessage := "Email is missing. Please start over."
  const VerifyFallbackMessage := "Verification failed. Please try again."
  const ResendFallbackMessage := "Failed to resend code. Please try again."
  const BackspaceKey := "Backspace"

  /** The buffer after a reset: six empty slots. */
  function EmptyOtp(): (otp: seq<string>)
    ensures |otp| == CodeLength && forall k :: 0 <= k < |otp| ==> otp[k] == ""
  {
    ["", "", "", "", "", ""]
  }

  /** The buffer's invariant: six slots, each holding at most one character. */
  predicate WellFormed(otp: seq<string>) {
    |otp| == CodeLength && forall k :: 0 <= k < |otp| ==> |otp[k]| <= 1
  }

  /** `otp.join('')`. */
  function Concat(otp: seq<string>): (code: string)
    ensures code == "" <==> forall k :: 0 <= k < |otp| ==> otp[k] == ""
  {
    if otp == [] then ""
    else
      assert forall k :: 1 <= k < |otp| ==> otp[k] == otp[1..][k - 1];
      otp[0] + Concat(otp[1..])
  }

  /** When no slot holds more than one character, the joined code is as long as
      the buffer exactly when no slot is empty: the length test of
      verification is a completeness test. */
  lemma {:induction false} ConcatLength(otp: seq<string>)
    requires forall k :: 0 <= k < |otp| ==> |otp[k]| <= 1
    ensures |Concat(otp)| <= |otp|
    ensures |Concat(otp)| == |otp| <==> forall k :: 0 <= k < |otp| ==> otp[k] != ""
  {
    if otp != [] {
      ConcatLength(otp[1..]);
      assert forall k :: 1 <= k < |otp| ==> otp[k] == otp[1..][k - 1];
    }
  }

  /** The six-character completeness check on a well-formed buffer. */
  lemma CompleteIffAllFilled(otp: seq<string>)
    requires WellFormed(otp)
    ensures |Concat(otp)| == CodeLength <==> forall k :: 0 <= k < CodeLength ==> otp[k] != ""
  {
    ConcatLength(otp);
  }

  /** The characters a paste writes, one per slot: `value.slice(0, 6)`. */
  function PastedChars(value: string): (p: string)
    ensures |p| <= CodeLength && |p| <= |value| && p == value[..|p|]
    ensures |value| >= CodeLength ==> |p| == CodeLength
  {
    if |value| <= CodeLength then value else value[..CodeLength]
  }

  /** The buffer after pasting `value` into slot `index`: the pasted characters
      fill slots `index`, `index + 1`, ... up to slot 5 and no further; every
      other slot keeps its content. No digit check is made. */
  function PasteResult(otp: seq<string>, index: int, value: string): (r: seq<string>)
    requires |otp| == CodeLength && 0 <= index < CodeLength
    ensures |r| == CodeLength
    ensures forall k :: 0 <= k < index ==> r[k] == otp[k]
    ensures forall k :: index <= k < CodeLength && k - index < |PastedChars(value)| ==>
              r[k] == [PastedChars(value)[k - index]]
    ensures forall k :: index + |PastedChars(value)| <= k < CodeLength ==> r[k] == otp[k]
  {
    var p := PastedChars(value);
    seq(CodeLength, k requires 0 <= k < CodeLength => if index <= k < index + |p| then [p[k - index]] else otp[k])
  }

  /** Where focus goes after a paste: the slot after the pasted text, or the
      last slot. */
  function PasteFocus(index: int, value: string): (f: int)
    requires 0 <= index < CodeLength
    ensures 0 <= f <= LastSlot
    ensures f == LastSlot || f == index + |PastedChars(value)|
    ensures f <= index + |PastedChars(value)|
  {
    if index + |PastedChars(value)| < LastSlot then index + |PastedChars(value)| else LastSlot
  }

  /** A paste keeps the buffer well formed. */
  lemma PastePreservesShape(otp: seq<string>, index: int, value: string)
    requires WellFormed(otp) && 0 <= index < CodeLength
    ensures WellFormed(PasteResult(otp, index, value))
  {
  }

  /** The paste branch of `handleOtpChange`: copy the buffer, then write each
      pasted character into its slot while the slot exists. */
  method ApplyPaste(otp: seq<string>, index: int, value: string) returns (newOtp: seq<string>)
    requires |otp| == CodeLength && 0 <= index < CodeLength
    ensures newOtp == PasteResult(otp, index, value)
  {
    var pasted := PastedChars(value);
    var slots := new string[CodeLength](k requires 0 <= k < CodeLength => otp[k]);
    var i := 0;
    while i < |pasted|
      invariant 0 <= i <= |pasted|
      invariant forall k :: 0 <= k < CodeLength ==>
                  slots[k] == if index <= k < index + i then [pasted[k - index]] else otp[k]
    {
      if index + i < CodeLength {
        slots[index + i] := [pasted[i]];
      }
      i := i + 1;
    }
    newOtp := slots[..];
  }

  /** `signupEmail || resetPasswordEmail || emailParam || ''`. */
  function ResolveEmail(signupEmail: Option<string>, resetEmail: Option<string>, emailParam: Option<string>): (r: string)
    ensures Truthy(signupEmail) ==> r == signupEmail.value
    ensures !Truthy(signupEmail) && Truthy(resetEmail) ==> r == resetEmail.value
    ensures !Truthy(signupEmail) && !Truthy(resetEmail) && Truthy(emailParam) ==> r == emailParam.value
    ensures r == "" <==> !Truthy(signupEmail) && !Truthy(resetEmail) && !Truthy(emailParam)
  {
    var candidates := [signupEmail, resetEmail, emailParam];
    assert candidates[0] == signupEmail && candidates[1] == resetEmail && candidates[2] == emailParam;
    OrElse(FirstTruthy(candidates), "")
  }

  /** Where a successful verification leads. */
  function VerifiedRoute(flowType: Option<string>): (r: Route)
    ensures r.path == "/set-password"
    ensures IsReset(flowType) ==> r.query == [("type", "reset")]
    ensures !IsReset(flowType) ==> r.query == []
  {
    if IsReset(flowType) then Route("/set-password", [("type", "reset")]) else Path("/set-password")
  }

  /** The stored entries after a successful verification. */
  function AfterVerified(entries: map<string, string>, email: string): (r: map<string, string>)
    ensures VerifiedEmailKey in r && r[VerifiedEmailKey] == email
    ensures SignupEmailKey !in r && ResetPasswordEmailKey !in r
    ensures forall k :: k in entries && k !in {VerifiedEmailKey, SignupEmailKey, ResetPasswordEmailKey} ==>
              k in r && r[k] == entries[k]
    ensures r.Keys <= entries.Keys + {VerifiedEmailKey}
  {
    entries[VerifiedEmailKey := email] - {SignupEmailKey} - {ResetPasswordEmailKey}
  }

  /** A character that may appear in a name taken from an address. */
  predicate NameChar(c: char) {
    c != '.' && c != '@'
  }

  /** The end of the run of name characters that starts at `i`: the next `.`
      or `@`, or the end of the text. */
  function NameEnd(s: string, i: nat): (n: nat)
    requires i <= |s|
    ensures i <= n <= |s|
    ensures forall k :: i <= k < n ==> NameChar(s[k])
    ensures n == |s| || !NameChar(s[n])
    decreases |s| - i
  {
    if i < |s| && NameChar(s[i]) then NameEnd(s, i + 1) else i
  }

  /** A run of name characters ending at a `.`, an `@` or the end of the text
      ends where `NameEnd` says. */
  lemma {:induction false} NameEndAt(s: string, i: nat, m: nat)
    requires i <= m <= |s|
    requires forall k :: i <= k < m ==> NameChar(s[k])
    requires m == |s| || !NameChar(s[m])
    ensures NameEnd(s, i) == m
    decreases m - i
  {
    if i < m {
      NameEndAt(s, i + 1, m);
    }
  }

  /** The pieces of the local part of an address split at dots: the first is
      a prefix of the address, and none holds a dot or an `@`. */
  lemma LocalPieces(email: string)
    ensures var pieces := Split(Split(email, '@')[0], '.');
            pieces[0] <= email &&
            forall k :: 0 <= k < |pieces| ==> '.' !in pieces[k] && '@' !in pieces[k]
  {
    var local := Split(email, '@')[0];
    SplitHead(email, '@');
    SplitHead(local, '.');
    SplitPiecesAvoid(local, '.', '@');
  }

  /** A dot-piece of the local part that starts at `lo` ends where the run
      of name characters from `lo` ends. */
  lemma PieceByScan(email: string, local: string, lo: nat)
    requires local <= email && '@' !in local
    requires |local| == |email| || email[|local|] == '@'
    requires lo <= |local|
    ensures Split(local[lo..], '.')[0] == email[lo..NameEnd(email, lo)]
  {
    var rest := local[lo..];
    SplitHead(rest, '.');
    var q := Split(rest, '.')[0];
    var m := lo + |q|;
    forall k | lo <= k < m
      ensures NameChar(email[k])
    {
      assert email[k] == local[k] == rest[k - lo] == q[k - lo];
    }
    if m < |local| {
      assert email[m] == local[m] == rest[|q|];
    }
    NameEndAt(email, lo, m);
    assert q == rest[..|q|] == email[lo..m];
  }

  /** The first dot-piece of a local part `local` of `email` runs up to the
      first `.` or `@`, and that character is a `.` exactly when the local
      part holds one. */
  lemma FirstPieceByScan(email: string, local: string)
    requires local <= email && '@' !in local
    requires |local| == |email| || email[|local|] == '@'
    ensures Split(local, '.')[0] == email[..NameEnd(email, 0)]
    ensures '.' in local <==> NameEnd(email, 0) < |email| && email[NameEnd(email, 0)] == '.'
  {
    SplitHead(local, '.');
    assert local[0..] == local;
    PieceByScan(email, local, 0);
    var n := NameEnd(email, 0);
    if '.' in local {
      assert n < |local|;
      assert email[n] == local[n];
    } else {
      assert n == |local|;
    }
  }

  /** When the local part holds a `.`, its second dot-piece runs from just
      after the end of the first piece up to the next `.` or `@`. */
  lemma SecondPieceAfterFirst(email: string, local: string)
    requires local <= email && '@' !in local
    requires |local| == |email| || email[|local|] == '@'
    requires '.' in local
    ensures |Split(local, '.')| > 1
    ensures var n := |Split(local, '.')[0]|;
            n < |local| && Split(local, '.')[1] == email[n + 1..NameEnd(email, n + 1)]
  {
    SplitSecond(local, '.');
    PieceByScan(email, local, |Split(local, '.')[0]| + 1);
  }

  /** The same, with the end of the first piece found by scanning. */
  lemma SecondPieceByScan(email: string, local: string)
    requires local <= email && '@' !in local
    requires |local| == |email| || email[|local|] == '@'
    requires '.' in local
    ensures |Split(local, '.')| > 1
    ensures var n := NameEnd(email, 0);
            n < |email| && Split(local, '.')[1] == email[n + 1..NameEnd(email, n + 1)]
  {
    SecondPieceAfterFirst(email, local);
    assert |Split(local, '.')[0]| == NameEnd(email, 0) by { FirstPieceByScan(email, local); }
  }

  /** The dot-separated pieces of a local part `local` of `email`, read off
      the address by scanning: the first piece runs up to the first `.` or
      `@`; there is a second piece exactly when that character is a `.`, and
      it runs up to the next `.` or `@`. */
  lemma PiecesByScan(email: string, local: string)
    requires local <= email && '@' !in local
    requires |local| == |email| || email[|local|] == '@'
    ensures Split(local, '.')[0] == email[..NameEnd(email, 0)]
    ensures |Split(local, '.')| > 1 <==> NameEnd(email, 0) < |email| && email[NameEnd(email, 0)] == '.'
    ensures |Split(local, '.')| > 1 ==>
              Split(local, '.')[1] == email[NameEnd(email, 0) + 1..NameEnd(email, NameEnd(email, 0) + 1)]
  {
    FirstPieceByScan(email, local);
    if '.' in local {
      SecondPieceByScan(email, local);
    } else {
      SplitHead(local, '.');
    }
  }

  /** The same for the local part of the address itself. */
  lemma LocalPiecesByScan(email: string)
    ensures var pieces := Split(Split(email, '@')[0], '.');
            var n := NameEnd(email, 0);
            pieces[0] == email[..n] &&
            (|pieces| > 1 <==> n < |email| && email[n] == '.') &&
            (|pieces| > 1 ==> pieces[1] == email[n + 1..NameEnd(email, n + 1)])
  {
    SplitHead(email, '@');
    PiecesByScan(email, Split(email, '@')[0]);
  }

  /** The names the signup resend fabricates from the address:
      `email.split('@')[0].split('.')[0] || 'User'` and
      `email.split('@')[0].split('.')[1] || 'Name'`. The first is the
      address's leading run of characters other than `.` and `@`, or "User"
      when that run is empty; the second is the run after a `.` that ends
      the first, or "Name" when there is no such `.` or the run is empty. */
  function ResendNames(email: string): (names: (string, string))
    ensures var n := NameEnd(email, 0);
            names.0 == if n == 0 then "User" else email[..n]
    ensures var n := NameEnd(email, 0);
            if n < |email| && email[n] == '.' && NameEnd(email, n + 1) > n + 1 then
              names.1 == email[n + 1..NameEnd(email, n + 1)]
            else
              names.1 == "Name"
    ensures names.0 != "" && names.1 != ""
    ensures '.' !in names.0 && '@' !in names.0
    ensures '.' !in names.1 && '@' !in names.1
  {
    var pieces := Split(Split(email, '@')[0], '.');
    LocalPieces(email);
    LocalPiecesByScan(email);
    (OrElse(Some(pieces[0]), "User"), OrElse(if |pieces| > 1 then Some(pieces[1]) else None, "Name"))
  }

  /** The screen's state cells. `otp` is the code buffer and `focus` the index
      of the focused slot; `requests` and `navigations` record the backend
      calls and the navigations the screen has issued. */
  class VerifyOtpScreen {
    var email: string
    var otp: seq<string>
    var focus: int
    var error: string
    var requests: seq<AuthRequest>
    var navigations: seq<NavRequest>
    const store: KeyValueStore
    const emailParam: Option<string>
    const flowType: Option<string>

    predicate Valid()
      reads this
    {
      WellFormed(otp) && 0 <= focus < CodeLength
    }

    constructor (store: KeyValueStore, emailParam: Option<string>, flowType: Option<string>)
      ensures Valid()
      ensures this.store == store && this.emailParam == emailParam && this.flowType == flowType
      ensures email == "" && otp == EmptyOtp() && error == ""
      ensures requests == [] && navigations == []
    {
      this.store := store;
      this.emailParam := emailParam;
      this.flowType := flowType;
      email, otp, focus, error := "", EmptyOtp(), 0, "";
      requests, navigations := [], [];
    }

    /** The loading effect: take the first stored or routed e-mail, or start
        over when there is none. */
    method LoadEmail()
      requires Valid()
      modifies this`email, this`focus, this`navigations
      ensures Valid()
      ensures var resolved := ResolveEmail(store.GetItem(SignupEmailKey), store.GetItem(ResetPasswordEmailKey), emailParam);
              if resolved == "" then
                email == old(email) && focus == old(focus) &&
                navigations == old(navigations) + [Navigate(StartOverRoute(flowType), 0)]
              else
                email == resolved && focus == 0 && navigations == old(navigations)
    {
      var signupEmail := store.GetItem(SignupEmailKey);
      var resetEmail := store.GetItem(ResetPasswordEmailKey);
      var userEmail := ResolveEmail(signupEmail, resetEmail, emailParam);
      if userEmail == "" {
        navigations := navigations + [Navigate(StartOverRoute(flowType), 0)];
        return;
      }
      email := userEmail;
      focus := 0;
    }

    /** `handleOtpChange(index, value)`: a value longer than one character is a
        paste; otherwise a value that is not all digits is ignored, and a digit
        or an empty value replaces only slot `index`, moving focus forward only
        for a digit below the last slot. */
    method OnOtpChange(index: int, value: string)
      requires Valid() && 0 <= index < CodeLength
      modifies this`otp, this`focus
      ensures Valid()
      ensures |value| > 1 ==> otp == PasteResult(old(otp), index, value) && focus == PasteFocus(index, value)
      ensures |value| <= 1 && !AllDigits(value) ==> otp == old(otp) && focus == old(focus)
      ensures |value| <= 1 && AllDigits(value) ==> otp == old(otp)[index := value]
      ensures |value| <= 1 && AllDigits(value) ==>
                focus == if value != "" && index < LastSlot then index + 1 else old(focus)
    {
      if |value| > 1 {
        var newOtp := ApplyPaste(otp, index, value);
        otp := newOtp;
        focus := PasteFocus(index, value);
        return;
      }
      if !AllDigits(value) {
        return;
      }
      otp := otp[index := value];
      if value != "" && index < LastSlot {
        focus := index + 1;
      }
    }

    /** `handleKeyDown`: backspace on an empty slot after the first moves focus
        back one slot; nothing else changes. */
    method OnKeyPress(index: int, key: string)
      requires Valid() && 0 <= index < CodeLength
      modifies this`focus
      ensures Valid()
      ensures focus == if key == BackspaceKey && otp[index] == "" && index > 0 then index - 1 else old(focus)
    {
      if key == BackspaceKey && otp[index] == "" && index > 0 {
        focus := index - 1;
      }
    }

    /** `handleVerify`, with `outcome` the settled verification call. */
    method Verify(outcome: CallOutcome)
      requires Valid()
      modifies this`error, this`otp, this`focus, this`requests, this`navigations, store
      ensures Valid()
      ensures var code := Concat(old(otp));
              |code| != CodeLength ==>
                error == IncompleteCodeMessage && otp == old(otp) && focus == old(focus) && requests == old(requests) &&
                navigations == old(navigations) && store.entries == old(store.entries)
      ensures var code := Concat(old(otp));
              |code| == CodeLength && email == "" ==>
                error == MissingEmailMessage && otp == old(otp) && focus == old(focus) && requests == old(requests) &&
                navigations == old(navigations) + [Navigate(StartOverRoute(flowType), 0)] &&
                store.entries == old(store.entries)
      ensures var code := Concat(old(otp));
              |code| == CodeLength && email != "" ==>
                requests == old(requests) + [VerifyOtp(email, code)]
      ensures var code := Concat(old(otp));
              |code| == CodeLength && email != "" && outcome.Succeeded? ==>
                error == "" && otp == old(otp) && focus == old(focus) &&
                store.entries == AfterVerified(old(store.entries), email) &&
                navigations == old(navigations) + [Navigate(VerifiedRoute(flowType), 0)]
      ensures var code := Concat(old(otp));
              |code| == CodeLength && email != "" && outcome.Failed? ==>
                error == OrElse(outcome.message, VerifyFallbackMessage) &&
                otp == EmptyOtp() && focus == 0 &&
                navigations == old(navigations) && store.entries == old(store.entries)
    {
      var code := Concat(otp);
      if |code| != CodeLength {
        error := IncompleteCodeMessage;
        return;
      }
      if email == "" {
        error := MissingEmailMessage;
        navigations := navigations + [Navigate(StartOverRoute(flowType), 0)];
        return;
      }
      error := "";
      requests := requests + [VerifyOtp(email, code)];
      match outcome
      case Succeeded =>
        store.SetItem(VerifiedEmailKey, email);
        store.RemoveItem(SignupEmailKey);
        store.RemoveItem(ResetPasswordEmailKey);
        navigations := navigations + [Navigate(VerifiedRoute(flowType), 0)];
      case Failed(message) =>
        error := OrElse(message, VerifyFallbackMessage);
        otp := EmptyOtp();
        focus := 0;
    }

    /** `handleResend`: the reset flow asks for a new reset code, the signup
        flow registers again under names made up from the address. */
    method Resend(outcome: CallOutcome)
      requires Valid()
      modifies this`error, this`otp, this`focus, this`requests
      ensures Valid()
      ensures email == "" ==>
                error == MissingEmailMessage && otp == old(otp) && focus == old(focus) && requests == old(requests)
      ensures email != "" && IsReset(flowType) ==> requests == old(requests) + [ForgotPassword(email)]
      ensures email != "" && !IsReset(flowType) ==>
                requests == old(requests) + [Register(ResendNames(email).0, ResendNames(email).1, email)]
      ensures email != "" && outcome.Succeeded? ==> error == "" && otp == EmptyOtp() && focus == 0
      ensures email != "" && outcome.Failed? ==>
                error == OrElse(outcome.message, ResendFallbackMessage) && otp == old(otp) && focus == old(focus)
    {
      if email == "" {
        error := MissingEmailMessage;
        return;
      }
      error := "";
      if IsReset(flowType) {
        requests := requests + [ForgotPassword(email)];
      } else {
        var names := ResendNames(email);
        requests := requests + [Register(names.0, names.1, email)];
      }
      match outcome
      case Succeeded =>
        error := "";
        otp := EmptyOtp();
        focus := 0;
      case Failed(message) =>
        error := OrElse(message, ResendFallbackMessage);
    }
  }
}
