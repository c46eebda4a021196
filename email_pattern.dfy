/** The e-mail shape `^[^\s@]+@[^\s@]+\.[^\s@]+$` that the sign-up and
    forgot-password screens test addresses against. */
module EmailPattern {
  import opened Js

  /** A character of the class `[^\s@]`. */
  predicate PartChar(c: char) {
    !IsSpace(c) && c != '@'
  }

  /** A non-empty run `[^\s@]+`. */
  predicate Part(s: string) {
    |s| > 0 && forall i :: 0 <= i < |s| ==> PartChar(s[i])
  }

  /** The language of the regular expression, read as its backtracking matcher
      does: some `@` at index `k` and some `.` at index `j` cut the string into
      three non-empty runs of `[^\s@]`. */
  ghost predicate MatchesPattern(s: string) {
    exists k, j :: 0 < k && k + 1 < j < |s| - 1 && CutsAt(s, k, j)
  }

  ghost predicate CutsAt(s: string, k: int, j: int) {
    0 < k && k + 1 < j < |s| - 1 &&
    s[k] == '@' && s[j] == '.' &&
    Part(s[..k]) && Part(s[k + 1..j]) && Part(s[j + 1..])
  }

  /** A deterministic test of the same shape: no white space, exactly one `@`
      with something before it, and a `.` that has at least one character on
      each side within the part after the `@`. */
  predicate IsValidEmail(s: string) {
    NoSpace(s) && '@' in s &&
    var k := IndexOf(s, '@');
    k > 0 && '@' !in s[k + 1..] && k + 3 < |s| && '.' in s[k + 2..|s| - 1]
  }

  /** A non-empty range of pattern characters is a part. */
  lemma PartOfRange(s: string, lo: int, hi: int)
    requires 0 <= lo < hi <= |s|
    requires forall i :: lo <= i < hi ==> PartChar(s[i])
    ensures Part(s[lo..hi])
  {
    forall i | 0 <= i < hi - lo
      ensures PartChar(s[lo..hi][i])
    {
      assert s[lo..hi][i] == s[lo + i];
    }
  }

  /** Every character of a part is a pattern character. */
  lemma RangeOfPart(s: string, lo: int, hi: int)
    requires 0 <= lo <= hi <= |s| && Part(s[lo..hi])
    ensures forall i :: lo <= i < hi ==> PartChar(s[i])
  {
    forall i | lo <= i < hi
      ensures PartChar(s[i])
    {
      assert s[i] == s[lo..hi][i - lo];
    }
  }

  /** Every string the deterministic test accepts is matched. */
  lemma ValidEmailMatches(s: string)
    requires IsValidEmail(s)
    ensures MatchesPattern(s)
  {
    var k := IndexOf(s, '@');
    var mid := s[k + 2..|s| - 1];
    var j := IndexOf(mid, '.') + k + 2;
    assert s[j] == mid[j - k - 2] == '.';
    forall i | 0 <= i < |s| && i != k
      ensures PartChar(s[i])
    {
      assert !IsSpace(s[i]);
      assert i < k ==> s[i] == s[..k][i];
      assert i > k ==> s[i] == s[k + 1..][i - k - 1];
    }
    PartOfRange(s, 0, k);
    PartOfRange(s, k + 1, j);
    PartOfRange(s, j + 1, |s|);
    assert CutsAt(s, k, j);
  }

  /** A string cut at an `@` and a `.` into three parts is accepted by the
      test. */
  lemma CutsAtValid(s: string, k: int, j: int)
    requires CutsAt(s, k, j)
    ensures IsValidEmail(s)
  {
    RangeOfPart(s, 0, k);
    RangeOfPart(s, k + 1, j);
    RangeOfPart(s, j + 1, |s|);
    assert NoSpace(s);
    IndexOfFirst(s, '@', k);
    var rest := s[k + 1..];
    assert forall i :: 0 <= i < |rest| ==> rest[i] == s[k + 1 + i] != '@';
    assert s[k + 2..|s| - 1][j - k - 2] == '.';
  }

  /** Every string the regular expression matches is accepted by the test. */
  lemma MatchesValidEmail(s: string)
    requires MatchesPattern(s)
    ensures IsValidEmail(s)
  {
    var k, j :| CutsAt(s, k, j);
    CutsAtValid(s, k, j);
  }

  /** The deterministic test accepts exactly the strings the regular expression
      matches. */
  lemma ValidEmailIffMatches(s: string)
    ensures IsValidEmail(s) <==> MatchesPattern(s)
  {
    if IsValidEmail(s) {
      ValidEmailMatches(s);
    }
    if MatchesPattern(s) {
      MatchesValidEmail(s);
    }
  }

  /** A valid address has no white space, so it is not blank and trimming leaves
      it unchanged. */
  lemma ValidEmailIsTrimmed(s: string)
    requires IsValidEmail(s)
    ensures Trim(s) == s && Trim(s) != ""
  {
    TrimNoSpace(s);
  }

  const EmailRequiredMessage := "Email is required"

  /** The e-mail check of the signup and forgot-password forms: a blank entry
      (once trimmed) is missing; otherwise the untrimmed entry must have the
      pattern's shape, else the form's own `invalidMessage` is shown. */
  function EmailFieldError(email: string, invalidMessage: string): (e: Option<string>)
    ensures Trim(email) == "" ==> e == Some(EmailRequiredMessage)
    ensures Trim(email) != "" ==> (e.None? <==> MatchesPattern(email))
    ensures Trim(email) != "" && e.Some? ==> e.value == invalidMessage
  {
    ValidEmailIffMatches(email);
    if Trim(email) == "" then Some(EmailRequiredMessage)
    else if !IsValidEmail(email) then Some(invalidMessage)
    else None
  }

  /** The check passes exactly on the entries of the pattern's shape: a valid
      address is never blank. */
  lemma EmailFieldErrorIff(email: string, invalidMessage: string)
    ensures EmailFieldError(email, invalidMessage).None? <==> MatchesPattern(email)
  {
    ValidEmailIffMatches(email);
    if MatchesPattern(email) {
      ValidEmailIsTrimmed(email);
    }
  }
}
