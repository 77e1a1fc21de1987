/**
 * The registration form's checks in the browser: which message stops the
 * submission, and the body it posts otherwise.
 */
module Auth {
  import opened Wrappers
  import opened Text
  import opened Forms

  const MinPasswordLength := 8
  const MismatchMessage := "Passwords do not match."
  const TooShortMessage := "Password must be at least 8 characters."

  /** The confirmation field, which is not sent. */
  const ConfirmField := "confirm_password"

  /**
   * The register submit handler (lines 67-80): the message shown when a check
   * fails, in which case no request is sent; otherwise the form's fields,
   * without the confirmation, as the request body. Length is JavaScript's
   * `length`, counted in UTF-16 code units.
   */
  function Register(password: string, confirm: string, form: seq<Entry>): (r: Result<map<string, string>, string>)
    ensures password != confirm ==> r == Failure(MismatchMessage)
    ensures password == confirm && |Utf16(password)| < MinPasswordLength ==> r == Failure(TooShortMessage)
    ensures r.Success? <==> password == confirm && |Utf16(password)| >= MinPasswordLength
    ensures r.Success? ==> r.value.Keys == Names(form) - {ConfirmField}
    ensures r.Success? ==> forall k :: k in r.value ==> exists i :: LastFor(form, k, i) && form[i].1 == r.value[k]
  {
    if password != confirm then Failure(MismatchMessage)
    else if |Utf16(password)| < MinPasswordLength then Failure(TooShortMessage)
    else Success(FromEntries(form) - {ConfirmField})
  }

  /** For a password without characters outside the Basic Multilingual Plane, the length checked is its number of characters. */
  lemma {:induction false} Utf16LengthInBmp(s: string)
    requires forall k :: 0 <= k < |s| ==> s[k] as int < 0x10000
    ensures |Utf16(s)| == |s|
  {
    if s != [] {
      Utf16LengthInBmp(s[1..]);
    }
  }

  /** A matching BMP password is refused as too short below eight characters and accepted from eight on. */
  lemma ShortestAccepted(password: string, form: seq<Entry>)
    requires forall k :: 0 <= k < |password| ==> password[k] as int < 0x10000
    ensures |password| < MinPasswordLength ==> Register(password, password, form) == Failure(TooShortMessage)
    ensures |password| >= MinPasswordLength ==> Register(password, password, form).Success?
  {
    Utf16LengthInBmp(password);
  }
}
