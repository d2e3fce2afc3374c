/**
 * What the login, registration and dashboard pages share: the email check,
 * with the same messages on every form (required first, then the
 * `\S+@\S+\.\S+` pattern), the `message || fallback` idiom for a server's
 * error text, and the outcome of a request whose success carries no data.
 */
module PageCommon {
  import opened Wrappers
  import opened JsStrings

  const EmailRequired: string := "Email is required"
  const InvalidEmail: string := "Invalid email format"

  /** The message an email input gets, or `None` when it passes. */
  function EmailRule(email: string): (r: Option<string>)
    ensures r == Some(EmailRequired) <==> email == ""
    ensures r == Some(InvalidEmail) <==> email != "" && !MatchesEmail(email)
    ensures r == None <==> MatchesEmail(email)
  {
    if email == "" then Some(EmailRequired)
    else if !MatchesEmail(email) then Some(InvalidEmail)
    else None
  }

  /** `message || fallback`, for the `error` field of a failed response: an
      absent or empty message is falsy and gives way to the fallback. */
  function MessageOr(message: Option<string>, fallback: string): (r: string)
    ensures message.Some? && message.value != "" ==> r == message.value
    ensures message.None? || message.value == "" ==> r == fallback
    ensures r == "" ==> fallback == ""
  {
    if message.Some? && message.value != "" then message.value else fallback
  }

  /** The outcome of a create, update, delete or register request; `message` is
      the response's `error` field when there is one. */
  datatype WriteOutcome = Written | WriteFailed(message: Option<string>)
}
