/**
 * How the dashboard attributes the `error` message of a failed create or
 * update to one form field, by looking for a keyword in the lower-cased text.
 */
module ServerErrors {
  import opened Wrappers
  import opened JsStrings
  import opened EmployeeValidation
  import opened PageCommon

  /** The word looked for in a server message for each field. */
  function Keyword(f: Field): string
  {
    match f
    case Email => "email"
    case Name => "name"
    case Department => "department"
    case Designation => "role"
    case Salary => "salary"
  }

  /** The order in which the words are tried: smaller first. */
  function Priority(f: Field): nat
  {
    match f
    case Email => 0
    case Name => 1
    case Department => 2
    case Designation => 3
    case Salary => 4
  }

  /** The field a server message is attributed to: the first field, in priority
      order, whose word occurs in the lower-cased message; `None` if none does. */
  function MatchedField(msg: string): (r: Option<Field>)
    ensures r.Some? ==> Contains(ToLower(msg), Keyword(r.value))
    ensures r.Some? ==> forall g | Priority(g) < Priority(r.value) :: !Contains(ToLower(msg), Keyword(g))
    ensures r.None? <==> forall g :: !Contains(ToLower(msg), Keyword(g))
  {
    var lower := ToLower(msg);
    if Contains(lower, "email") then Some(Email)
    else if Contains(lower, "name") then Some(Name)
    else if Contains(lower, "department") then Some(Department)
    else if Contains(lower, "role") then Some(Designation)
    else if Contains(lower, "salary") then Some(Salary)
    else None
  }

  const SomethingWentWrong: string := "Something went wrong"

  /** What a failed create or update does with the server's `error` message: it
      becomes the only entry of the error object, under the matched field, or,
      when it matches no field, an alert with the message (or a generic text
      when the message is absent or empty). */
  datatype SubmitFailure = FieldError(field: Field, message: string) | Alert(text: string)

  function ServerFailure(msg: Option<string>): (r: SubmitFailure)
    ensures r.FieldError? <==> msg.Some? && MatchedField(msg.value).Some?
    ensures r.FieldError? ==> msg == Some(r.message) && MatchedField(r.message) == Some(r.field)
    ensures r.Alert? ==> r.text == MessageOr(msg, SomethingWentWrong)
  {
    if msg.Some? && MatchedField(msg.value).Some? then FieldError(MatchedField(msg.value).value, msg.value)
    else Alert(MessageOr(msg, SomethingWentWrong))
  }

  /** The match ignores case: a message and its lower-cased form go to the same
      field. */
  lemma MatchedFieldIgnoresCase(msg: string)
    ensures MatchedField(ToLower(msg)) == MatchedField(msg)
  {
    ToLowerIdempotent(msg);
  }

  /** A server message such as "Invalid email domain" is attributed
      to the email field, whose keyword it contains after lower-casing. */
  lemma InvalidEmailDomain()
    ensures ServerFailure(Some("Invalid email domain")) == FieldError(Email, "Invalid email domain")
  {
    var msg := "Invalid email domain";
    assert msg[8..13] == "email";
    OccursAtLowered(msg, "email", 8);
  }
}
