/** `getErrorMessage` of frontend/src/lib/errorHandler.ts: the message shown
    for a failed request, chosen in a fixed order from the response body,
    the error itself, and a fixed fallback. JavaScript truthiness of a text
    is "present and not empty". */
module ErrorHandler {
  import opened Wrappers
  import opened Strings

  /** One entry of a validation `detail` array: its `loc` and its `msg`. */
  datatype ValidationError = ValidationError(loc: Option<seq<string>>, msg: Option<string>)

  /** The `detail` of a response body: a text, an array of validation
      errors, or absent or of any other kind. */
  datatype Detail = NoDetail | DetailText(text: string) | DetailList(errors: seq<ValidationError>)

  /** `error.response.data`: an object with the three fields the handler
      reads, a text, or missing. */
  datatype ResponseData =
    | Body(detail: Detail, error: Option<string>, message: Option<string>)
    | Text(text: string)
    | NoData

  /** The error a request throws: its response data and its `message`. */
  datatype ApiError = ApiError(data: ResponseData, message: Option<string>)

  const Fallback := "An error occurred. Please try again."
  const ValidationFallback := "Validation error"

  /** JavaScript truthiness of an optional text. */
  predicate Truthy(s: Option<string>) {
    s.Some? && s.value != ""
  }

  /** `err.loc?.[1] || "field"`. */
  function FieldName(err: ValidationError): string {
    match err.loc
    case Some(loc) => if |loc| > 1 && loc[1] != "" then loc[1] else "field"
    case None => "field"
  }

  /** The text one validation entry maps to. */
  function EntryMessage(err: ValidationError): string {
    if Truthy(err.msg) then FieldName(err) + ": " + err.msg.value else ValidationFallback
  }

  /** The entries mapped one by one, in order. */
  function EntryMessages(errors: seq<ValidationError>): (r: seq<string>)
    ensures |r| == |errors| && forall i :: 0 <= i < |errors| ==> r[i] == EntryMessage(errors[i])
  {
    seq(|errors|, i requires 0 <= i < |errors| => EntryMessage(errors[i]))
  }

  /** The tail of the decision: the error's own `message`, else the
      fallback. */
  function OwnMessage(message: Option<string>): string {
    if Truthy(message) then message.value else Fallback
  }

  /** `getErrorMessage(error)`. */
  function GetErrorMessage(e: ApiError): string {
    match e.data
    case Body(detail, error, message) =>
      (match detail
       case DetailText(text) => text
       case DetailList(errors) => Join(EntryMessages(errors), "; ")
       case NoDetail =>
         if Truthy(error) then error.value
         else if Truthy(message) then message.value
         else OwnMessage(e.message))
    case Text(text) => if text != "" then text else OwnMessage(e.message)
    case NoData => OwnMessage(e.message)
  }

  /** Whether the response data offers a text of its own: any `detail`, a
      truthy `error` or `message` of a body, or a non-empty text body. */
  predicate BodyHasText(data: ResponseData) {
    match data
    case Body(detail, error, message) => !detail.NoDetail? || Truthy(error) || Truthy(message)
    case Text(text) => text != ""
    case NoData => false
  }

  /** The order of precedence: a text `detail` is returned as it is, an
      array `detail` next, then a truthy `error` over a truthy `message` of
      the body, then a non-empty text body; when the data offers none of
      these, the error's own `message` if truthy, and only then the
      fallback. */
  lemma Precedence(e: ApiError)
    ensures e.data.Body? && e.data.detail.DetailText? ==> GetErrorMessage(e) == e.data.detail.text
    ensures e.data.Body? && e.data.detail.DetailList? ==>
      GetErrorMessage(e) == Join(EntryMessages(e.data.detail.errors), "; ")
    ensures e.data.Body? && e.data.detail.NoDetail? && Truthy(e.data.error) ==>
      GetErrorMessage(e) == e.data.error.value
    ensures e.data.Body? && e.data.detail.NoDetail? && !Truthy(e.data.error) && Truthy(e.data.message) ==>
      GetErrorMessage(e) == e.data.message.value
    ensures e.data.Text? && e.data.text != "" ==> GetErrorMessage(e) == e.data.text
    ensures !BodyHasText(e.data) && Truthy(e.message) ==> GetErrorMessage(e) == e.message.value
    ensures !BodyHasText(e.data) && !Truthy(e.message) ==> GetErrorMessage(e) == Fallback
  {
  }

  /** With no response data, the error's own message is used when truthy,
      and the fixed fallback when it is absent or empty. */
  lemma NoResponseData(message: Option<string>)
    ensures Truthy(message) ==> GetErrorMessage(ApiError(NoData, message)) == message.value
    ensures !Truthy(message) ==> GetErrorMessage(ApiError(NoData, message)) == Fallback
  {
  }

  /** Validation entries: an entry with a truthy `msg` reads
      "<loc[1] or field>: <msg>", any other reads "Validation error"; the
      messages are joined with "; " in entry order, so no entries give ""
      and one entry gives its message alone. */
  lemma {:induction false} ValidationMessages(a: seq<ValidationError>, b: seq<ValidationError>)
    ensures Join(EntryMessages([]), "; ") == ""
    ensures |a| == 1 ==> Join(EntryMessages(a), "; ") == EntryMessage(a[0])
    ensures a != [] && b != [] ==>
      Join(EntryMessages(a + b), "; ") == Join(EntryMessages(a), "; ") + "; " + Join(EntryMessages(b), "; ")
    ensures forall err: ValidationError :: Truthy(err.msg) ==> EntryMessage(err) == FieldName(err) + ": " + err.msg.value
    ensures forall err: ValidationError :: !Truthy(err.msg) ==> EntryMessage(err) == ValidationFallback
  {
    if a != [] && b != [] {
      assert EntryMessages(a + b) == EntryMessages(a) + EntryMessages(b);
      JoinAppend(EntryMessages(a), EntryMessages(b), "; ");
    }
  }

  /** Outside the `detail` branches the message is never empty: every
      other branch returns a truthy text or the fallback. */
  lemma NonEmptyOutsideDetail(e: ApiError)
    requires !(e.data.Body? && (e.data.detail.DetailText? || e.data.detail.DetailList?))
    ensures GetErrorMessage(e) != ""
  {
  }
}
