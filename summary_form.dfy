/** The summary form: its submit checks, the state it moves through while
    a summary is being created, and when its button is enabled. */
module SummaryForm {
  import opened Wrappers
  import opened Text
  import opened Types
  import SummariesRoute

  const MaxTextLength: int := 10000

  const EnterTextMessage: string := "Please enter some text to summarize"
  const TooLongMessage: string := "Text is too long. Please limit to 10,000 characters."
  const CreateFailedMessage: string := "Failed to create summary"
  const GenericErrorMessage: string := "An error occurred"

  /** `isOverLimit`: the character counter turns red. */
  predicate IsOverLimit(text: string) {
    |text| > MaxTextLength
  }

  /** The submit button's `disabled` attribute. */
  predicate SubmitDisabled(text: string, isLoading: bool) {
    isLoading || |Trim(text)| == 0 || IsOverLimit(text)
  }

  /** The checks `handleSubmit` runs before sending anything: the message
      of the first that fails, if any. */
  function CheckText(text: string): Option<string> {
    if |Trim(text)| == 0 then Some(EnterTextMessage)
    else if |text| > MaxTextLength then Some(TooLongMessage)
    else None
  }

  /** Blank text is refused as such even when it is also too long; other
      text is refused exactly when it is over 10,000 characters. */
  lemma CheckTextOrder(text: string)
    ensures IsBlank(text) ==> CheckText(text) == Some(EnterTextMessage)
    ensures !IsBlank(text) ==> (CheckText(text) == Some(TooLongMessage) <==> |text| > MaxTextLength)
    ensures CheckText(text).None? <==> !IsBlank(text) && |text| <= MaxTextLength
  {
  }

  /** The button is enabled exactly when nothing is loading and the text
      passes the submit checks. */
  lemma EnabledExactlyWhenChecksPass(text: string, isLoading: bool)
    ensures !SubmitDisabled(text, isLoading) <==> !isLoading && CheckText(text).None?
  {
  }

  /** The request body the form sends. */
  function RequestBody(text: string, style: Style): SummariesRoute.CreateBody {
    SummariesRoute.CreateBody(SummariesRoute.Str(text), SummariesRoute.Str(StyleName(style)))
  }

  /** The form's checks and the server's agree on what the form sends: the
      server accepts the body, with the chosen style, exactly when the form
      lets it through. */
  lemma FormChecksMatchServer(text: string, style: Style)
    ensures CheckText(text).None? <==> SummariesRoute.Validate(SummariesRoute.Str(text), SummariesRoute.Str(StyleName(style))).Ok?
    ensures CheckText(text).None? ==>
      SummariesRoute.Validate(SummariesRoute.Str(text), SummariesRoute.Str(StyleName(style))) == Ok(style)
  {
    ParseStyleName(style);
    SummariesRoute.ValidationOrder(SummariesRoute.Str(text), SummariesRoute.Str(StyleName(style)));
  }

  /** The answer to the create request: the JSON envelope's `success` and
      `error`, an Error thrown while fetching or parsing, or a thrown value
      that is not an Error. */
  datatype CreateReply =
    | Replied(success: bool, error: Option<string>)
    | Thrown(message: string)
    | ThrownNonError

  /** The message shown for a reply that is not a success. */
  function FailureMessage(reply: CreateReply): string {
    match reply
    case Replied(_, error) => OrElse(error, CreateFailedMessage)
    case Thrown(message) => message
    case ThrownNonError => GenericErrorMessage
  }

  class Form {
    var text: string
    var summaryStyle: Style
    var isLoading: bool
    var error: Option<string>

    constructor ()
      ensures text == "" && summaryStyle == Concise && !isLoading && error == None
    {
      text, summaryStyle := "", Concise;
      isLoading, error := false, None;
    }

    /** The first half of `handleSubmit`: a failing check records its
        message and sends nothing, leaving everything else alone; otherwise
        the form starts loading, clears the error and sends the text with the
        chosen style. */
    method Submit() returns (request: Option<SummariesRoute.CreateBody>)
      modifies this
      ensures text == old(text) && summaryStyle == old(summaryStyle)
      ensures CheckText(text).Some? ==>
        request == None && error == CheckText(text) && isLoading == old(isLoading)
      ensures CheckText(text).None? ==>
        request == Some(RequestBody(text, summaryStyle)) && isLoading && error == None
    {
      if |Trim(text)| == 0 {
        error := Some(EnterTextMessage);
        return None;
      }
      if |text| > MaxTextLength {
        error := Some(TooLongMessage);
        return None;
      }
      isLoading := true;
      error := None;
      request := Some(RequestBody(text, summaryStyle));
    }

    /** The second half of `handleSubmit`, once the reply is in: on success
        the text is cleared and `onSummaryCreated` fires; otherwise the text
        stays and the error is shown. Loading ends either way. */
    method Settle(reply: CreateReply) returns (created: bool)
      modifies this
      ensures created <==> reply.Replied? && reply.success
      ensures created ==> text == "" && error == old(error)
      ensures !created ==> text == old(text) && error == Some(FailureMessage(reply))
      ensures !isLoading && summaryStyle == old(summaryStyle)
    {
      created := reply.Replied? && reply.success;
      if created {
        text := "";
      } else {
        error := Some(FailureMessage(reply));
      }
      isLoading := false;
    }

    /** `handleSubmit` from start to end: either a check fails and no
        request is sent, or the request is sent and the reply settles the
        form. */
    method HandleSubmit(reply: CreateReply) returns (request: Option<SummariesRoute.CreateBody>, created: bool)
      modifies this
      ensures summaryStyle == old(summaryStyle)
      ensures CheckText(old(text)).Some? ==>
        && request == None && !created
        && text == old(text) && error == CheckText(old(text)) && isLoading == old(isLoading)
      ensures CheckText(old(text)).None? ==>
        && request == Some(RequestBody(old(text), old(summaryStyle)))
        && !isLoading
        && (created <==> reply.Replied? && reply.success)
        && (created ==> text == "" && error == None)
        && (!created ==> text == old(text) && error == Some(FailureMessage(reply)))
    {
      request := Submit();
      created := false;
      if request.Some? {
        created := Settle(reply);
      }
    }
  }
}
