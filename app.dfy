/** The session controller (App.tsx): three pieces of state, `status`,
    `result` and `error`, updated by the recording-complete handler and the
    reset handler, and the conditions under which each part of the page is
    shown. The service call the handler awaits is given as its outcome. */
module App {

  import opened Types
  import opened Wrappers
  import GeminiService

  /** The one message shown for every failed request. */
  const FailureMessage: string := "Failed to process audio. Please try again."

  class Session {
    var status: ProcessingStatus
    var result: Option<ExpenseResponse>
    var error: Option<string>

    /** What holds in every state the handlers can produce. `Recording` is
        never assigned, so it never occurs; an error message is present
        exactly in `Error` and is always the fixed one; `Success` always has
        a report; `Idle` never has one. */
    ghost predicate Valid()
      reads this
    {
      && status != Recording
      && (error.Some? <==> status == Error)
      && (error.Some? ==> error.value == FailureMessage)
      && (status == Success ==> result.Some?)
      && (status == Idle ==> result.None?)
    }

    constructor ()
      ensures Valid()
      ensures status == Idle && result.None? && error.None?
    {
      status := Idle;
      result := None;
      error := None;
    }

    /** The part of the recording-complete handler that runs before the
        service call is awaited: processing starts and any old error is
        cleared. There is no guard on the current status. */
    method BeginProcessing()
      requires Valid()
      modifies this
      ensures Valid()
      ensures status == Processing && error.None? && result == old(result)
    {
      status := Processing;
      error := None;
    }

    /** The rest of the handler, once the service call has settled: a
        report becomes the result and the status `Success`; a failure sets
        the fixed message and the status `Error` and leaves the result as it
        was. It runs only after `BeginProcessing`, and no control on
        the page can change the state while processing. */
    method Settle(outcome: Result<ExpenseResponse, GeminiService.ServiceError>)
      requires Valid()
      requires status == Processing
      modifies this
      ensures Valid()
      ensures outcome.Ok? ==> status == Success && result == Some(outcome.value) && error.None?
      ensures outcome.Err? ==>
        status == Error && error == Some(FailureMessage) && result == old(result)
    {
      match outcome
      case Ok(data) =>
        result := Some(data);
        status := Success;
      case Err(_) =>
        error := Some(FailureMessage);
        status := Error;
    }

    /** The whole recording-complete handler with the service it awaits:
        processing starts, the client runs on the clip, and its outcome
        settles the session. A successful session holds a report whose total
        is the sum of its amounts, whatever the remote model reported; a
        missing credential always ends in `Error`. */
    method HandleRecordingComplete(
      apiKey: Option<string>, blob: Blob, dataUrl: Option<string>, reply: GeminiService.RemoteReply)
      requires Valid()
      modifies this
      ensures Valid()
      ensures status == Success || status == Error
      ensures status == Success <==>
        && GeminiService.HasApiKey(apiKey) && dataUrl.Some?
        && reply.Replied? && reply.text != "" && reply.parsed.Some?
      ensures status == Success ==>
        && result == Some(reply.parsed.value.(totalAmount := GeminiService.Total(reply.parsed.value.expenses)))
        && result.value.totalAmount == GeminiService.Total(result.value.expenses)
      ensures status == Error ==> error == Some(FailureMessage) && result == old(result)
      ensures !GeminiService.HasApiKey(apiKey) ==> status == Error
    {
      BeginProcessing();
      var _, outcome := GeminiService.ProcessAudioWithGemini(apiKey, blob, dataUrl, reply);
      Settle(outcome);
    }

    /** Reset from any state: back to idle with no result and no error. */
    method HandleReset()
      requires Valid()
      modifies this
      ensures Valid()
      ensures status == Idle && result.None? && error.None?
    {
      result := None;
      status := Idle;
      error := None;
    }

    /** The introduction is shown when idle or after an error: always
        beside the recorder, never with the results, and a report is still
        held behind it only after an error. */
    predicate ShowsIntro()
      reads this
      requires Valid()
      ensures ShowsIntro() ==> ShowsRecorder() && !ShowsResults()
      ensures ShowsIntro() && result.Some? ==> ShowsErrorBanner()
    {
      status == Idle || status == Error
    }

    /** The error banner is shown only in `Error`, and then it shows the
        fixed message. */
    predicate ShowsErrorBanner()
      reads this
      requires Valid()
      ensures ShowsErrorBanner() ==> error == Some(FailureMessage)
    {
      status == Error
    }

    /** The recorder is shown in every status except `Success`. */
    predicate ShowsRecorder()
      reads this
    {
      status != Success
    }

    /** The results need `Success` and a report; in a valid state the
        first implies the second, so exactly one of the results and the
        recorder is on the page. */
    predicate ShowsResults()
      reads this
      requires Valid()
      ensures ShowsResults() <==> status == Success
      ensures ShowsResults() <==> !ShowsRecorder()
    {
      status == Success && result.Some?
    }
  }
}
