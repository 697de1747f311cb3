/**
 * The speech-to-text hook as a state machine. The vendor recognizer is an
 * abstract object that records whether it was asked to stop and whether it
 * was closed; the token fetch and the recognizer's asynchronous start and
 * stop are oracles. Each `await` splits an operation into two steps, so the
 * state between them (a stop in progress, a recognizer being started) is
 * visible to the other events.
 */
module SpeechToText {
  import opened Wrappers
  import opened JsString

  const START_FAILED := "Failed to start recognition"
  const CANCELED_PREFIX := "Speech canceled: "

  /** What `getSpeechToken` resolves to. */
  datatype SpeechToken = SpeechToken(token: string, region: string)

  /** The reason of a recognition result: speech recognised, or any other code. */
  datatype ResultReason = RecognizedSpeech | OtherReason(code: nat)

  /** The abstract recognizer. */
  class Recognizer {
    /** `stopContinuousRecognitionAsync` has been called. */
    var stopRequested: bool
    /** `close` has been called. */
    var closed: bool

    constructor ()
      ensures !stopRequested && !closed
    {
      stopRequested := false;
      closed := false;
    }

    method RequestStop()
      modifies this`stopRequested
      ensures stopRequested
    {
      stopRequested := true;
    }

    method Close()
      modifies this`closed
      ensures closed
    {
      closed := true;
    }
  }

  /** The `recognizing` handler: `e.result?.text ?? ""`. */
  function InterimText(text: Option<string>): (r: string)
    ensures text.Some? ==> r == text.value
    ensures text.None? ==> r == ""
  {
    text.GetOr("")
  }

  /** The final text after a `recognized` event: a non-blank recognised utterance, trimmed, or the old one. */
  function FinalTextAfter(prev: string, reason: ResultReason, text: Option<string>): (r: string)
    ensures reason.RecognizedSpeech? && !Blank(text.GetOr("")) ==> r == Trim(text.GetOr(""))
    ensures reason.OtherReason? || Blank(text.GetOr("")) ==> r == prev
    ensures r != prev ==> r != [] && Trimmed(r)
  {
    if reason.RecognizedSpeech? then
      var t := Trim(text.GetOr(""));
      if t != [] then t else prev
    else prev
  }

  /** Hearing the same event twice leaves the final text where the first one put it. */
  lemma RecognizedIdempotent(prev: string, reason: ResultReason, text: Option<string>)
    ensures var once := FinalTextAfter(prev, reason, text);
      FinalTextAfter(once, reason, text) == once
  {
  }

  /** The error a `canceled` event reports: its details when there are any, else its reason code. */
  function CancelMessage(errorDetails: Option<string>, reason: nat): (m: string)
    ensures |m| > |CANCELED_PREFIX| && m[..|CANCELED_PREFIX|] == CANCELED_PREFIX
    ensures errorDetails.Some? && errorDetails.value != "" ==> m[|CANCELED_PREFIX|..] == errorDetails.value
  {
    var detail := if errorDetails.Some? && errorDetails.value != "" then errorDetails.value else NatToDecimal(reason);
    CANCELED_PREFIX + detail
  }

  /** Without details, the reason code can be read back from the message. */
  lemma CancelMessageNamesReason(errorDetails: Option<string>, reason: nat)
    requires errorDetails.None? || errorDetails.value == ""
    ensures var rest := CancelMessage(errorDetails, reason)[|CANCELED_PREFIX|..];
      && (forall i :: 0 <= i < |rest| ==> '0' <= rest[i] <= '9')
      && DecimalValue(rest) == reason
  {
    var m := CancelMessage(errorDetails, reason);
    assert m[|CANCELED_PREFIX|..] == NatToDecimal(reason);
    DecimalRoundTrip(reason);
  }

  /** The state of the hook. */
  class SpeechSession {
    /** `recognizerRef.current`. */
    var recognizer: Recognizer?
    /** `stoppingRef.current`. */
    var stopping: bool
    /** The recognizer a `stop` in progress is waiting on: the `r` it read before its `await`. */
    var stopTarget: Recognizer?
    var listening: bool
    var interimText: string
    var finalText: string
    var error: Option<string>

    /** A stop is in progress exactly when it waits on a recognizer; listening needs a recognizer. */
    ghost predicate Valid()
      reads this
    {
      && (stopping <==> stopTarget != null)
      && (listening ==> recognizer != null)
    }

    constructor ()
      ensures Valid()
      ensures recognizer == null && !stopping && stopTarget == null && !listening
      ensures interimText == "" && finalText == "" && error == None
    {
      recognizer := null;
      stopping := false;
      stopTarget := null;
      listening := false;
      interimText := "";
      finalText := "";
      error := None;
    }

    /** `start` up to its first `await`: the error and both texts are cleared. */
    method StartBegin()
      requires Valid()
      modifies this`error, this`interimText, this`finalText
      ensures Valid()
      ensures error == None && interimText == "" && finalText == ""
    {
      error := None;
      interimText := "";
      finalText := "";
    }

    /**
     * The token request settles. On failure listening is off and the error is
     * set; otherwise a new recognizer becomes the current one, listening is on
     * and its start is requested.
     */
    method TokenSettled(token: Result<SpeechToken, Thrown>)
      requires Valid()
      modifies this`recognizer, this`listening, this`error
      ensures Valid()
      ensures token.Failure? ==> !listening && error == Some(MessageOr(token.error, START_FAILED))
      ensures token.Failure? ==> recognizer == old(recognizer)
      ensures token.Success? ==> listening && error == old(error)
      ensures token.Success? ==> recognizer != null && fresh(recognizer) && !recognizer.stopRequested && !recognizer.closed
    {
      match token {
        case Failure(e) =>
          listening := false;
          error := Some(MessageOr(e, START_FAILED));
        case Success(_) =>
          var r := new Recognizer();
          recognizer := r;
          listening := true;
      }
    }

    /** `startContinuousRecognitionAsync` settles: a rejection turns listening off and sets the error. */
    method RecognitionStartSettled(started: Outcome<Thrown>)
      requires Valid()
      modifies this`listening, this`error
      ensures Valid()
      ensures started.Pass? ==> listening == old(listening) && error == old(error)
      ensures started.Fail? ==> !listening && error == Some(MessageOr(started.error, START_FAILED))
    {
      if started.Fail? {
        listening := false;
        error := Some(MessageOr(started.error, START_FAILED));
      }
    }

    /** A whole `start`, with no other event in between its steps. */
    method Start(token: Result<SpeechToken, Thrown>, started: Outcome<Thrown>)
      requires Valid()
      modifies this`recognizer, this`listening, this`error, this`interimText, this`finalText
      ensures Valid()
      ensures interimText == "" && finalText == ""
      ensures token.Failure? ==> !listening && recognizer == old(recognizer)
      ensures token.Failure? ==> error == Some(MessageOr(token.error, START_FAILED))
      ensures token.Success? ==> recognizer != null && fresh(recognizer) && !recognizer.closed
      ensures token.Success? && started.Pass? ==> listening && error == None
      ensures token.Success? && started.Fail? ==> !listening && error == Some(MessageOr(started.error, START_FAILED))
    {
      StartBegin();
      TokenSettled(token);
      if token.Success? {
        RecognitionStartSettled(started);
      }
    }

    /**
     * `stop` up to its `await`. A second stop while one is in progress does
     * nothing. With no recognizer, listening goes off and the stop is over;
     * otherwise the recognizer is asked to stop and the stop waits for it.
     */
    method Stop()
      requires Valid()
      modifies this`stopping, this`stopTarget, this`listening, recognizer
      ensures Valid()
      ensures old(stopping) ==> unchanged(this) && (recognizer != null ==> unchanged(recognizer))
      ensures !old(stopping) && recognizer == null ==> !listening && !stopping && stopTarget == null
      ensures !old(stopping) && recognizer != null ==>
        stopping && stopTarget == recognizer && recognizer.stopRequested && listening == old(listening)
        && recognizer.closed == old(recognizer.closed)
    {
      if stopping {
        return;
      }
      stopping := true;
      var r := recognizer;
      if r == null {
        listening := false;
        stopping := false;
        return;
      }
      stopTarget := r;
      r.RequestStop();
    }

    /**
     * The awaited stop settles (it resolves on success and on error alike):
     * the recognizer it waited on is closed, the handle is cleared, listening
     * is off and the stop is over.
     */
    method StopSettled()
      requires Valid() && stopping
      modifies this`stopping, this`stopTarget, this`recognizer, this`listening, stopTarget
      ensures Valid()
      ensures old(stopTarget).closed && old(stopTarget).stopRequested == old(stopTarget.stopRequested)
      ensures recognizer == null && !listening && !stopping && stopTarget == null
    {
      var r := stopTarget;
      r.Close();
      recognizer := null;
      listening := false;
      stopping := false;
      stopTarget := null;
    }

    /** The `recognizing` handler. */
    method OnRecognizing(text: Option<string>)
      requires Valid()
      modifies this`interimText
      ensures Valid()
      ensures interimText == InterimText(text)
    {
      interimText := text.GetOr("");
    }

    /** The `recognized` handler. */
    method OnRecognized(reason: ResultReason, text: Option<string>)
      requires Valid()
      modifies this`finalText
      ensures Valid()
      ensures finalText == FinalTextAfter(old(finalText), reason, text)
    {
      if reason == RecognizedSpeech {
        var t := Trim(text.GetOr(""));
        if t != [] {
          finalText := t;
        }
      }
    }

    /** The `canceled` handler: the error is set, then the stop path runs. */
    method OnCanceled(errorDetails: Option<string>, reason: nat)
      requires Valid()
      modifies this`error, this`stopping, this`stopTarget, this`listening, recognizer
      ensures Valid()
      ensures error == Some(CancelMessage(errorDetails, reason))
      ensures old(stopping) ==> stopping && stopTarget == old(stopTarget) && listening == old(listening)
      ensures !old(stopping) && recognizer == null ==> !listening && !stopping
      ensures !old(stopping) && recognizer != null ==> stopping && stopTarget == recognizer && recognizer.stopRequested
    {
      error := Some(CancelMessage(errorDetails, reason));
      Stop();
    }

    /** The `sessionStopped` handler, and the unmount cleanup: the stop path. */
    method OnSessionStopped()
      requires Valid()
      modifies this`stopping, this`stopTarget, this`listening, recognizer
      ensures Valid()
      ensures old(stopping) ==> stopping && stopTarget == old(stopTarget) && listening == old(listening)
      ensures !old(stopping) && recognizer == null ==> !listening && !stopping
      ensures !old(stopping) && recognizer != null ==> stopping && stopTarget == recognizer && recognizer.stopRequested
    {
      Stop();
    }

    /** A whole `stop` when none is in progress and nothing else happens meanwhile. */
    method StopAndWait()
      requires Valid() && !stopping
      modifies this`stopping, this`stopTarget, this`listening, this`recognizer, recognizer
      ensures Valid()
      ensures !stopping && stopTarget == null && !listening && recognizer == null
      ensures old(recognizer) != null ==> old(recognizer).stopRequested && old(recognizer).closed
    {
      Stop();
      if stopping {
        StopSettled();
      }
    }
  }
}
