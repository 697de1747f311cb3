/**
 * The create/edit phrase form: two text fields, a submit guard, a submit
 * that awaits the page's handler, and an effect that reloads the fields
 * when the initial values change.
 */
module PhraseForm {
  import opened Wrappers
  import opened JsString
  import opened PhrasesApi

  const SAVE_FAILED := "Failed to save phrase"

  /** `canSubmit`: the submit button is enabled. */
  function CanSubmit(text: string, category: string, isSubmitting: bool): (b: bool)
    ensures b <==> !AllWhite(text) && !AllWhite(category) && !isSubmitting
  {
    Trim(text) != [] && Trim(category) != [] && !isSubmitting
  }

  /** The payload `handleSubmit` hands to `onSubmit`: both fields trimmed. */
  function Payload(text: string, category: string): (p: PhrasePayload)
    ensures Trimmed(p.text) && Trimmed(p.category)
    ensures p.text == [] <==> AllWhite(text)
    ensures p.category == [] <==> AllWhite(category)
  {
    PhrasePayload(Trim(text), Trim(category))
  }

  /** Whenever the button is enabled, the payload it sends has a non-empty text and category. */
  lemma EnabledPayloadNonEmpty(text: string, category: string, isSubmitting: bool)
    requires CanSubmit(text, category, isSubmitting)
    ensures Payload(text, category).text != [] && Payload(text, category).category != []
  {
  }

  /** Loading a saved phrase back into the form and saving it again sends the same payload. */
  lemma PayloadStable(text: string, category: string)
    ensures var p := Payload(text, category); Payload(p.text, p.category) == p
  {
    TrimIdempotent(text);
    TrimIdempotent(category);
  }

  /** The state of one mounted `PhraseForm`. */
  class Form {
    var text: string
    var category: string
    var isSubmitting: bool
    var error: Option<string>
    const clearOnSuccess: bool

    /** A mount with the given props; the props left out default to "" and `false`. */
    constructor (initialText: Option<string>, initialCategory: Option<string>, clear: Option<bool>)
      ensures text == initialText.GetOr("") && category == initialCategory.GetOr("")
      ensures !isSubmitting && error == None
      ensures clearOnSuccess == clear.GetOr(false)
    {
      text := initialText.GetOr("");
      category := initialCategory.GetOr("");
      isSubmitting := false;
      error := None;
      clearOnSuccess := clear.GetOr(false);
    }

    /** The effect on `[initialText, initialCategory]`: both fields are overwritten. */
    method SyncInitial(initialText: Option<string>, initialCategory: Option<string>)
      modifies this`text, this`category
      ensures text == initialText.GetOr("") && category == initialCategory.GetOr("")
    {
      text := initialText.GetOr("");
      category := initialCategory.GetOr("");
    }

    /** The two inputs' `onChange`. */
    method EditText(t: string)
      modifies this`text
      ensures text == t
    {
      text := t;
    }

    method EditCategory(c: string)
      modifies this`category
      ensures category == c
    {
      category := c;
    }

    /** `handleSubmit` up to its `await`: the error is cleared, the form is busy and the trimmed payload is handed to `onSubmit`. */
    method BeginSubmit() returns (p: PhrasePayload)
      modifies this`error, this`isSubmitting
      ensures p == Payload(text, category)
      ensures error == None && isSubmitting
    {
      error := None;
      isSubmitting := true;
      p := Payload(text, category);
    }

    /**
     * `handleSubmit` after its `await`: on success the fields are cleared when
     * `clearOnSuccess` is set, on failure the error is shown and the fields
     * stay; either way the form is no longer busy.
     */
    method SubmitSettled(outcome: Outcome<Thrown>)
      modifies this`text, this`category, this`error, this`isSubmitting
      ensures !isSubmitting
      ensures outcome.Pass? && clearOnSuccess ==> text == "" && category == ""
      ensures outcome.Pass? && !clearOnSuccess ==> text == old(text) && category == old(category)
      ensures outcome.Pass? ==> error == old(error)
      ensures outcome.Fail? ==> text == old(text) && category == old(category)
      ensures outcome.Fail? ==> error == Some(MessageOr(outcome.error, SAVE_FAILED))
    {
      match outcome {
        case Pass =>
          if clearOnSuccess {
            text := "";
            category := "";
          }
        case Fail(e) =>
          error := Some(MessageOr(e, SAVE_FAILED));
      }
      isSubmitting := false;
    }

    /** A whole submit, with nothing typed while it is in flight. */
    method HandleSubmit(outcome: Outcome<Thrown>) returns (p: PhrasePayload)
      modifies this`text, this`category, this`error, this`isSubmitting
      ensures p == Payload(old(text), old(category))
      ensures !isSubmitting
      ensures outcome.Pass? ==> error == None
      ensures outcome.Pass? && clearOnSuccess ==> text == "" && category == ""
      ensures outcome.Pass? && !clearOnSuccess ==> text == old(text) && category == old(category)
      ensures outcome.Fail? ==> text == old(text) && category == old(category)
      ensures outcome.Fail? ==> error == Some(MessageOr(outcome.error, SAVE_FAILED))
    {
      var t0, c0 := text, category;
      p := BeginSubmit();
      assert text == t0 && category == c0 && error == None;
      SubmitSettled(outcome);
    }
  }
}
