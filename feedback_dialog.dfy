/**
 * The feedback form: a type chosen from four and a free-text message, sent
 * to the dashboard unless the message is blank.
 */
module FeedbackDialog {
  import opened Optional
  import opened JsString

  const DefaultType: string := "suggestion"

  /** The values the type select offers. */
  predicate IsFeedbackType(t: string) {
    t == "suggestion" || t == "complaint" || t == "bug" || t == "other"
  }

  /** The arguments of one `onFeedbackSubmit` call. */
  datatype Feedback = Feedback(feedbackType: string, message: string)

  /** `message.trim().length === 0` */
  predicate IsBlank(message: string)
    ensures IsBlank(message) <==> AllWhitespace(message)
  {
    |Trim(message)| == 0
  }

  class FeedbackForm {
    var feedbackType: string
    var feedbackMessage: string

    ghost predicate IsReset()
      reads this
    {
      feedbackType == DefaultType && feedbackMessage == ""
    }

    constructor ()
      ensures IsReset()
    {
      feedbackType := DefaultType;
      feedbackMessage := "";
    }

    /** Whether the "Submit Feedback" button is disabled. */
    predicate SubmitDisabled()
      reads this
      ensures SubmitDisabled() <==> AllWhitespace(feedbackMessage)
    {
      IsBlank(feedbackMessage)
    }

    /** The type select's `onValueChange`. */
    method SetFeedbackType(t: string)
      requires IsFeedbackType(t)
      modifies this`feedbackType
      ensures feedbackType == t
    {
      feedbackType := t;
    }

    /** The message text area's `onChange`. */
    method SetFeedbackMessage(m: string)
      modifies this`feedbackMessage
      ensures feedbackMessage == m
    {
      feedbackMessage := m;
    }

    /** `resetForm` */
    method ResetForm()
      modifies this
      ensures IsReset()
    {
      feedbackType := DefaultType;
      feedbackMessage := "";
    }

    /**
     * `handleSubmit`: sends nothing and changes nothing exactly when the
     * button is disabled, that is when the message is all whitespace;
     * otherwise sends the type and the message as typed (not trimmed) and
     * resets the form.
     */
    method HandleSubmit() returns (sent: Option<Feedback>)
      modifies this
      ensures sent.None? <==> old(SubmitDisabled())
      ensures sent.None? <==> AllWhitespace(old(feedbackMessage))
      ensures sent.None? ==> feedbackType == old(feedbackType) && feedbackMessage == old(feedbackMessage)
      ensures sent.Some? ==> sent.value == Feedback(old(feedbackType), old(feedbackMessage)) && IsReset()
    {
      if |Trim(feedbackMessage)| == 0 {
        return None;
      }
      sent := Some(Feedback(feedbackType, feedbackMessage));
      ResetForm();
    }

    /** `onDialogOpenChange`: closing resets the form; opening changes nothing. */
    method OnDialogOpenChange(open: bool)
      modifies this
      ensures !open ==> IsReset()
      ensures open ==> feedbackType == old(feedbackType) && feedbackMessage == old(feedbackMessage)
    {
      if !open {
        ResetForm();
      }
    }
  }
}
