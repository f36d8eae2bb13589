/**
 * The message box: its 4000-character cap, the submit guard shared by the
 * send button and the Enter key, and the length counter near the cap.
 */
module ChatInput {
  import opened Base
  import opened Text

  /** The textarea's `maxLength`. */
  const MAX_LENGTH: nat := 4000
  /** The counter shows above this many characters. */
  const COUNTER_FROM: nat := 3800

  /** The send button is enabled, and a submit sends, exactly when the box
      is not disabled and holds some non-whitespace text. */
  predicate CanSend(disabled: bool, input: string) {
    !disabled && !IsJsBlank(input)
  }

  /** The "<length>/4000" counter, shown only near the cap. */
  function Counter(input: string): (r: Option<string>)
    ensures r.Some? <==> |input| > COUNTER_FROM
    ensures r.Some? ==> r.value == NatToString(|input|) + "/4000"
  {
    if |input| > COUNTER_FROM then Some(NatToString(|input|) + "/4000") else None
  }

  class ChatInputState {
    var input: string

    ghost predicate Valid()
      reads this
    {
      |input| <= MAX_LENGTH
    }

    constructor ()
      ensures Valid() && input == ""
    {
      input := "";
    }

    /** A change event: the browser keeps at most `maxLength` characters
        of what was typed or pasted. */
    method Change(value: string)
      modifies this
      ensures Valid()
      ensures input <= value
      ensures |value| <= MAX_LENGTH ==> input == value
      ensures |value| > MAX_LENGTH ==> |input| == MAX_LENGTH
    {
      input := Take(value, MAX_LENGTH);
    }

    /** `handleSubmit`: when it may send, `onSend` gets the text as typed
        (not trimmed) and the box is cleared; otherwise nothing happens. */
    method Submit(disabled: bool) returns (sent: Option<string>)
      requires Valid()
      modifies this
      ensures Valid()
      ensures sent.Some? <==> CanSend(disabled, old(input))
      ensures sent.Some? ==> sent.value == old(input) && input == ""
      ensures sent.None? ==> input == old(input)
    {
      if disabled || IsJsBlank(input) {
        return None;
      }
      sent := Some(input);
      input := "";
    }

    /** A key press in the box: Enter without Shift submits; any other key,
        and Shift+Enter (a new line), does not. */
    method KeyDown(key: string, shift: bool, disabled: bool) returns (sent: Option<string>)
      requires Valid()
      modifies this
      ensures Valid()
      ensures !(key == "Enter" && !shift) ==> sent.None? && input == old(input)
      ensures key == "Enter" && !shift ==> (sent.Some? <==> CanSend(disabled, old(input)))
      ensures sent.Some? ==> sent.value == old(input) && input == ""
      ensures sent.None? ==> input == old(input)
    {
      if key == "Enter" && !shift {
        sent := Submit(disabled);
      } else {
        sent := None;
      }
    }
  }

  /** A text that starts with a visible character can always be sent from
      an enabled box, and the box is empty afterwards. */
  method TypeAndSend(box: ChatInputState, text: string) returns (sent: Option<string>)
    requires box.Valid()
    requires 0 < |text| <= MAX_LENGTH && !IsJsSpace(text[0])
    modifies box
    ensures sent == Some(text) && box.input == ""
  {
    box.Change(text);
    sent := box.Submit(false);
  }
}
