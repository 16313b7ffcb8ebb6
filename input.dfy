/**
 * The message box (`MessageInput`): its `input` text, the submit guard, the
 * Enter-key shortcut and the send button's disabled rule.
 */
module Input {
  import opened Wrappers
  import opened Text

  /**
   * What a submit hands to `onSendMessage`: the trimmed text, when it is not
   * empty and the box is not disabled; nothing otherwise.
   */
  function Submission(input: string, disabled: bool): (r: Option<string>)
    ensures r.Some? <==> !disabled && !IsBlank(input)
    ensures r.Some? ==> r.value == Trim(input) && r.value != []
                        && !IsWhitespace(r.value[0]) && !IsWhitespace(r.value[|r.value| - 1])
  {
    TrimEmptyIffBlank(input);
    TrimEnds(input);
    if Trim(input) != [] && !disabled then Some(Trim(input)) else None
  }

  /** The send button's `disabled={disabled || !input.trim()}`. */
  predicate SendButtonDisabled(input: string, disabled: bool) {
    disabled || Trim(input) == []
  }

  /** The button is disabled exactly when pressing it would send nothing. */
  lemma SendButtonMatchesSubmit(input: string, disabled: bool)
    ensures SendButtonDisabled(input, disabled) <==> Submission(input, disabled).None?
    ensures SendButtonDisabled(input, disabled) <==> disabled || IsBlank(input)
  {
    TrimEmptyIffBlank(input);
  }

  /**
   * A sent message is never padded: whenever a submit sends (the box is
   * enabled and the text is not blank), it sends the trimmed text, and
   * sending that again would send it unchanged.
   */
  lemma SubmissionStable(input: string, disabled: bool)
    requires !disabled && !IsBlank(input)
    ensures Submission(input, disabled) == Some(Trim(input))
    ensures Submission(Trim(input), disabled) == Some(Trim(input))
  {
    TrimIdempotent(input);
    TrimEmptyIffBlank(Trim(input));
  }

  /** `e.key === "Enter" && !e.shiftKey`: the keys that submit. */
  predicate SubmitsOnKey(key: string, shiftKey: bool) {
    key == "Enter" && !shiftKey
  }

  class MessageInput {
    var input: string
    var disabled: bool

    constructor (disabled: bool)
      ensures input == "" && this.disabled == disabled
    {
      input := "";
      this.disabled := disabled;
    }

    /** The parent passes a new `disabled` prop. */
    method SetDisabled(d: bool)
      modifies this`disabled
      ensures disabled == d
    {
      disabled := d;
    }

    /** The textarea's `onChange`. */
    method OnChange(value: string)
      modifies this`input
      ensures input == value
    {
      input := value;
    }

    /** `handleSubmit`: returns the text passed to `onSendMessage`, if any. */
    method HandleSubmit() returns (sent: Option<string>)
      modifies this`input
      ensures sent == Submission(old(input), disabled)
      ensures input == if sent.Some? then "" else old(input)
    {
      var trimmed := Trim(input);
      if trimmed != [] && !disabled {
        sent := Some(trimmed);
        input := "";
      } else {
        sent := None;
      }
    }

    /** `handleKeyDown`: Enter without Shift submits; every other key does nothing. */
    method HandleKeyDown(key: string, shiftKey: bool) returns (sent: Option<string>)
      modifies this`input
      ensures SubmitsOnKey(key, shiftKey) ==> sent == Submission(old(input), disabled)
      ensures !SubmitsOnKey(key, shiftKey) ==> sent == None
      ensures input == if sent.Some? then "" else old(input)
    {
      if key == "Enter" && !shiftKey {
        sent := HandleSubmit();
      } else {
        sent := None;
      }
    }
  }
}
