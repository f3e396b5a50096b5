/**
 * The message input box: the text typed so far, the guard in front of a
 * submit, the Enter/Shift rule and the send button's disabled state.
 */
module InputBox {
  import opened Wrappers
  import opened JsStrings

  /** Enter without Shift submits; Shift+Enter and every other key do not. */
  function IsSubmitKey(key: string, shiftKey: bool): (submit: bool)
    ensures shiftKey ==> !submit
    ensures key != "Enter" ==> !submit
    ensures key == "Enter" && !shiftKey ==> submit
  {
    key == "Enter" && !shiftKey
  }

  class InputForm {
    var input: string

    constructor ()
      ensures input == ""
    {
      input := "";
    }

    /** The send button's `disabled` flag: on while loading or while nothing but white space is typed. */
    function SendDisabled(isLoading: bool): (disabled: bool)
      reads this
      ensures disabled <==> isLoading || AllWhiteSpace(input)
    {
      Blank(input) || isLoading
    }

    /** The textarea's change handler: the buffer becomes the textarea's value. */
    method OnChange(value: string)
      modifies this
      ensures input == value
    {
      input := value;
    }

    /**
     * Submits the buffer: hands it on exactly as typed and clears it, unless
     * it is blank or a reply is awaited, in which case nothing happens. The
     * button is disabled exactly when this would do nothing.
     */
    method HandleSendMessage(isLoading: bool) returns (sent: Option<string>)
      modifies this
      ensures sent.None? <==> old(SendDisabled(isLoading))
      ensures sent.None? ==> input == old(input)
      ensures sent.Some? ==> sent.value == old(input) && !Blank(sent.value) && input == ""
    {
      if Blank(input) || isLoading {
        return None;
      }
      sent := Some(input);
      input := "";
    }

    /** The key handler: a submit key prevents the default and submits. */
    method HandleKeyDown(key: string, shiftKey: bool, isLoading: bool)
      returns (preventDefault: bool, sent: Option<string>)
      modifies this
      ensures preventDefault == IsSubmitKey(key, shiftKey)
      ensures sent.Some? ==> preventDefault && !old(SendDisabled(isLoading))
      ensures sent.Some? ==> sent.value == old(input) && input == ""
      ensures sent.None? ==> input == old(input)
      ensures preventDefault && !old(SendDisabled(isLoading)) ==> sent.Some?
    {
      preventDefault := IsSubmitKey(key, shiftKey);
      sent := None;
      if preventDefault {
        sent := HandleSendMessage(isLoading);
      }
    }
  }
}
