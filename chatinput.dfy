/** The chat input box: the text being typed and the gate that decides
    whether pressing send forwards it. */
module ChatInput {
  import opened Types
  import opened JsString

  /** What pressing send forwards: the text exactly as typed, when it is not
      blank and no request is in flight; nothing otherwise. */
  function Submission(input: string, isLoading: bool): (sent: Option<string>)
    ensures sent.Some? <==> !AllWhitespace(input) && !isLoading
    ensures sent.Some? ==> sent.value == input
    ensures isLoading ==> sent == None
  {
    TrimEmpty(input);
    if Trim(input) != [] && !isLoading then Some(input) else None
  }

  class InputBox {
    var input: string

    constructor ()
      ensures input == []
    {
      input := [];
    }

    /** The input's `onChange`: the field takes the entered value. */
    method Change(value: string)
      modifies this
      ensures input == value
    {
      input := value;
    }

    /** `handleSubmit`: forwards the text when the gate lets it through and
        then empties the field; otherwise sends nothing and keeps the text. */
    method HandleSubmit(isLoading: bool) returns (sent: Option<string>)
      modifies this
      ensures sent == Submission(old(input), isLoading)
      ensures sent.Some? ==> input == []
      ensures sent.None? ==> input == old(input)
    {
      if Trim(input) != [] && !isLoading {
        sent := Some(input);
        input := [];
      } else {
        sent := None;
      }
    }
  }
}
