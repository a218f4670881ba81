/**
 The tool calls both parser syntaxes build, and the phases they go through.
 */
module ToolCalls {
  import opened Strings

  datatype Phase = Search | Structural | ParamValue | Done | Error

  datatype Arg = Arg(name: string, value: string, isString: bool)

  datatype Call = Call(name: Option<string>, args: seq<Arg>)

  const NO_CALL := Call(None, [])

  function NameOf(c: Call): string {
    if c.name.Some? then c.name.value else ""
  }

  /** Why a stanza was rejected; the C code keeps the corresponding message text. */
  datatype Reason =
    | NoReason
    | InvokeWithoutName
    | ParameterWithoutName
    | UnexpectedTag(tag: string)
    | MarkerOutsideBlock
    | GlmUnterminatedValue
    | GlmUnterminatedKey
    | GlmExpectedKeyOrClose
    | GlmNoName
    | GlmExpectedKey
    | GlmEmptyKey
    | GlmExpectedValue
}
