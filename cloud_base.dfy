/** The shared library of the services: the four named stream channels of
    `CustomSinkSource` and the `CustomMessage` envelope. */
module CloudBase {
  import opened Wrappers
  import opened Text

  // ---------------------------------------------------------------- channels

  const OutChannel1: string := "customOutChannel1"
  const OutChannel2: string := "customOutChannel2"
  const InChannel1: string := "customInChannel1"
  const InChannel2: string := "customInChannel2"

  /** The four channels bound by `CustomSinkSource`: `input1()`, `input2()`,
      `output1()` and `output2()`. */
  datatype Channel = Input1 | Input2 | Output1 | Output2

  /** The constant each channel is bound under. */
  function ChannelName(c: Channel): string {
    match c
    case Input1 => InChannel1
    case Input2 => InChannel2
    case Output1 => OutChannel1
    case Output2 => OutChannel2
  }

  /** The channel a request parameter names, tried in the order of the
      server's `when` expression; no channel for any other string. */
  function ChannelOf(name: string): (r: Option<Channel>)
    ensures forall c :: r == Some(c) <==> name == ChannelName(c)
  {
    if name == InChannel1 then Some(Input1)
    else if name == InChannel2 then Some(Input2)
    else if name == OutChannel1 then Some(Output1)
    else if name == OutChannel2 then Some(Output2)
    else None
  }

  /** The four constants are pairwise distinct, so at most one branch of the
      server's dispatch can match. */
  lemma ChannelNamesDistinct(c: Channel, d: Channel)
    ensures ChannelName(c) == ChannelName(d) <==> c == d
  {
  }

  // ---------------------------------------------------------------- message envelope

  /** `data class CustomMessage(val index: Int, val type: String, val content: String)`. */
  datatype CustomMessage = CustomMessage(index: Int32, msgType: string, content: string)

  /** The data class constructor with its default arguments: an omitted
      argument takes index 0, type "" or content "". */
  function NewCustomMessage(index: Option<Int32>, msgType: Option<string>, content: Option<string>): (m: CustomMessage)
    ensures m.index == (if index.Some? then index.value else 0)
    ensures m.msgType == (if msgType.Some? then msgType.value else "")
    ensures m.content == (if content.Some? then content.value else "")
  {
    CustomMessage(index.GetOr(0), msgType.GetOr(""), content.GetOr(""))
  }

  /** `CustomMessage()` is the empty envelope. */
  lemma DefaultMessage()
    ensures NewCustomMessage(None, None, None) == CustomMessage(0, "", "")
  {
  }

  /** `CustomMessage(i, t, c)` keeps its three arguments. */
  lemma MessageKeepsFields(i: Int32, t: string, c: string)
    ensures var m := NewCustomMessage(Some(i), Some(t), Some(c));
      m.index == i && m.msgType == t && m.content == c
  {
  }

  /** Data class equality: two envelopes are equal iff all three fields are. */
  lemma MessageEquality(a: CustomMessage, b: CustomMessage)
    ensures a == b <==> (a.index == b.index && a.msgType == b.msgType && a.content == b.content)
  {
  }

  /** The generated `toString()` of the data class. */
  function MessageToString(m: CustomMessage): string {
    "CustomMessage(index=" + IntToString(m.index) + ", type=" + m.msgType + ", content=" + m.content + ")"
  }
}
