/** The server's `MessageController.testCustomMessage`: numbers each custom
    message from a counter, wraps it in a `CustomMessage` and sends it to the
    one named channel, if any. The channel send is an oracle. */
module CloudServerMessages {
  import opened Wrappers
  import opened Text
  import opened CloudBase

  /** `AtomicInteger.incrementAndGet()` on a 32-bit counter: two's-complement
      addition, so the successor of `Int.MAX_VALUE` is `Int.MIN_VALUE`. */
  function IncrementAndGet(i: Int32): (r: Int32)
    ensures i < MaxInt ==> r == i + 1
    ensures i == MaxInt ==> r == MinInt
  {
    (i as int + 1 - MinInt) % 0x1_0000_0000 + MinInt
  }

  /** The counter value after `n` increments of a fresh `AtomicInteger()`. */
  function IndexAfter(n: nat): Int32 {
    if n == 0 then 0 else IncrementAndGet(IndexAfter(n - 1))
  }

  /** Until the counter overflows, the `n`-th message gets index `n`: the
      first gets 1. */
  lemma {:induction false} IndexAfterCounts(n: nat)
    requires n <= MaxInt
    ensures IndexAfter(n) == n
  {
    if n > 0 {
      IndexAfterCounts(n - 1);
    }
  }

  /** Indexes strictly increase from call to call until the counter overflows. */
  lemma IndexesIncrease(m: nat, n: nat)
    requires m < n <= MaxInt
    ensures IndexAfter(m) < IndexAfter(n)
  {
    IndexAfterCounts(m);
    IndexAfterCounts(n);
  }

  /** The call after the `Int.MAX_VALUE`-th gets index `Int.MIN_VALUE`. */
  lemma IndexWraps()
    ensures IndexAfter(MaxInt + 1) == MinInt
  {
    IndexAfterCounts(MaxInt);
  }

  /** Where a message went and what the send reported. */
  datatype Dispatch = Dispatch(target: Option<Channel>, success: bool)

  /** The `when (channel)` of the handler: a channel name selects exactly its
      channel, whose send result is reported; any other name sends nothing
      and reports `false`. */
  function DispatchTo(channel: string, msg: CustomMessage, send: (Channel, CustomMessage) -> bool): (d: Dispatch)
    ensures forall c :: d.target == Some(c) <==> channel == ChannelName(c)
    ensures d.success <==> d.target.Some? && send(d.target.value, msg)
  {
    match ChannelOf(channel)
    case Some(c) => Dispatch(Some(c), send(c, msg))
    case None => Dispatch(None, false)
  }

  /** The handler's reply text; it ends in the reported send result, which
      the string template renders as `true` or `false`. */
  function SendReport(msg: CustomMessage, channel: string, success: bool): (r: string)
    ensures success ==> |r| >= 15 && r[|r| - 15..] == ", success: true"
    ensures !success ==> |r| >= 16 && r[|r| - 16..] == ", success: false"
  {
    var head := ReportHead(msg, channel);
    if success then EndsWith(head, ", success: true"); head + ", success: true"
    else EndsWith(head, ", success: false"); head + ", success: false"
  }

  /** The part of the reply before the send result. */
  function ReportHead(msg: CustomMessage, channel: string): string {
    "Send message: " + MessageToString(msg) + ", channel: " + channel
  }

  lemma EndsWith(head: string, tail: string)
    ensures (head + tail)[|head + tail| - |tail|..] == tail
  {
    assert (head + tail)[|head|..] == tail;
  }

  class MessageController {
    /** `private val index = AtomicInteger()`. */
    var index: Int32

    constructor()
      ensures index == 0
    {
      index := 0;
    }

    /** `testCustomMessage(message, channel, type)`: takes the next index
        (also when the channel is unknown), builds the envelope with `""` for
        a missing type, sends it to the named channel through the `send`
        oracle, and reports the outcome. `sentTo` is the channel the envelope
        was handed to. */
    method TestCustomMessage(message: string, channel: string, msgType: Option<string>,
                             send: (Channel, CustomMessage) -> bool)
      returns (reply: string, sentTo: Option<(Channel, CustomMessage)>)
      modifies this
      ensures index == IncrementAndGet(old(index))
      ensures var msg := CustomMessage(index, msgType.GetOr(""), message);
        && (forall c :: sentTo == Some((c, msg)) <==> channel == ChannelName(c))
        && (sentTo.Some? ==> sentTo.value.1 == msg)
        && reply == SendReport(msg, channel, sentTo.Some? && send(sentTo.value.0, msg))
    {
      index := IncrementAndGet(index);
      var msg := NewCustomMessage(Some(index), Some(msgType.GetOr("")), Some(message));
      var d := DispatchTo(channel, msg, send);
      sentTo := if d.target.Some? then Some((d.target.value, msg)) else None;
      reply := SendReport(msg, channel, d.success);
    }
  }
}
