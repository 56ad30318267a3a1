/**
 * The begin / ack / item / end stream sub-protocol that carries lists of
 * posts and display lines between server and reader.
 *
 * A socket is replaced by a `Channel`: the sequence of messages the peer
 * will deliver (`inbox`) and the log of messages sent so far (`outbox`).
 * Where the program would wait forever for a message that never comes, the
 * model stops with status `Blocked`; where it would raise on a malformed
 * message, it stops with status `Crashed`.
 */
module Stream {
  import opened PyText
  import Wire

  datatype Status = Done | Blocked | Crashed

  /** What the sending side of a stream does: the messages it sends, how it stops, the inbox left over. */
  datatype SendRun = SendRun(sent: seq<string>, status: Status, rest: seq<string>)

  /** What the receiving side does: the items it collects, the messages it sends, how it stops, the inbox left over. */
  datatype ReceiveRun = ReceiveRun(items: seq<string>, sent: seq<string>, status: Status, rest: seq<string>)

  /**
   * Reads until the exact message `want` arrives (`listenFor`): the inbox
   * after the first `want`, or `None` when `want` never comes.
   */
  function Await(inbox: seq<string>, want: string): (r: Option<seq<string>>)
    ensures r.Some? <==> want in inbox
    ensures r.Some? ==> |r.value| < |inbox|
  {
    if inbox == [] then None
    else if inbox[0] == want then Some(inbox[1..])
    else
      assert inbox == [inbox[0]] + inbox[1..];
      Await(inbox[1..], want)
  }

  /** `Await` stops right after the first occurrence of the awaited message. */
  lemma {:induction false} AwaitFirst(inbox: seq<string>, want: string)
    requires want in inbox
    ensures exists k ::
      0 <= k < |inbox| && inbox[k] == want && want !in inbox[..k] && Await(inbox, want) == Some(inbox[k + 1..])
  {
    if inbox[0] == want {
      assert inbox[..0] == [];
    } else {
      assert inbox == [inbox[0]] + inbox[1..];
      AwaitFirst(inbox[1..], want);
      var k :| 0 <= k < |inbox[1..]| && inbox[1..][k] == want && want !in inbox[1..][..k] &&
        Await(inbox[1..], want) == Some(inbox[1..][k + 1..]);
      assert inbox[..k + 1] == [inbox[0]] + inbox[1..][..k];
      assert inbox[k + 2..] == inbox[1..][k + 1..];
    }
  }

  /** The items then the end marker, each item followed by a wait for `#ack`. */
  function SendItems(items: seq<string>, ack: string, end: string, inbox: seq<string>): SendRun
  {
    if items == [] then SendRun(["#" + end], Done, inbox)
    else
      match Await(inbox, "#" + ack)
      case None => SendRun([items[0]], Blocked, [])
      case Some(rest) =>
        var r := SendItems(items[1..], ack, end, rest);
        SendRun([items[0]] + r.sent, r.status, r.rest)
  }

  /**
   * The send loop never raises; it either sends every item and the end
   * marker, or stops, waiting forever, after sending a non-empty prefix of
   * the items.
   */
  lemma {:induction false} SendItemsShape(items: seq<string>, ack: string, end: string, inbox: seq<string>)
    ensures var r := SendItems(items, ack, end, inbox);
      r.status != Crashed &&
      (r.status == Done ==> r.sent == items + ["#" + end]) &&
      (r.status == Blocked ==> 0 < |r.sent| <= |items| && r.sent == items[..|r.sent|] && r.rest == [])
  {
    if items != [] {
      match Await(inbox, "#" + ack)
      case None =>
      case Some(rest) =>
        SendItemsShape(items[1..], ack, end, rest);
        assert items == [items[0]] + items[1..];
    }
  }

  /** A run that first sends `prefix`. */
  function After(prefix: seq<string>, r: SendRun): SendRun
  {
    SendRun(prefix + r.sent, r.status, r.rest)
  }

  /** One item of the send loop: send it, then wait for the ack. */
  lemma SendItemsStep(items: seq<string>, i: nat, ack: string, end: string, inbox: seq<string>)
    requires i < |items|
    ensures Await(inbox, "#" + ack).None? ==>
      After(items[..i], SendItems(items[i..], ack, end, inbox)) == SendRun(items[..i + 1], Blocked, [])
    ensures Await(inbox, "#" + ack).Some? ==>
      After(items[..i], SendItems(items[i..], ack, end, inbox)) ==
      After(items[..i + 1], SendItems(items[i + 1..], ack, end, Await(inbox, "#" + ack).value))
  {
    var tail := items[i..];
    assert tail[0] == items[i] && tail[1..] == items[i + 1..];
    var waited := Await(inbox, "#" + ack);
    if waited.Some? {
      var r := SendItems(tail[1..], ack, end, waited.value);
      assert SendItems(tail, ack, end, inbox) == SendRun([items[i]] + r.sent, r.status, r.rest);
      assert items[..i] + ([items[i]] + r.sent) == items[..i + 1] + r.sent;
    } else {
      assert items[..i] + [items[i]] == items[..i + 1];
    }
  }

  /** The log after one more item is sent. */
  lemma SentOneMore(out0: seq<string>, items: seq<string>, i: nat)
    requires i < |items|
    ensures out0 + items[..i] + [items[i]] == out0 + items[..i + 1]
  {
    assert items[..i + 1] == items[..i] + [items[i]];
  }

  /** The send loop before its first item. */
  lemma SendLoopStart(items: seq<string>, ack: string, end: string, inbox: seq<string>)
    ensures SendItems(items, ack, end, inbox) == After(items[..0], SendItems(items[0..], ack, end, inbox))
  {
    assert items[..0] == [] && items[0..] == items;
  }

  /**
   * One turn of the send loop, from the inbox `waiting` it started with to
   * the outcome `now` of its wait for the ack.
   */
  lemma SendLoopStep(items: seq<string>, i: nat, ack: string, end: string, inbox0: seq<string>,
                     waiting: seq<string>, now: Option<seq<string>>)
    requires i < |items|
    requires SendItems(items, ack, end, inbox0) == After(items[..i], SendItems(items[i..], ack, end, waiting))
    requires now == Await(waiting, "#" + ack)
    ensures now.None? ==> SendItems(items, ack, end, inbox0) == SendRun(items[..i + 1], Blocked, [])
    ensures now.Some? ==>
      SendItems(items, ack, end, inbox0) == After(items[..i + 1], SendItems(items[i + 1..], ack, end, now.value))
  {
    SendItemsStep(items, i, ack, end, waiting);
  }

  /** The send loop after its last item: only the end marker is left. */
  lemma SendLoopEnd(items: seq<string>, ack: string, end: string, inbox0: seq<string>, inbox: seq<string>)
    requires SendItems(items, ack, end, inbox0) == After(items[..|items|], SendItems(items[|items|..], ack, end, inbox))
    ensures SendItems(items, ack, end, inbox0) == SendRun(items + ["#" + end], Done, inbox)
  {
    assert items[|items|..] == [] && items[..|items|] == items;
  }

  /**
   * `sendStream(listToSend, startMsg, startAckPhrase, ackPhrase, endMsg)`,
   * the same on both sides: `#start`, wait for `#startAck`, then the items,
   * then `#end`. Messages other than the awaited ack are discarded.
   */
  function SendStreamSpec(items: seq<string>, start: string, startAck: string, ack: string, end: string,
                          inbox: seq<string>): (r: SendRun)
    ensures r.status != Crashed
    ensures |r.sent| > 0 && r.sent[0] == "#" + start
    ensures r.status == Done ==> r.sent == ["#" + start] + items + ["#" + end]
    ensures r.status == Blocked ==> |r.sent| <= |items| + 1 && r.sent == ["#" + start] + items[..|r.sent| - 1] && r.rest == []
  {
    match Await(inbox, "#" + startAck)
    case None => SendRun(["#" + start], Blocked, [])
    case Some(rest) =>
      var r := SendItems(items, ack, end, rest);
      SendItemsShape(items, ack, end, rest);
      SendRun(["#" + start] + r.sent, r.status, r.rest)
  }

  /** The start of a stream: `#start`, then the wait for `#startAck`. */
  lemma SendStreamStart(items: seq<string>, start: string, startAck: string, ack: string, end: string, inbox: seq<string>)
    ensures Await(inbox, "#" + startAck).None? ==>
      SendStreamSpec(items, start, startAck, ack, end, inbox) == SendRun(["#" + start], Blocked, [])
    ensures Await(inbox, "#" + startAck).Some? ==>
      SendStreamSpec(items, start, startAck, ack, end, inbox) ==
      After(["#" + start] + items[..0], SendItems(items[0..], ack, end, Await(inbox, "#" + startAck).value))
  {
    assert items[..0] == [] && items[0..] == items;
  }

  /** `n` copies of the ack message. */
  function Acks(ack: string, n: nat): (r: seq<string>)
    ensures |r| == n && forall i :: 0 <= i < n ==> r[i] == "#" + ack
  {
    if n == 0 then [] else ["#" + ack] + Acks(ack, n - 1)
  }

  /** Index of the first non-empty message (`while msg == ""` skips empty reads). */
  function FirstNonEmpty(inbox: seq<string>): (r: Option<nat>)
    ensures r.Some? ==> r.value < |inbox| && inbox[r.value] != "" && forall j :: 0 <= j < r.value ==> inbox[j] == ""
    ensures r.None? ==> forall j :: 0 <= j < |inbox| ==> inbox[j] == ""
  {
    if inbox == [] then None
    else if inbox[0] != "" then Some(0)
    else
      match FirstNonEmpty(inbox[1..])
      case None => None
      case Some(k) => Some(k + 1)
  }

  /**
   * The receive loop of `receiveStream`: every non-empty message whose tag
   * is not `end` is an item and is answered by `#ack`; a non-empty message
   * without '#' raises IndexError.
   */
  function ReceiveItems(inbox: seq<string>, ack: string, end: string): ReceiveRun
    decreases |inbox|
  {
    match FirstNonEmpty(inbox)
    case None => ReceiveRun([], [], Blocked, [])
    case Some(k) =>
      var msg := inbox[k];
      match Wire.Tag(msg)
      case None => ReceiveRun([], [], Crashed, inbox[k + 1..])
      case Some(t) =>
        if t == end then ReceiveRun([], [], Done, inbox[k + 1..])
        else
          var r := ReceiveItems(inbox[k + 1..], ack, end);
          ReceiveRun([msg] + r.items, ["#" + ack] + r.sent, r.status, r.rest)
  }

  /**
   * The receiver answers each collected item with one ack; every item is a
   * non-empty message with a tag other than the end marker; a receiver that
   * ran out of messages has consumed them all.
   */
  lemma {:induction false} ReceiveItemsShape(inbox: seq<string>, ack: string, end: string)
    ensures var r := ReceiveItems(inbox, ack, end);
      r.sent == Acks(ack, |r.items|) &&
      (forall i :: 0 <= i < |r.items| ==> IsItem(r.items[i], end)) &&
      (r.status == Blocked ==> r.rest == [])
    decreases |inbox|
  {
    ReceiveItemsFrom(inbox, ack, end);
    NextNonEmptyShrinks(inbox);
    var next := NextNonEmpty(inbox);
    if next.0.Some? && Wire.Tag(next.0.value).Some? && Wire.Tag(next.0.value).value != end {
      var msg := next.0.value;
      ReceiveItemsShape(next.1, ack, end);
      var r := ReceiveItems(next.1, ack, end);
      var whole := ReceiveItems(inbox, ack, end);
      assert whole == ReceiveRun([msg] + r.items, ["#" + ack] + r.sent, r.status, r.rest);
      assert IsItem(msg, end);
      forall i | 0 <= i < |whole.items|
        ensures IsItem(whole.items[i], end)
      {
        if i > 0 {
          assert whole.items[i] == r.items[i - 1];
        }
      }
    }
  }

  /**
   * The receive loop from the point where message `msg` has just been read
   * (`None`: no message will ever come) and `rest` is still to arrive.
   */
  function ReceiveFrom(msg: Option<string>, rest: seq<string>, ack: string, end: string): ReceiveRun
  {
    match msg
    case None => ReceiveRun([], [], Blocked, [])
    case Some(m) =>
      match Wire.Tag(m)
      case None => ReceiveRun([], [], Crashed, rest)
      case Some(t) =>
        if t == end then ReceiveRun([], [], Done, rest)
        else
          var r := ReceiveItems(rest, ack, end);
          ReceiveRun([m] + r.items, ["#" + ack] + r.sent, r.status, r.rest)
  }

  /** The next non-empty message of an inbox and what follows it. */
  function NextNonEmpty(inbox: seq<string>): (Option<string>, seq<string>)
  {
    match FirstNonEmpty(inbox)
    case None => (None, [])
    case Some(k) => (Some(inbox[k]), inbox[k + 1..])
  }

  /** An empty read is skipped. */
  lemma NextNonEmptySkip(inbox: seq<string>)
    requires inbox != [] && inbox[0] == ""
    ensures NextNonEmpty(inbox) == NextNonEmpty(inbox[1..])
  {
    var tail := inbox[1..];
    match FirstNonEmpty(tail)
    case None =>
    case Some(k) =>
      assert inbox[k + 1] == tail[k];
      assert inbox[k + 2..] == tail[k + 1..];
  }

  /** Reading past the next non-empty message shortens the inbox; `None` means nothing is left. */
  lemma NextNonEmptyShrinks(inbox: seq<string>)
    ensures NextNonEmpty(inbox).0.None? ==> NextNonEmpty(inbox).1 == []
    ensures NextNonEmpty(inbox).0.Some? ==> |NextNonEmpty(inbox).1| < |inbox|
  {
  }

  /** The receive loop reads the first non-empty message and goes on from there. */
  lemma ReceiveItemsFrom(inbox: seq<string>, ack: string, end: string)
    ensures ReceiveItems(inbox, ack, end) == ReceiveFrom(NextNonEmpty(inbox).0, NextNonEmpty(inbox).1, ack, end)
  {
  }

  /** A receive run preceded by items already collected and acknowledged. */
  function Collected(items: seq<string>, ack: string, r: ReceiveRun): ReceiveRun
  {
    ReceiveRun(items + r.items, Acks(ack, |items|) + r.sent, r.status, r.rest)
  }

  /** Taking one more item moves it from the rest of the run to the collected prefix. */
  lemma CollectedStep(items: seq<string>, m: string, ack: string, r: ReceiveRun)
    ensures Collected(items, ack, ReceiveRun([m] + r.items, ["#" + ack] + r.sent, r.status, r.rest)) ==
            Collected(items + [m], ack, r)
  {
    AcksSnoc(ack, |items|);
    assert items + ([m] + r.items) == items + [m] + r.items;
    assert Acks(ack, |items|) + (["#" + ack] + r.sent) == Acks(ack, |items|) + ["#" + ack] + r.sent;
  }

  lemma {:induction false} AcksSnoc(ack: string, n: nat)
    ensures Acks(ack, n + 1) == Acks(ack, n) + ["#" + ack]
  {
    if n > 0 {
      AcksSnoc(ack, n - 1);
    }
  }

  /** The receive loop before its first item. */
  lemma ReceiveLoopStart(inbox0: seq<string>, ack: string, end: string)
    ensures ReceiveItems(inbox0, ack, end) ==
      Collected([], ack, ReceiveFrom(NextNonEmpty(inbox0).0, NextNonEmpty(inbox0).1, ack, end))
  {
    ReceiveItemsFrom(inbox0, ack, end);
    var r := ReceiveFrom(NextNonEmpty(inbox0).0, NextNonEmpty(inbox0).1, ack, end);
    assert [] + r.items == r.items && [] + r.sent == r.sent;
  }

  /** One turn of the receive loop: item `m` is collected and the next message read. */
  lemma ReceiveLoopStep(items: seq<string>, m: string, rest: seq<string>, ack: string, end: string, inbox0: seq<string>)
    requires Wire.Tag(m).Some? && Wire.Tag(m).value != end
    requires ReceiveItems(inbox0, ack, end) == Collected(items, ack, ReceiveFrom(Some(m), rest, ack, end))
    ensures ReceiveItems(inbox0, ack, end) ==
      Collected(items + [m], ack, ReceiveFrom(NextNonEmpty(rest).0, NextNonEmpty(rest).1, ack, end))
    ensures NextNonEmpty(rest).0.None? ==> NextNonEmpty(rest).1 == []
    ensures NextNonEmpty(rest).0.Some? ==> |NextNonEmpty(rest).1| < |rest|
  {
    CollectedStep(items, m, ack, ReceiveItems(rest, ack, end));
    ReceiveItemsFrom(rest, ack, end);
    NextNonEmptyShrinks(rest);
  }

  /** How the receive loop ends, by the message that stopped it. */
  lemma ReceiveLoopEnd(items: seq<string>, msg: Option<string>, rest: seq<string>, ack: string, end: string,
                       inbox0: seq<string>)
    requires ReceiveItems(inbox0, ack, end) == Collected(items, ack, ReceiveFrom(msg, rest, ack, end))
    requires !(msg.Some? && Wire.Tag(msg.value).Some? && Wire.Tag(msg.value).value != end)
    ensures msg.None? ==> ReceiveItems(inbox0, ack, end) == ReceiveRun(items, Acks(ack, |items|), Blocked, [])
    ensures msg.Some? && Wire.Tag(msg.value).None? ==>
      ReceiveItems(inbox0, ack, end) == ReceiveRun(items, Acks(ack, |items|), Crashed, rest)
    ensures msg.Some? && Wire.Tag(msg.value).Some? ==>
      ReceiveItems(inbox0, ack, end) == ReceiveRun(items, Acks(ack, |items|), Done, rest)
  {
    var r := ReceiveFrom(msg, rest, ack, end);
    var acks := Acks(ack, |items|);
    assert items + [] == items && acks + [] == acks;
    if msg.None? {
      assert r == ReceiveRun([], [], Blocked, []);
      assert Collected(items, ack, r) == ReceiveRun(items, acks, Blocked, []);
    } else if Wire.Tag(msg.value).None? {
      assert r == ReceiveRun([], [], Crashed, rest);
      assert Collected(items, ack, r) == ReceiveRun(items, acks, Crashed, rest);
    } else {
      assert Wire.Tag(msg.value).value == end;
      assert r == ReceiveRun([], [], Done, rest);
      assert Collected(items, ack, r) == ReceiveRun(items, acks, Done, rest);
    }
  }

  /** `receiveStream(startAckPhrase, ackPhrase, endMsg)`: `#startAck` first, then the receive loop. */
  function ReceiveStreamSpec(startAck: string, ack: string, end: string, inbox: seq<string>): (r: ReceiveRun)
    ensures r.sent == ["#" + startAck] + Acks(ack, |r.items|)
  {
    var r := ReceiveItems(inbox, ack, end);
    ReceiveItemsShape(inbox, ack, end);
    ReceiveRun(r.items, ["#" + startAck] + r.sent, r.status, r.rest)
  }

  /** A message the receiver takes as a stream item rather than the end marker. */
  predicate IsItem(msg: string, end: string)
  {
    msg != "" && Wire.Tag(msg).Some? && Wire.Tag(msg).value != end
  }

  lemma EndMarkerTag(end: string)
    requires '#' !in end
    ensures Wire.Tag("#" + end) == Some(end)
  {
    SplitAtFirst("", '#', end);
    assert "" + ['#'] + end == "#" + end;
    AbsentCharNoOccurrence(end, "#", '#');
    SplitNoOccurrence(end, "#");
  }

  /** The receiver collects exactly the items sent before the end marker, answering each with one ack. */
  lemma {:induction false} ReceiveItemsCollects(items: seq<string>, ack: string, end: string, more: seq<string>)
    requires '#' !in end
    requires forall i :: 0 <= i < |items| ==> IsItem(items[i], end)
    ensures ReceiveItems(items + ["#" + end] + more, ack, end) == ReceiveRun(items, Acks(ack, |items|), Done, more)
    decreases |items|
  {
    var inbox := items + ["#" + end] + more;
    EndMarkerTag(end);
    if items == [] {
      assert inbox[0] == "#" + end;
      assert inbox[1..] == more;
    } else {
      assert inbox[0] == items[0];
      assert inbox[1..] == items[1..] + ["#" + end] + more;
      ReceiveItemsCollects(items[1..], ack, end, more);
      assert [items[0]] + items[1..] == items;
    }
  }

  /** The sender gets past every wait when its inbox holds one ack per item. */
  lemma {:induction false} SendItemsCompletes(items: seq<string>, ack: string, end: string, more: seq<string>)
    ensures SendItems(items, ack, end, Acks(ack, |items|) + more) == SendRun(items + ["#" + end], Done, more)
    decreases |items|
  {
    if items != [] {
      var inbox := Acks(ack, |items|) + more;
      assert inbox[0] == "#" + ack;
      assert inbox[1..] == Acks(ack, |items| - 1) + more;
      SendItemsCompletes(items[1..], ack, end, more);
      assert [items[0]] + items[1..] == items;
    }
  }

  /**
   * The two ends of a stream agree: when the receiver is fed what the sender
   * sends after its start message, and the sender is fed what the receiver
   * sends, both finish, the receiver holding exactly the sent items in order.
   */
  lemma StreamHandshake(items: seq<string>, start: string, startAck: string, ack: string, end: string)
    requires '#' !in end
    requires forall i :: 0 <= i < |items| ==> IsItem(items[i], end)
    ensures ReceiveStreamSpec(startAck, ack, end, items + ["#" + end]) ==
            ReceiveRun(items, ["#" + startAck] + Acks(ack, |items|), Done, [])
    ensures SendStreamSpec(items, start, startAck, ack, end, ["#" + startAck] + Acks(ack, |items|)) ==
            SendRun(["#" + start] + items + ["#" + end], Done, [])
  {
    ReceiveItemsCollects(items, ack, end, []);
    assert items + ["#" + end] + [] == items + ["#" + end];
    SendItemsCompletes(items, ack, end, []);
    assert (["#" + startAck] + Acks(ack, |items|))[1..] == Acks(ack, |items|) + [];
  }

  /** A socket: messages still to be received and the log of messages sent. */
  class Channel {
    var inbox: seq<string>
    var outbox: seq<string>

    constructor (incoming: seq<string>)
      ensures inbox == incoming && outbox == []
    {
      inbox := incoming;
      outbox := [];
    }

    /** `sock.send(msg)`. */
    method Send(msg: string)
      modifies this
      ensures outbox == old(outbox) + [msg] && inbox == old(inbox)
    {
      outbox := outbox + [msg];
    }

    /** `selectRecv`: the next message, or `None` when none will ever come. */
    method Recv() returns (msg: Option<string>)
      modifies this
      ensures old(inbox) == [] ==> msg.None? && inbox == []
      ensures old(inbox) != [] ==> msg == Some(old(inbox)[0]) && inbox == old(inbox)[1..]
      ensures outbox == old(outbox)
    {
      if inbox == [] {
        msg := None;
      } else {
        msg := Some(inbox[0]);
        inbox := inbox[1..];
      }
    }
  }
}
