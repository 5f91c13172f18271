/** The load bot in its own form: counters and a queue of pending messages updated in place by a
    sending and a receiving task. Each step between awaits is proved to do to the bot's value what
    the functions of BotProtocol do. */
module BotObject {
  import opened Trading
  import opened BotProtocol
  import opened BotWorkload

  class LimitOrderBot {
    const startNs: int
    const intervalNs: int
    /** The ids drawn for the slots. */
    const ids: nat -> string
    var slot: nat
    var count: nat
    var errors: nat
    var pending: seq<nat>
    /** The message the receiving task has taken and the answers the connection holds for it. */
    var inFlight: seq<nat>
    var inbox: seq<Reply>
    /** What has been added to the event stream and to the stream of reported fills. */
    var events: seq<SlotEvent>
    var reported: seq<Trade>
    /** The orders added to the order stream and the messages that went out. */
    var orderStream: seq<Request>
    var wire: seq<Request>
    /** What the connection has carried, and what the receiving task has made of it. */
    var sent: seq<nat>
    var answered: seq<Reply>
    ghost var handled: seq<Outcome>

    ghost function View(): Bot
      reads this
    {
      Bot(slot, pending, inFlight, inbox, events, reported, count, errors, sent, answered, handled)
    }

    /** Every slot's order is in the order stream, sent or not, and the messages are those of the slots
        that were sent. */
    ghost predicate Streams()
      reads this`orderStream, this`wire, this`slot, this`sent
    {
      orderStream == BotStream(ids, slot) && wire == MessagesOf(ids, sent)
    }

    constructor (startNs: int, intervalNs: int, ids: nat -> string)
      ensures View() == STARTED && Streams()
      ensures this.startNs == startNs && this.intervalNs == intervalNs && this.ids == ids
    {
      this.startNs, this.intervalNs, this.ids, orderStream, wire := startNs, intervalNs, ids, [], [];
      slot, count, errors, pending, inFlight, inbox := 0, 0, 0, [], [], [];
      events, reported, sent, answered, handled := [], [], [], [], [];
    }

    /** The event of a slot, from an answer or from the lack of one. */
    method RecordResponse(s: nat, o: Outcome, now: int)
      modifies this`events, this`reported, this`count, this`errors
      ensures View() == Record(old(View()), s, o, now)
    {
      var stamps := NoStamps;
      if o.Got? {
        match o.reply {
          case Ack(_, ackTs, receivedTs, fills) =>
            var ack := if ackTs != 0 then ackTs else now;
            stamps := Stamps(ack, if receivedTs != 0 then receivedTs else ack);
            PostFills(fills);
          case Garbled(_) =>
            errors := errors + 1;
        }
      } else {
        errors := errors + 1;
      }
      events := events + [SlotEvent(s, stamps)];
      count := count + 1;
    }

    /** Post the fills of an answer, one by one. */
    method PostFills(fills: seq<Trade>)
      modifies this`reported
      ensures reported == old(reported) + fills
    {
      for i := 0 to |fills|
        invariant reported == old(reported) + fills[..i]
      {
        reported := reported + [fills[i]];
        assert fills[..i + 1] == fills[..i] + [fills[i]];
      }
      assert fills[..|fills|] == fills;
    }

    /** Make the order of the next slot and add it to the order stream. */
    method PostOrder() returns (intendedTs: int, msg: Request)
      requires Streams()
      modifies this`slot, this`orderStream
      ensures slot == old(slot) + 1 && intendedTs == IntendedTs(startNs, slot, intervalNs)
      ensures msg == BotRequest(ids, slot) && orderStream == old(orderStream) + [msg] == BotStream(ids, slot)
    {
      slot := slot + 1;
      intendedTs := IntendedTs(startNs, slot, intervalNs);
      var side := if slot % 2 == 0 then Buy else Sell;
      var price := Fin(100.0 + (slot % 10) as real);
      msg := Limit(ids(slot), side, price, 1);
      orderStream := orderStream + [msg];
    }

    /** Post the order of the next slot and send its message; the connection may refuse it. */
    method SendSlot(accepted: bool) returns (intendedTs: int, msg: Request)
      requires Streams()
      modifies this`slot, this`pending, this`errors, this`events, this`reported, this`count, this`sent,
               this`orderStream, this`wire
      ensures View() == Next(old(View()), Send(accepted)) && Streams()
      ensures intendedTs == IntendedTs(startNs, old(slot) + 1, intervalNs)
      ensures msg == BotRequest(ids, old(slot) + 1) && orderStream == old(orderStream) + [msg]
      ensures wire == if accepted then old(wire) + [msg] else old(wire)
    {
      intendedTs, msg := PostOrder();
      if accepted {
        MessagesNext(ids, sent, slot);
        pending, sent, wire := pending + [slot], sent + [slot], wire + [msg];
      } else {
        errors := errors + 1;
        RecordResponse(slot, Nothing, 0);
      }
    }

    /** The connection delivers the server's next answer. */
    method Deliver(body: Body)
      requires |answered| < |sent|
      modifies this`inbox, this`answered
      ensures View() == Next(old(View()), Answer(body))
    {
      var r := Addressed(sent[|answered|], body);
      answered, inbox := answered + [r], inbox + [r];
    }

    /** The receiving task takes the oldest pending message. */
    method TakePending()
      requires inFlight == [] && pending != []
      modifies this`pending, this`inFlight
      ensures View() == Next(old(View()), Take)
    {
      inFlight, pending := [pending[0]], pending[1..];
    }

    /** It waits for an answer and gets the oldest one there is, or runs out of time. */
    method AwaitAnswer(timedOut: bool, now: int)
      requires inFlight != [] && (!timedOut ==> inbox != [])
      modifies this`events, this`reported, this`count, this`errors, this`inFlight, this`inbox, this`handled
      ensures View() == Next(old(View()), if timedOut then TimeOut else Receive(now))
    {
      var o := Nothing;
      if !timedOut {
        o, inbox := Got(inbox[0]), inbox[1..];
      }
      RecordResponse(inFlight[0], o, if timedOut then 0 else now);
      inFlight, handled := [], handled + [o];
    }
  }
}
