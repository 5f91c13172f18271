/** The load bot's protocol: a sender that works through its slots and a receiver that pairs what
    comes back with what was sent, first in first out. The two take turns at their awaits, and the
    server answers each message once, in order, when it likes. */
module BotProtocol {
  import opened Trading
  import opened ListEngine
  import EventCodec

  /** A server's answer to the message of one slot. A timestamp of zero is one the answer leaves out. */
  datatype Reply =
    | Ack(slot: nat, ackTs: int, receivedTs: int, fills: seq<Trade>)
    | Garbled(slot: nat)

  /** What the receiver got for a message: an answer, or nothing in time. */
  datatype Outcome = Got(reply: Reply) | Nothing

  datatype Stamps = NoStamps | Stamps(ackTs: int, receivedTs: int)

  datatype SlotEvent = SlotEvent(slot: nat, stamps: Stamps)

  /** `sent`, `answered` and `handled` remember the messages that went out, the answers to them, and
      what the receiver got for each; `inFlight` is the message the receiver is waiting for. */
  datatype Bot = Bot(
    slot: nat,
    pending: seq<nat>,
    inFlight: seq<nat>,
    inbox: seq<Reply>,
    events: seq<SlotEvent>,
    reported: seq<Trade>,
    count: nat,
    errors: nat,
    sent: seq<nat>,
    answered: seq<Reply>,
    handled: seq<Outcome>)

  const STARTED := Bot(0, [], [], [], [], [], 0, 0, [], [], [])

  datatype Body = Fine(ackTs: int, receivedTs: int, fills: seq<Trade>) | Malformed

  datatype Move =
    | Send(ok: bool)
    | Answer(body: Body)
    | Take
    | Receive(now: int)
    | TimeOut

  /** The answer to the message of `slot`. */
  function Addressed(slot: nat, body: Body): Reply {
    if body.Malformed? then Garbled(slot) else Ack(slot, body.ackTs, body.receivedTs, body.fills)
  }

  /** The timestamps an outcome yields, `now` standing in for one left out. */
  function StampsOf(o: Outcome, now: int): Stamps {
    if o.Nothing? || o.reply.Garbled? then NoStamps
    else
      var ack := if o.reply.ackTs != 0 then o.reply.ackTs else now;
      Stamps(ack, if o.reply.receivedTs != 0 then o.reply.receivedTs else ack)
  }

  function FillsIn(r: Reply): seq<Trade> {
    if r.Ack? then r.fills else []
  }

  /** Record what a slot came to. */
  function Record(b: Bot, slot: nat, o: Outcome, now: int): Bot {
    var stamps := StampsOf(o, now);
    b.(events := b.events + [SlotEvent(slot, stamps)], count := b.count + 1,
       errors := if stamps.NoStamps? then b.errors + 1 else b.errors,
       reported := if o.Got? then b.reported + FillsIn(o.reply) else b.reported)
  }

  /** A move that cannot happen does not. A failed send is an error by itself, and recorded as an
      order without an answer it is counted as one again. */
  function Next(b: Bot, m: Move): Bot {
    match m
    case Send(ok) =>
      var s := b.slot + 1;
      if ok then b.(slot := s, pending := b.pending + [s], sent := b.sent + [s])
      else Record(b.(slot := s, errors := b.errors + 1), s, Nothing, 0)
    case Answer(body) =>
      if |b.answered| >= |b.sent| then b
      else
        var r := Addressed(b.sent[|b.answered|], body);
        b.(inbox := b.inbox + [r], answered := b.answered + [r])
    case Take =>
      if b.inFlight != [] || b.pending == [] then b else b.(inFlight := [b.pending[0]], pending := b.pending[1..])
    case Receive(now) =>
      if b.inFlight == [] || b.inbox == [] then b
      else
        var o := Got(b.inbox[0]);
        Record(b, b.inFlight[0], o, now).(inFlight := [], inbox := b.inbox[1..], handled := b.handled + [o])
    case TimeOut =>
      if b.inFlight == [] then b
      else Record(b, b.inFlight[0], Nothing, 0).(inFlight := [], handled := b.handled + [Nothing])
  }

  function Course(moves: seq<Move>): Bot {
    if moves == [] then STARTED else Next(Course(moves[..|moves| - 1]), moves[|moves| - 1])
  }

  // ----- One event per slot -----

  function Slots(events: seq<SlotEvent>): seq<nat> {
    seq(|events|, i requires 0 <= i < |events| => events[i].slot)
  }

  function FirstSlots(n: nat): (r: seq<nat>)
    ensures |r| == n && forall i :: 0 <= i < n ==> r[i] == i + 1
  {
    if n == 0 then [] else FirstSlots(n - 1) + [n]
  }

  ghost predicate OneEventEach(b: Bot) {
    && multiset(FirstSlots(b.slot)) == multiset(Slots(b.events)) + multiset(b.pending) + multiset(b.inFlight)
    && b.count == |b.events| && |b.inFlight| <= 1
  }

  lemma SlotsAppend(events: seq<SlotEvent>, e: SlotEvent)
    ensures Slots(events + [e]) == Slots(events) + [e.slot]
  {
  }

  lemma OneMore(all: seq<nat>, some: seq<nat>, others: seq<nat>, last: seq<nat>, s: nat)
    requires multiset(all) == multiset(some) + multiset(others) + multiset(last)
    ensures multiset(all + [s]) == multiset(some) + multiset(others + [s]) + multiset(last)
  {
  }

  lemma OneMoreFirst(all: seq<nat>, some: seq<nat>, others: seq<nat>, last: seq<nat>, s: nat)
    requires multiset(all) == multiset(some) + multiset(others) + multiset(last)
    ensures multiset(all + [s]) == multiset(some + [s]) + multiset(others) + multiset(last)
  {
  }

  /** A slot that is sent waits. */
  lemma SentKeepsEach(b: Bot, c: Bot)
    requires OneEventEach(b) && c.slot == b.slot + 1 && c.pending == b.pending + [c.slot]
    requires c.events == b.events && c.inFlight == b.inFlight && c.count == b.count
    ensures OneEventEach(c)
  {
    assert FirstSlots(c.slot) == FirstSlots(b.slot) + [c.slot];
    OneMore(FirstSlots(b.slot), Slots(b.events), b.pending, b.inFlight, c.slot);
  }

  /** A slot that is not sent leaves its event at once. */
  lemma UnsentKeepsEach(b: Bot, c: Bot, e: SlotEvent)
    requires OneEventEach(b) && c.slot == b.slot + 1 == e.slot && c.pending == b.pending
    requires c.events == b.events + [e] && c.inFlight == b.inFlight && c.count == b.count + 1
    ensures OneEventEach(c)
  {
    assert FirstSlots(c.slot) == FirstSlots(b.slot) + [c.slot];
    SlotsAppend(b.events, e);
    OneMoreFirst(FirstSlots(b.slot), Slots(b.events), b.pending, b.inFlight, c.slot);
  }

  lemma TakeKeepsEach(b: Bot)
    requires OneEventEach(b) && b.inFlight == [] && b.pending != []
    ensures OneEventEach(b.(inFlight := [b.pending[0]], pending := b.pending[1..]))
  {
    assert b.pending == [b.pending[0]] + b.pending[1..];
  }

  /** The message in flight leaves its event. */
  lemma HandleKeepsEach(b: Bot, c: Bot, e: SlotEvent)
    requires OneEventEach(b) && b.inFlight == [e.slot]
    requires c.slot == b.slot && c.pending == b.pending && c.inFlight == []
    requires c.events == b.events + [e] && c.count == b.count + 1
    ensures OneEventEach(c)
  {
    SlotsAppend(b.events, e);
  }

  lemma ReceiveKeepsEach(b: Bot, now: int)
    requires OneEventEach(b) && b.inFlight != [] && b.inbox != []
    ensures OneEventEach(Next(b, Receive(now)))
  {
    assert b.inFlight == [b.inFlight[0]];
    HandleKeepsEach(b, Next(b, Receive(now)), SlotEvent(b.inFlight[0], StampsOf(Got(b.inbox[0]), now)));
  }

  lemma TimeOutKeepsEach(b: Bot)
    requires OneEventEach(b) && b.inFlight != []
    ensures OneEventEach(Next(b, TimeOut))
  {
    assert b.inFlight == [b.inFlight[0]];
    HandleKeepsEach(b, Next(b, TimeOut), SlotEvent(b.inFlight[0], NoStamps));
  }

  lemma NextKeepsOneEventEach(b: Bot, m: Move)
    requires OneEventEach(b)
    ensures OneEventEach(Next(b, m))
  {
    if m.Send? && m.ok {
      SentKeepsEach(b, Next(b, m));
    } else if m.Send? {
      UnsentKeepsEach(b, Next(b, m), SlotEvent(b.slot + 1, NoStamps));
    } else if m.Take? && b.inFlight == [] && b.pending != [] {
      TakeKeepsEach(b);
    } else if m.Receive? && b.inFlight != [] && b.inbox != [] {
      ReceiveKeepsEach(b, m.now);
    } else if m.TimeOut? && b.inFlight != [] {
      TimeOutKeepsEach(b);
    }
  }

  /** At every moment each slot so far has left one event, or waits, or is in flight. */
  lemma {:induction false} SlotsAreAccounted(moves: seq<Move>)
    ensures OneEventEach(Course(moves))
  {
    if moves != [] {
      SlotsAreAccounted(moves[..|moves| - 1]);
      NextKeepsOneEventEach(Course(moves[..|moves| - 1]), moves[|moves| - 1]);
    }
  }

  /** Nothing is unfinished: what the sender waits for at the end. */
  predicate Joined(b: Bot) {
    b.pending == [] && b.inFlight == []
  }

  lemma FirstSlotsOnce(n: nat, s: nat)
    ensures multiset(FirstSlots(n))[s] == if 1 <= s <= n then 1 else 0
  {
  }

  /** Then every slot has left exactly one event, and the returned count is the number of slots. */
  lemma EachSlotLeavesOneEvent(moves: seq<Move>, s: nat)
    requires Joined(Course(moves))
    ensures Course(moves).count == |Course(moves).events| == Course(moves).slot
    ensures multiset(Slots(Course(moves).events))[s] == if 1 <= s <= Course(moves).slot then 1 else 0
  {
    SlotsAreAccounted(moves);
    var b := Course(moves);
    FirstSlotsOnce(b.slot, s);
    assert |multiset(FirstSlots(b.slot))| == |multiset(Slots(b.events))|;
  }

  // ----- Pairing -----

  function TimeOuts(os: seq<Outcome>): (n: nat)
    ensures n <= |os|
  {
    if os == [] then 0 else TimeOuts(os[..|os| - 1]) + if os[|os| - 1].Nothing? then 1 else 0
  }

  /** How many answers the receiver has read. */
  function Read(b: Bot): nat {
    |b.handled| - TimeOuts(b.handled)
  }

  predicate Rising(s: seq<nat>) {
    forall i, j :: 0 <= i < j < |s| ==> s[i] < s[j]
  }

  /** The receiver handles the messages in the order they were sent, and reads the answers in the
      order they were given. */
  ghost predicate Queued(b: Bot) {
    && |b.handled| <= |b.sent| && |b.answered| <= |b.sent| && Read(b) <= |b.answered|
    && b.inFlight + b.pending == b.sent[|b.handled|..]
    && b.inbox == b.answered[Read(b)..]
    && Rising(b.sent) && (forall i :: 0 <= i < |b.sent| ==> b.sent[i] <= b.slot)
    && |b.inFlight| <= 1
    && forall i :: 0 <= i < |b.answered| ==> b.answered[i].slot == b.sent[i]
  }

  /** The outcome of message `i` is the answer to the message as many places earlier as the receiver
      had timed out before. */
  ghost predicate Shifted(b: Bot) {
    forall i :: 0 <= i < |b.handled| && b.handled[i].Got? ==>
      var k := i - TimeOuts(b.handled[..i]);
      k < |b.answered| && b.handled[i].reply == b.answered[k]
  }

  lemma TimeOutsAppend(os: seq<Outcome>, o: Outcome)
    ensures TimeOuts(os + [o]) == TimeOuts(os) + if o.Nothing? then 1 else 0
  {
    assert (os + [o])[..|os|] == os;
  }

  lemma HandleKeepsQueued(b: Bot, o: Outcome, b': Bot)
    requires Queued(b) && b.inFlight != [] && (o.Got? ==> b.inbox != [] && o.reply == b.inbox[0])
    requires b' == b.(inFlight := [], inbox := if o.Got? then b.inbox[1..] else b.inbox, handled := b.handled + [o])
    ensures Queued(b')
  {
    TimeOutsAppend(b.handled, o);
    assert b.inFlight == [b.inFlight[0]];
    assert b.sent[|b.handled| + 1..] == b.sent[|b.handled|..][1..];
    if o.Got? {
      assert b.answered[Read(b) + 1..] == b.answered[Read(b)..][1..];
    }
  }

  /** `Record` touches nothing that pairing is about. */
  lemma QueuedOf(b: Bot, c: Bot)
    requires Queued(b) && b.slot <= c.slot
    requires b.sent == c.sent && b.answered == c.answered && b.handled == c.handled
    requires b.inbox == c.inbox && b.inFlight == c.inFlight && b.pending == c.pending
    ensures Queued(c)
  {
  }

  lemma SendKeepsQueued(b: Bot, ok: bool)
    requires Queued(b)
    ensures Queued(Next(b, Send(ok)))
  {
    var c := b.(slot := b.slot + 1);
    QueuedOf(b, c);
    if ok {
      assert (b.sent + [c.slot])[|b.handled|..] == b.sent[|b.handled|..] + [c.slot];
    } else {
      QueuedOf(c, Next(b, Send(ok)));
    }
  }

  lemma AnswerKeepsQueued(b: Bot, r: Reply)
    requires Queued(b) && |b.answered| < |b.sent| && r.slot == b.sent[|b.answered|]
    ensures Queued(b.(inbox := b.inbox + [r], answered := b.answered + [r]))
  {
    assert (b.answered + [r])[Read(b)..] == b.answered[Read(b)..] + [r];
  }

  lemma TakeKeepsQueued(b: Bot)
    requires Queued(b) && b.inFlight == [] && b.pending != []
    ensures Queued(b.(inFlight := [b.pending[0]], pending := b.pending[1..]))
  {
    assert [b.pending[0]] + b.pending[1..] == b.pending;
  }

  lemma ReceiveKeepsQueued(b: Bot, now: int)
    requires Queued(b) && b.inFlight != [] && b.inbox != []
    ensures Queued(Next(b, Receive(now)))
  {
    var o := Got(b.inbox[0]);
    var c := b.(inFlight := [], inbox := b.inbox[1..], handled := b.handled + [o]);
    HandleKeepsQueued(b, o, c);
    QueuedOf(c, Next(b, Receive(now)));
  }

  lemma TimeOutKeepsQueued(b: Bot)
    requires Queued(b) && b.inFlight != []
    ensures Queued(Next(b, TimeOut))
  {
    var c := b.(inFlight := [], handled := b.handled + [Nothing]);
    HandleKeepsQueued(b, Nothing, c);
    QueuedOf(c, Next(b, TimeOut));
  }

  lemma NextKeepsQueued(b: Bot, m: Move)
    requires Queued(b)
    ensures Queued(Next(b, m))
  {
    if m.Send? {
      SendKeepsQueued(b, m.ok);
    } else if m.Answer? && |b.answered| < |b.sent| {
      AnswerKeepsQueued(b, Addressed(b.sent[|b.answered|], m.body));
    } else if m.Take? && b.inFlight == [] && b.pending != [] {
      TakeKeepsQueued(b);
    } else if m.Receive? && b.inFlight != [] && b.inbox != [] {
      ReceiveKeepsQueued(b, m.now);
    } else if m.TimeOut? && b.inFlight != [] {
      TimeOutKeepsQueued(b);
    }
  }

  lemma ShiftedOf(b: Bot, c: Bot)
    requires Shifted(b) && c.handled == b.handled && b.answered <= c.answered
    ensures Shifted(c)
  {
  }

  lemma ShiftedAppend(b: Bot, o: Outcome, c: Bot)
    requires Shifted(b) && c.handled == b.handled + [o] && c.answered == b.answered
    requires o.Got? ==> Read(b) < |b.answered| && o.reply == b.answered[Read(b)]
    ensures Shifted(c)
  {
    var hs := c.handled;
    forall i | 0 <= i < |hs| && hs[i].Got?
      ensures var k := i - TimeOuts(hs[..i]); k < |b.answered| && hs[i].reply == b.answered[k]
    {
      assert hs[..i] == b.handled[..i];
      assert i == |b.handled| ==> b.handled[..i] == b.handled;
    }
  }

  lemma NextKeepsShifted(b: Bot, m: Move)
    requires Queued(b) && Shifted(b)
    ensures Shifted(Next(b, m))
  {
    if m.Receive? && b.inFlight != [] && b.inbox != [] {
      ShiftedAppend(b, Got(b.inbox[0]), Next(b, m));
    } else if m.TimeOut? && b.inFlight != [] {
      ShiftedAppend(b, Nothing, Next(b, m));
    } else {
      ShiftedOf(b, Next(b, m));
    }
  }

  lemma {:induction false} RepliesArePaired(moves: seq<Move>)
    ensures Queued(Course(moves)) && Shifted(Course(moves))
  {
    if moves != [] {
      RepliesArePaired(moves[..|moves| - 1]);
      NextKeepsQueued(Course(moves[..|moves| - 1]), moves[|moves| - 1]);
      NextKeepsShifted(Course(moves[..|moves| - 1]), moves[|moves| - 1]);
    }
  }

  /** The message number `i` gets the answer to the message as many places before it as there were
      time-outs before; so it gets its own answer exactly when there were none. */
  lemma PairingIsOffByTimeOuts(moves: seq<Move>, i: nat)
    requires i < |Course(moves).handled| && Course(moves).handled[i].Got?
    ensures var b := Course(moves);
            var late := TimeOuts(b.handled[..i]);
            && late <= i < |b.sent|
            && b.handled[i].reply.slot == b.sent[i - late]
            && (b.handled[i].reply.slot == b.sent[i] <==> late == 0)
  {
    RepliesArePaired(moves);
    PairedOf(Course(moves), i);
  }

  lemma PairedOf(b: Bot, i: nat)
    requires Queued(b) && Shifted(b) && i < |b.handled| && b.handled[i].Got?
    ensures var late := TimeOuts(b.handled[..i]);
            && late <= i < |b.sent|
            && b.handled[i].reply.slot == b.sent[i - late]
            && (b.handled[i].reply.slot == b.sent[i] <==> late == 0)
  {
  }

  /** If every message has gone out they are those of all slots, in order. */
  ghost predicate SentInFull(b: Bot) {
    |b.sent| <= b.slot && (|b.sent| == b.slot ==> b.sent == FirstSlots(b.slot))
  }

  lemma {:induction false} AllSentInOrder(moves: seq<Move>)
    ensures SentInFull(Course(moves))
  {
    if moves != [] {
      var b, m := Course(moves[..|moves| - 1]), moves[|moves| - 1];
      AllSentInOrder(moves[..|moves| - 1]);
      if m.Send? {
        assert FirstSlots(b.slot + 1) == FirstSlots(b.slot) + [b.slot + 1];
      }
    }
  }

  // ----- Events and answers -----

  /** `e` is what slot `slot` leaves when the receiver gets `o` for its message at `now`: the timestamps of
      the answer, with `now` for an acknowledgement time left out and the acknowledgement time for a
      receipt time left out, and no timestamps without a readable answer. */
  predicate Records(e: SlotEvent, slot: nat, o: Outcome, now: int) {
    && e.slot == slot
    && if o.Nothing? || o.reply.Garbled? then e.stamps.NoStamps?
       else
         && e.stamps.Stamps?
         && e.stamps.ackTs == (if o.reply.ackTs != 0 then o.reply.ackTs else now)
         && e.stamps.receivedTs == if o.reply.receivedTs != 0 then o.reply.receivedTs else e.stamps.ackTs
  }

  /** The move that handles a message and comes to `o`. */
  predicate Handles(m: Move, o: Outcome) {
    if o.Got? then m.Receive? else m.TimeOut?
  }

  function ClockOf(m: Move): int {
    if m.Receive? then m.now else 0
  }

  /** `at` says where among the events each handled message left its own, `when` which move handled it. */
  ghost predicate Recorded(b: Bot, moves: seq<Move>, at: seq<nat>, when: seq<nat>) {
    && |at| == |when| == |b.handled| <= |b.sent|
    && (forall i, j :: 0 <= i < j < |when| ==> when[i] < when[j])
    && forall i :: 0 <= i < |at| ==>
         && at[i] < |b.events| && when[i] < |moves| && Handles(moves[when[i]], b.handled[i])
         && Records(b.events[at[i]], b.sent[i], b.handled[i], ClockOf(moves[when[i]]))
  }

  lemma RecordedGrows(b: Bot, moves: seq<Move>, at: seq<nat>, when: seq<nat>, c: Bot, m: Move)
    requires Recorded(b, moves, at, when) && b.events <= c.events && b.sent <= c.sent && b.handled == c.handled
    ensures Recorded(c, moves + [m], at, when)
  {
  }

  lemma RecordedNext(b: Bot, moves: seq<Move>, at: seq<nat>, when: seq<nat>, c: Bot, m: Move, e: SlotEvent, o: Outcome)
    requires Recorded(b, moves, at, when) && c.sent == b.sent
    requires c.events == b.events + [e] && c.handled == b.handled + [o]
    requires |b.handled| < |b.sent| && Handles(m, o) && Records(e, b.sent[|b.handled|], o, ClockOf(m))
    ensures Recorded(c, moves + [m], at + [|b.events|], when + [|moves|])
  {
  }

  lemma InFlightIsNext(b: Bot)
    requires Queued(b) && b.inFlight != []
    ensures |b.handled| < |b.sent| && b.inFlight[0] == b.sent[|b.handled|]
  {
    assert (b.inFlight + b.pending)[0] == b.sent[|b.handled|..][0];
  }

  lemma NextKeepsRecorded(b: Bot, moves: seq<Move>, at: seq<nat>, when: seq<nat>, m: Move)
    returns (at': seq<nat>, when': seq<nat>)
    requires Queued(b) && Recorded(b, moves, at, when)
    ensures Recorded(Next(b, m), moves + [m], at', when')
  {
    at', when' := at, when;
    if m.Receive? && b.inFlight != [] && b.inbox != [] {
      InFlightIsNext(b);
      var o := Got(b.inbox[0]);
      at', when' := at + [|b.events|], when + [|moves|];
      RecordedNext(b, moves, at, when, Next(b, m), m, SlotEvent(b.inFlight[0], StampsOf(o, m.now)), o);
    } else if m.TimeOut? && b.inFlight != [] {
      InFlightIsNext(b);
      at', when' := at + [|b.events|], when + [|moves|];
      RecordedNext(b, moves, at, when, Next(b, m), m, SlotEvent(b.inFlight[0], NoStamps), Nothing);
    } else {
      RecordedGrows(b, moves, at, when, Next(b, m), m);
    }
  }

  lemma CourseNext(moves: seq<Move>, b: Bot, m: Move)
    requires Course(moves) == b
    ensures Course(moves + [m]) == Next(b, m)
  {
    assert (moves + [m])[..|moves|] == moves;
  }

  lemma RecordedAfter(prior: seq<Move>, m: Move, b: Bot, at: seq<nat>, when: seq<nat>)
    returns (at': seq<nat>, when': seq<nat>)
    requires b == Course(prior) && Recorded(b, prior, at, when)
    ensures Recorded(Course(prior + [m]), prior + [m], at', when')
  {
    RepliesArePaired(prior);
    CourseNext(prior, b, m);
    at', when' := NextKeepsRecorded(b, prior, at, when, m);
  }

  lemma {:induction false} HandledMessagesAreRecorded(moves: seq<Move>) returns (at: seq<nat>, when: seq<nat>)
    ensures Recorded(Course(moves), moves, at, when)
  {
    if moves == [] {
      at, when := [], [];
    } else {
      var prior, m := moves[..|moves| - 1], moves[|moves| - 1];
      assert moves == prior + [m];
      at, when := HandledMessagesAreRecorded(prior);
      at, when := RecordedAfter(prior, m, Course(prior), at, when);
    }
  }

  /** The event of message `i` carries the timestamps of the answer to the message as many places before
      it as there were time-outs before, completed by the clock at the move that read it; with its own
      time-out, none. */
  lemma EventsCarryShiftedAnswers(moves: seq<Move>, i: nat) returns (e: SlotEvent, when: nat)
    requires i < |Course(moves).handled|
    ensures var b := Course(moves);
            var k := i - TimeOuts(b.handled[..i]);
            && e in b.events && i < |b.sent| && e.slot == b.sent[i] && when < |moves|
            && (b.handled[i].Nothing? ==> moves[when].TimeOut? && e.stamps.NoStamps?)
            && (b.handled[i].Got? ==>
                  && k < |b.answered| && moves[when].Receive?
                  && Records(e, b.sent[i], Got(b.answered[k]), moves[when].now))
  {
    var at, whens := HandledMessagesAreRecorded(moves);
    RepliesArePaired(moves);
    e, when := Course(moves).events[at[i]], whens[i];
  }

  /** The answers that the server's moves give, as far as there is a message to answer. */
  function Bodies(moves: seq<Move>): seq<Body> {
    if moves == [] then []
    else
      var prior, m := moves[..|moves| - 1], moves[|moves| - 1];
      if m.Answer? && |Course(prior).answered| < |Course(prior).sent| then Bodies(prior) + [m.body] else Bodies(prior)
  }

  /** An answer reaches the bot as it was given, for the message it was given to. */
  predicate Carries(r: Reply, slot: nat, body: Body) {
    && r.slot == slot
    && match body
       case Malformed => r.Garbled?
       case Fine(ackTs, receivedTs, fills) =>
         r.Ack? && r.ackTs == ackTs && r.receivedTs == receivedTs && r.fills == fills
  }

  lemma {:induction false} AnswersAreAsGiven(moves: seq<Move>)
    ensures var b, bodies := Course(moves), Bodies(moves);
            && |bodies| == |b.answered| <= |b.sent|
            && forall i :: 0 <= i < |bodies| ==> Carries(b.answered[i], b.sent[i], bodies[i])
  {
    if moves != [] {
      AnswersAreAsGiven(moves[..|moves| - 1]);
    }
  }

  // ----- Errors and reports -----

  function Unstamped(events: seq<SlotEvent>): nat {
    if events == [] then 0
    else Unstamped(events[..|events| - 1]) + if events[|events| - 1].stamps.NoStamps? then 1 else 0
  }

  /** Slots whose message never went out. */
  function FailedSends(b: Bot): int {
    b.slot - |b.sent|
  }

  ghost predicate ErrorsCounted(b: Bot) {
    b.errors == Unstamped(b.events) + FailedSends(b)
  }

  lemma UnstampedAppend(events: seq<SlotEvent>, e: SlotEvent)
    ensures Unstamped(events + [e]) == Unstamped(events) + if e.stamps.NoStamps? then 1 else 0
  {
    assert (events + [e])[..|events|] == events;
  }

  lemma RecordCounts(b: Bot, slot: nat, o: Outcome, now: int)
    ensures Record(b, slot, o, now).errors - Unstamped(Record(b, slot, o, now).events) == b.errors - Unstamped(b.events)
  {
    UnstampedAppend(b.events, SlotEvent(slot, StampsOf(o, now)));
  }

  lemma NextKeepsCounts(b: Bot, m: Move)
    requires ErrorsCounted(b)
    ensures ErrorsCounted(Next(b, m))
  {
    if m.Send? && !m.ok {
      RecordCounts(b.(slot := b.slot + 1, errors := b.errors + 1), b.slot + 1, Nothing, 0);
    } else if m.Receive? && b.inFlight != [] && b.inbox != [] {
      RecordCounts(b, b.inFlight[0], Got(b.inbox[0]), m.now);
    } else if m.TimeOut? && b.inFlight != [] {
      RecordCounts(b, b.inFlight[0], Nothing, 0);
    }
  }

  /** The error count is the events without timestamps plus the failed sends, which so count twice. */
  lemma {:induction false} ErrorsAreCounted(moves: seq<Move>)
    ensures ErrorsCounted(Course(moves))
  {
    if moves != [] {
      ErrorsAreCounted(moves[..|moves| - 1]);
      NextKeepsCounts(Course(moves[..|moves| - 1]), moves[|moves| - 1]);
    }
  }

  /** The fills of answers, answer by answer. */
  function FillsOf(replies: seq<Reply>): seq<seq<Trade>> {
    seq(|replies|, i requires 0 <= i < |replies| => FillsIn(replies[i]))
  }

  /** The fills of the first `k` answers. */
  function FillsRead(answered: seq<Reply>, k: nat): (r: seq<Trade>)
    requires k <= |answered|
  {
    if k == 0 then [] else FillsRead(answered, k - 1) + FillsIn(answered[k - 1])
  }

  lemma {:induction false} FillsReadIsCollected(answered: seq<Reply>, k: nat)
    requires k <= |answered|
    ensures FillsRead(answered, k) == Collected(FillsOf(answered[..k]))
  {
    var acks := FillsOf(answered[..k]);
    if k > 0 {
      FillsReadIsCollected(answered, k - 1);
      assert acks[..k - 1] == FillsOf(answered[..k - 1]);
    }
  }

  lemma {:induction false} FillsReadExtends(answered: seq<Reply>, more: seq<Reply>, k: nat)
    requires k <= |answered| && answered <= more
    ensures FillsRead(answered, k) == FillsRead(more, k)
  {
    if k > 0 {
      FillsReadExtends(answered, more, k - 1);
    }
  }

  ghost predicate ReportsRead(b: Bot) {
    Read(b) <= |b.answered| && b.reported == FillsRead(b.answered, Read(b))
  }

  lemma ReadMore(b: Bot, c: Bot)
    requires ReportsRead(b) && b.answered == c.answered && Read(c) == Read(b) + 1 <= |b.answered|
    requires c.reported == b.reported + FillsIn(b.answered[Read(b)])
    ensures ReportsRead(c)
  {
  }

  lemma ReadNothing(b: Bot, c: Bot)
    requires ReportsRead(b) && b.answered <= c.answered && Read(c) == Read(b) && c.reported == b.reported
    ensures ReportsRead(c)
  {
    FillsReadExtends(b.answered, c.answered, Read(b));
  }

  lemma ReceiveKeepsReports(b: Bot, now: int)
    requires Queued(b) && ReportsRead(b) && b.inFlight != [] && b.inbox != []
    ensures ReportsRead(Next(b, Receive(now)))
  {
    TimeOutsAppend(b.handled, Got(b.inbox[0]));
    assert b.inbox[0] == b.answered[Read(b)];
    ReadMore(b, Next(b, Receive(now)));
  }

  lemma TimeOutKeepsReports(b: Bot)
    requires ReportsRead(b) && b.inFlight != []
    ensures ReportsRead(Next(b, TimeOut))
  {
    TimeOutsAppend(b.handled, Nothing);
    ReadNothing(b, Next(b, TimeOut));
  }

  lemma NextKeepsReports(b: Bot, m: Move)
    requires Queued(b) && ReportsRead(b)
    ensures ReportsRead(Next(b, m))
  {
    if m.Receive? && b.inFlight != [] && b.inbox != [] {
      ReceiveKeepsReports(b, m.now);
    } else if m.TimeOut? && b.inFlight != [] {
      TimeOutKeepsReports(b);
    } else {
      ReadNothing(b, Next(b, m));
    }
  }

  /** What the bot reports is what the answers it has read contain, in order. */
  lemma {:induction false} ReportsAreTheAnswersRead(moves: seq<Move>)
    ensures ReportsRead(Course(moves))
  {
    if moves != [] {
      var prior := moves[..|moves| - 1];
      ReportsAreTheAnswersRead(prior);
      RepliesArePaired(prior);
      NextKeepsReports(Course(prior), moves[|moves| - 1]);
    }
  }

  /** Once nothing is unfinished, as many answers at the end have gone unread as there were time-outs. */
  lemma TimeOutsLoseTheLastAnswers(moves: seq<Move>)
    requires Joined(Course(moves))
    ensures var b := Course(moves);
            && Read(b) == |b.sent| - TimeOuts(b.handled)
            && Read(b) <= |b.answered|
            && b.reported == Collected(FillsOf(b.answered[..Read(b)]))
  {
    ReportsAreTheAnswersRead(moves);
    RepliesArePaired(moves);
    FillsReadIsCollected(Course(moves).answered, Read(Course(moves)));
  }

  // ----- The schedule -----

  /** When the message of a slot is due, whatever became of the slots before it. */
  function IntendedTs(startNs: int, slot: nat, intervalNs: int): int {
    startNs + slot * intervalNs
  }

  /** A sender that waits until its slot is due, however late that leaves it, makes the intended
      latency of an event at least the actual one, by as much as the message went out late. */
  lemma IntendedCoversActual(e: EventCodec.LatencyEvent, startNs: int, slot: nat, intervalNs: int)
    requires e.ackTsNs.Some? && e.intendedSendTsNs == IntendedTs(startNs, slot, intervalNs) <= e.sentTsNs
    ensures EventCodec.IntendedLatencyUs(e).Some? && EventCodec.ActualLatencyUs(e).Some?
    ensures EventCodec.IntendedLatencyUs(e).value
         == EventCodec.ActualLatencyUs(e).value + (e.sentTsNs - e.intendedSendTsNs) as real / 1000.0
         >= EventCodec.ActualLatencyUs(e).value
  {
  }

  lemma Stretched(n: int, m: int, t: int)
    requires n <= m && t >= 0
    ensures n * t <= m * t
  {
  }

  /** Due times are an interval apart, so a slot is never moved by a slow answer. */
  lemma DueTimesAreSpaced(startNs: int, intervalNs: int, slot: nat, later: nat)
    ensures IntendedTs(startNs, 0, intervalNs) == startNs
    ensures IntendedTs(startNs, later, intervalNs) - IntendedTs(startNs, slot, intervalNs)
            == (later - slot) * intervalNs
    ensures intervalNs >= 0 && slot < later ==>
              IntendedTs(startNs, later, intervalNs) - IntendedTs(startNs, slot, intervalNs) >= intervalNs
  {
    assert later * intervalNs - slot * intervalNs == (later - slot) * intervalNs;
    if intervalNs >= 0 && slot < later {
      Stretched(1, later - slot, intervalNs);
    }
  }
}
