/** From the bot's first message to the validator's verdict: what a run of the bot against a server
    that matches as the reference engine does, or against the example contestant, is worth. */
module EndToEnd {
  import opened Trading
  import opened ReferenceEngine
  import opened ListEngine
  import opened FillDiff
  import opened BotWorkload
  import opened BotProtocol
  import opened Validation
  import opened BotContestant
  import Windows
  import opened Scoring
  import ContestantServer

  /** Nothing is unfinished; `acks` are the fills of the server's answers to the messages that went out,
      given so far or still to come. */
  ghost predicate RanAgainst(b: Bot, acks: seq<seq<Trade>>) {
    && Joined(b) && |b.sent| == |acks|
    && |b.answered| <= |acks| && FillsOf(b.answered) == acks[..|b.answered|]
  }

  /** The rate the validator gives the run; without orders there is nothing to judge. */
  ghost function RateOfRun(b: Bot, ids: nat -> string): real {
    if b.slot == 0 then 1.0
    else Judgement(Trades(Replay(AsWritten, INITIAL, BotStream(ids, b.slot)).fills), b.reported, |b.events|, b.slot)
  }

  lemma FillsOfPrefix(replies: seq<Reply>, k: nat)
    requires k <= |replies|
    ensures FillsOf(replies[..k]) == FillsOf(replies)[..k]
  {
  }

  /** The bot reports the answers but for the last few: as many as the receiver timed out. */
  lemma ReportedInRun(moves: seq<Move>, acks: seq<seq<Trade>>) returns (n: nat)
    requires RanAgainst(Course(moves), acks)
    ensures n == |Course(moves).sent| - TimeOuts(Course(moves).handled) <= |acks|
    ensures Course(moves).reported == Collected(acks[..n])
    ensures |Course(moves).events| == Course(moves).slot
  {
    var b := Course(moves);
    TimeOutsLoseTheLastAnswers(moves);
    SlotsAreAccounted(moves);
    EachSlotLeavesOneEvent(moves, 1);
    n := Read(b);
    FillsOfPrefix(b.answered, n);
    assert acks[..|b.answered|][..n] == acks[..n];
  }

  lemma TakeOfAppend(acks: seq<seq<Trade>>, last: seq<Trade>, m: nat)
    requires m <= |acks|
    ensures (acks + [last])[..m] == acks[..m]
  {
  }

  lemma {:induction false} AcksOfPrefix(rs: seq<Request>, m: nat)
    requires m <= |rs|
    ensures ReferenceAcks(AsWritten, INITIAL, rs)[..m] == ReferenceAcks(AsWritten, INITIAL, rs[..m])
  {
    if m == |rs| {
      assert rs[..m] == rs;
    } else {
      var prior := rs[..|rs| - 1];
      AcksOfPrefix(prior, m);
      assert prior[..m] == rs[..m];
      TakeOfAppend(ReferenceAcks(AsWritten, INITIAL, prior),
                   Trades(Returned(Replay(AsWritten, INITIAL, prior), rs[|rs| - 1])), m);
    }
  }

  lemma StreamOfPrefix(ids: nat -> string, n: nat, m: nat)
    requires m <= n
    ensures BotStream(ids, n)[..m] == BotStream(ids, m)
  {
  }

  lemma BotAcksOfPrefix(ids: nat -> string, n: nat, m: nat)
    requires m <= n
    ensures ReferenceAcks(AsWritten, INITIAL, BotStream(ids, n))[..m]
            == ReferenceAcks(AsWritten, INITIAL, BotStream(ids, m))
  {
    StreamOfPrefix(ids, n, m);
    AcksOfPrefix(BotStream(ids, n), m);
  }

  lemma ReferenceFillsOnBotStream(ids: nat -> string, n: nat)
    requires Distinct(ids, n)
    ensures Trades(Replay(AsWritten, INITIAL, BotStream(ids, n)).fills) == BotTrades(ids, TradeCount(n))
    ensures Collected(ReferenceAcks(AsWritten, INITIAL, BotStream(ids, n))) == BotTrades(ids, TradeCount(n))
  {
    ReferenceOnBotStream(AsWritten, ids, n);
    LogIsCollected(AsWritten, BotStream(ids, n));
  }

  lemma TradeCountGrows(m: nat, n: nat)
    requires m <= n
    ensures TradeCount(m) <= TradeCount(n)
  {
  }

  // ----- The rate of a list that breaks off -----

  lemma PrefixMatches(reference: seq<Trade>, heard: nat)
    requires heard <= |reference|
    ensures |MatchedAt(reference, reference[..heard])| == heard
  {
    forall i: nat
      ensures i in MatchedAt(reference, reference[..heard]) <==> i < heard
    {
      assert i < heard ==> reference[..heard][i] == reference[i];
    }
    assert MatchedAt(reference, reference[..heard]) == Upto(heard);
  }

  /** What a contestant is worth that is heard up to a point, when every order has left an event. */
  function RateUpTo(heard: nat, expected: nat): real {
    if expected == 0 then 1.0
    else if heard == 0 then 0.5
    else heard as real / expected as real
  }

  lemma RateOfPrefix(reference: seq<Trade>, heard: nat, orders: nat)
    requires heard <= |reference| && orders > 0
    ensures Judgement(reference, reference[..heard], orders, orders) == RateUpTo(heard, |reference|)
  {
    PrefixMatches(reference, heard);
    PartialCreditBounds(orders, orders);
  }

  lemma BotTradesOfPrefix(ids: nat -> string, j: nat, k: nat)
    requires j <= k
    ensures BotTrades(ids, k)[..j] == BotTrades(ids, j)
  {
  }

  lemma RateOfBotTrades(ids: nat -> string, j: nat, k: nat, orders: nat)
    requires j <= k && orders > 0
    ensures Judgement(BotTrades(ids, k), BotTrades(ids, j), orders, orders) == RateUpTo(j, k)
  {
    BotTradesOfPrefix(ids, j, k);
    RateOfPrefix(BotTrades(ids, k), j, orders);
  }

  /** What a bot is worth that reports the first `made` of the fills due. */
  lemma RateOfReported(b: Bot, ids: nat -> string, made: nat)
    requires Distinct(ids, b.slot) && b.slot == |b.events| && made <= TradeCount(b.slot)
    requires b.reported == BotTrades(ids, made)
    ensures RateOfRun(b, ids) == RateUpTo(made, TradeCount(b.slot))
  {
    if b.slot > 0 {
      ReferenceFillsOnBotStream(ids, b.slot);
      RateOfBotTrades(ids, made, TradeCount(b.slot), b.slot);
    }
  }

  lemma HeardOfReference(moves: seq<Move>, b: Bot, ids: nat -> string) returns (heard: nat)
    requires b == Course(moves) && |b.sent| == b.slot && Distinct(ids, b.slot)
    requires RanAgainst(b, ReferenceAcks(AsWritten, INITIAL, BotStream(ids, b.slot)))
    ensures heard == b.slot - TimeOuts(b.handled) <= b.slot == |b.events|
    ensures b.reported == BotTrades(ids, TradeCount(heard))
  {
    heard := ReportedInRun(moves, ReferenceAcks(AsWritten, INITIAL, BotStream(ids, b.slot)));
    BotAcksOfPrefix(ids, b.slot, heard);
    ReferenceFillsOnBotStream(ids, heard);
  }

  /** A server that matches as the reference does: each time-out costs the bot the fills of one more
      answer at the end of the run. The rate is the share of the fills heard; it is one half if some
      were due and none was heard, and 1 if none was due. */
  lemma FaithfulServerUnderTimeOuts(moves: seq<Move>, b: Bot, ids: nat -> string) returns (heard: nat)
    requires b == Course(moves) && |b.sent| == b.slot && Distinct(ids, b.slot)
    requires RanAgainst(b, ReferenceAcks(AsWritten, INITIAL, BotStream(ids, b.slot)))
    ensures heard == b.slot - TimeOuts(b.handled) <= b.slot
    ensures b.reported == BotTrades(ids, TradeCount(heard))
    ensures RateOfRun(b, ids) == RateUpTo(TradeCount(heard), TradeCount(b.slot))
  {
    heard := HeardOfReference(moves, b, ids);
    TradeCountGrows(heard, b.slot);
    RateOfReported(b, ids, TradeCount(heard));
  }

  // ----- Refused messages -----

  /** With messages refused as well: the reports are the reference's fills on the messages that went out,
      but for as many at the end as there were time-outs. */
  lemma FaithfulServerReports(moves: seq<Move>, b: Bot, ids: nat -> string) returns (heard: nat)
    requires b == Course(moves)
    requires RanAgainst(b, ReferenceAcks(AsWritten, INITIAL, MessagesOf(ids, b.sent)))
    ensures heard == |b.sent| - TimeOuts(b.handled) <= |b.sent|
    ensures b.reported == Trades(Replay(AsWritten, INITIAL, MessagesOf(ids, b.sent[..heard])).fills)
  {
    heard := ReportedInRun(moves, ReferenceAcks(AsWritten, INITIAL, MessagesOf(ids, b.sent)));
    AcksOfPrefix(MessagesOf(ids, b.sent), heard);
    assert MessagesOf(ids, b.sent)[..heard] == MessagesOf(ids, b.sent[..heard]);
    LogIsCollected(AsWritten, MessagesOf(ids, b.sent[..heard]));
  }

  /** Two slots: the connection refuses the first message, the second is answered in time. */
  function RefusedRun(): seq<Move> {
    [] + [Send(false)] + [Send(true)] + [Answer(Fine(1, 1, []))] + [Take] + [Receive(1)]
  }

  function RefusedBot(): Bot {
    var reply := Ack(2, 1, 1, []);
    Bot(2, [], [], [], [SlotEvent(1, NoStamps), SlotEvent(2, Stamps(1, 1))], [], 2, 2, [2], [reply], [Got(reply)])
  }

  lemma RefusedRunEnds()
    ensures Course(RefusedRun()) == RefusedBot()
  {
    var moves: seq<Move> := [];
    var reply := Ack(2, 1, 1, []);
    var event := SlotEvent(1, NoStamps);
    CourseNext(moves, STARTED, Send(false));
    moves := moves + [Send(false)];
    CourseNext(moves, Bot(1, [], [], [], [event], [], 1, 2, [], [], []), Send(true));
    moves := moves + [Send(true)];
    CourseNext(moves, Bot(2, [2], [], [], [event], [], 1, 2, [2], [], []), Answer(Fine(1, 1, [])));
    moves := moves + [Answer(Fine(1, 1, []))];
    CourseNext(moves, Bot(2, [2], [], [reply], [event], [], 1, 2, [2], [reply], []), Take);
    moves := moves + [Take];
    CourseNext(moves, Bot(2, [], [2], [reply], [event], [], 1, 2, [2], [reply], []), Receive(1));
  }

  lemma FirstOrderRests(r: Request)
    requires r.Limit?
    ensures Trades(Returned(INITIAL, r)) == []
  {
    assert Stopped(Arrive(INITIAL, r.id, r.side, r.price, r.qty));
  }

  lemma LoneAck(r: Request)
    requires r.Limit?
    ensures ReferenceAcks(AsWritten, INITIAL, [r]) == [[]]
  {
    assert [r][..0] == [];
    FirstOrderRests(r);
  }

  lemma RefusedRanAgainst(ids: nat -> string)
    ensures RanAgainst(RefusedBot(), ReferenceAcks(AsWritten, INITIAL, MessagesOf(ids, RefusedBot().sent)))
  {
    LoneAck(BotRequest(ids, 2));
    assert MessagesOf(ids, [2]) == [BotRequest(ids, 2)];
    assert FillsOf(RefusedBot().answered) == [[]];
  }

  lemma RefusedRate(ids: nat -> string)
    requires ids(1) != ids(2)
    ensures RateOfRun(RefusedBot(), ids) == RateUpTo(0, 1)
  {
    assert TradeCount(2) == 1 && BotTrades(ids, 0) == [];
    RateOfReported(RefusedBot(), ids, 0);
  }

  /** Without a single time-out one refused message costs a server that matches as the reference does:
      the order stream holds the sell that never reached it, and it is rated one half. */
  lemma RefusedMessageCosts(b: Bot, ids: nat -> string)
    requires b == Course(RefusedRun()) && ids(1) != ids(2)
    ensures RanAgainst(b, ReferenceAcks(AsWritten, INITIAL, MessagesOf(ids, b.sent)))
    ensures TimeOuts(b.handled) == 0 && RateOfRun(b, ids) == 0.5
  {
    RefusedRunEnds();
    RefusedRanAgainst(ids);
    RefusedRate(ids);
  }

  // ----- The example contestant -----

  /** The messages of the slots that went out, as the contestant's handler gets them from the bot, its
      only client, and the fills of its replies to them. */
  function HandlerFills(ids: nat -> string, sent: seq<nat>): seq<seq<Trade>> {
    ContestantServer.FillsByReply(ContestantServer.Replies(ContestantServer.AllRouted(MessagesOf(ids, sent))))
  }

  /** Every answer carries the fills of the handler's reply to the message it answers. */
  ghost predicate AnsweredByContestant(b: Bot, ids: nat -> string) {
    && |b.answered| <= |b.sent| == |HandlerFills(ids, b.sent)|
    && FillsOf(b.answered) == HandlerFills(ids, b.sent)[..|b.answered|]
  }

  lemma MessagesOfAllSlots(ids: nat -> string, n: nat)
    ensures MessagesOf(ids, FirstSlots(n)) == BotStream(ids, n)
  {
  }

  /** The handler's replies to the whole stream of the bot are the list engine's acknowledgements. */
  lemma HandlerAcknowledges(ids: nat -> string, n: nat)
    ensures HandlerFills(ids, FirstSlots(n)) == ListAcks(LISTS_INITIAL, BotStream(ids, n))
  {
    MessagesOfAllSlots(ids, n);
    ContestantServer.RepliesAreAcks(BotStream(ids, n));
  }

  lemma {:induction false} ListAcksOfPrefix(rs: seq<Request>, m: nat)
    requires m <= |rs|
    ensures ListAcks(LISTS_INITIAL, rs)[..m] == ListAcks(LISTS_INITIAL, rs[..m])
  {
    if m == |rs| {
      assert rs[..m] == rs;
    } else {
      var prior := rs[..|rs| - 1];
      ListAcksOfPrefix(prior, m);
      assert prior[..m] == rs[..m];
      TakeOfAppend(ListAcks(LISTS_INITIAL, prior), ListReturned(ListReplay(LISTS_INITIAL, prior), rs[|rs| - 1]), m);
    }
  }

  /** The handler's answers make it a run against the list engine. */
  lemma RanAgainstHandler(moves: seq<Move>, b: Bot, ids: nat -> string)
    requires b == Course(moves) && Joined(b) && |b.sent| == b.slot && AnsweredByContestant(b, ids)
    ensures RanAgainst(b, ListAcks(LISTS_INITIAL, BotStream(ids, b.slot)))
  {
    AllSentInOrder(moves);
    HandlerAcknowledges(ids, b.slot);
  }

  lemma HeardOfContestant(moves: seq<Move>, b: Bot, ids: nat -> string) returns (heard: nat)
    requires b == Course(moves) && Joined(b) && |b.sent| == b.slot && AnsweredByContestant(b, ids)
    ensures heard == b.slot - TimeOuts(b.handled) <= b.slot == |b.events|
    ensures b.reported == BotTrades(ids, ContestantCount(heard))
  {
    RanAgainstHandler(moves, b, ids);
    heard := ReportedInRun(moves, ListAcks(LISTS_INITIAL, BotStream(ids, b.slot)));
    ListAcksOfPrefix(BotStream(ids, b.slot), heard);
    StreamOfPrefix(ids, b.slot, heard);
    ContestantFills(ids, heard);
  }

  /** The example contestant, over any number of slots and under any time-outs: it is heard to make four
      fills at most, of all that the reference makes. */
  lemma ExampleContestantRun(moves: seq<Move>, b: Bot, ids: nat -> string) returns (heard: nat)
    requires b == Course(moves) && Joined(b) && |b.sent| == b.slot && AnsweredByContestant(b, ids)
    requires Distinct(ids, b.slot)
    ensures heard == b.slot - TimeOuts(b.handled) <= b.slot
    ensures b.reported == BotTrades(ids, ContestantCount(heard))
    ensures RateOfRun(b, ids) == RateUpTo(ContestantCount(heard), TradeCount(b.slot))
  {
    heard := HeardOfContestant(moves, b, ids);
    CountIsNoMore(heard);
    TradeCountGrows(heard, b.slot);
    RateOfReported(b, ids, ContestantCount(heard));
  }

  lemma RateOfRounds(heard: nat, k: nat)
    requires heard >= 8 && k > 0
    ensures RateUpTo(ContestantCount(heard), TradeCount(10 * k)) == 1.0 / k as real
  {
    assert TradeCount(10 * k) == 4 * k;
    OneInRounds(k);
  }

  /** In rounds of ten slots, with the answers of the first eight heard, that is one over the number of
      rounds. */
  lemma ExampleContestantRounds(moves: seq<Move>, b: Bot, ids: nat -> string, k: nat)
    requires b == Course(moves) && Joined(b) && |b.sent| == b.slot && AnsweredByContestant(b, ids)
    requires Distinct(ids, b.slot) && k > 0 && b.slot == 10 * k && TimeOuts(b.handled) <= b.slot - 8
    ensures RateOfRun(b, ids) == 1.0 / k as real
  {
    var heard := ExampleContestantRun(moves, b, ids);
    RateOfRounds(heard, k);
  }

  lemma OneOf(k: nat)
    requires k > 0
    ensures 0.0 < 1.0 / k as real <= 1.0
  {
    Windows.ShareAgainst(1.0, k as real, 0.0);
    Windows.ShareAgainst(1.0, k as real, 1.0);
  }

  /** Next to a server with the same latencies that matches as the reference does, and with nothing timed
      out, such a run costs the example contestant all but one in `k` of the 25 points for correctness. */
  lemma RoundsCostPoints(moves: seq<Move>, b: Bot, ids: nat -> string, k: nat, m: Measures)
    requires b == Course(moves) && Joined(b) && |b.sent| == b.slot && AnsweredByContestant(b, ids)
    requires Distinct(ids, b.slot) && k > 0 && b.slot == 10 * k && TimeOuts(b.handled) <= b.slot - 8
    ensures CompositeScore(m.(matchRate := RateOfRun(b, ids)), DEFAULT_WEIGHTS)
         == CompositeScore(m.(matchRate := 1.0), DEFAULT_WEIGHTS) - 25.0 * (1.0 - 1.0 / k as real)
  {
    ExampleContestantRounds(moves, b, ids, k);
    OneOf(k);
    MatchRateIsWorth(m, 1.0 / k as real);
  }
}
