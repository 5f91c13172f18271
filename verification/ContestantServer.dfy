/** The example contestant's connection handler: one reply per message, in order, with one engine for
    all connections. */
module ContestantServer {
  import opened Trading
  import opened ReferenceEngine
  import opened ListEngine
  import opened ContestantEngine

  /** A message that is no JSON; one without an order id, or without a side where it needs one; or a
      request. */
  datatype Message = Unparsable | Unroutable | Routed(request: Request)

  datatype Reply = Failure | Ack(fills: seq<Trade>)

  /** The requests that messages carry. */
  function RequestsIn(messages: seq<Message>): seq<Request> {
    if messages == [] then []
    else
      var before, last := RequestsIn(messages[..|messages| - 1]), messages[|messages| - 1];
      if last.Routed? then before + [last.request] else before
  }

  function ReplyTo(l: Lists, m: Message): Reply {
    match m
    case Unparsable => Failure
    case Unroutable => Ack([])
    case Routed(r) => Ack(ListReturned(l, r))
  }

  function Served(l: Lists, m: Message): Lists {
    if m.Routed? then ListApply(l, m.request) else l
  }

  function StateAfter(messages: seq<Message>): Lists {
    if messages == [] then LISTS_INITIAL
    else Served(StateAfter(messages[..|messages| - 1]), messages[|messages| - 1])
  }

  /** The replies to messages, each from the state the earlier messages have left. */
  function Replies(messages: seq<Message>): (r: seq<Reply>)
    ensures |r| == |messages|
  {
    if messages == [] then []
    else
      var prior := messages[..|messages| - 1];
      Replies(prior) + [ReplyTo(StateAfter(prior), messages[|messages| - 1])]
  }

  /** The fills in replies, in order. */
  function FillsIn(replies: seq<Reply>): seq<Trade> {
    if replies == [] then []
    else
      var before, last := FillsIn(replies[..|replies| - 1]), replies[|replies| - 1];
      if last.Ack? then before + last.fills else before
  }

  lemma FillsInAppend(replies: seq<Reply>, last: Reply)
    ensures FillsIn(replies + [last]) == if last.Ack? then FillsIn(replies) + last.fills else FillsIn(replies)
  {
    assert (replies + [last])[..|replies|] == replies;
  }

  lemma AppendNothing(fills: seq<Trade>)
    ensures fills + [] == fills
  {
  }

  lemma AcksAppend(l: Lists, rs: seq<Request>, r: Request)
    ensures ListReplay(l, rs + [r]) == ListApply(ListReplay(l, rs), r)
    ensures Collected(ListAcks(l, rs + [r])) == Collected(ListAcks(l, rs)) + ListReturned(ListReplay(l, rs), r)
  {
    assert (rs + [r])[..|rs|] == rs;
    CollectedAppend(ListAcks(l, rs), ListReturned(ListReplay(l, rs), r));
  }

  /** Requests, and what they have done and been answered. */
  ghost predicate Answers(rs: seq<Request>, l: Lists, fills: seq<Trade>) {
    l == ListReplay(LISTS_INITIAL, rs) && fills == Collected(ListAcks(LISTS_INITIAL, rs))
  }

  lemma EmptyAnswers()
    ensures Answers([], LISTS_INITIAL, [])
  {
  }

  lemma RoutedAnswers(rs: seq<Request>, l: Lists, fills: seq<Trade>, r: Request)
    requires Answers(rs, l, fills)
    ensures Answers(rs + [r], ListApply(l, r), fills + ListReturned(l, r))
  {
    AcksAppend(LISTS_INITIAL, rs, r);
  }

  /** Messages that carry no request cost their sender a reply and nothing else: the engine's state and
      the fills sent are those of the requests alone. */
  lemma {:induction false} FillsAreThoseOfRequests(messages: seq<Message>)
    ensures Answers(RequestsIn(messages), StateAfter(messages), FillsIn(Replies(messages)))
  {
    if messages == [] {
      EmptyAnswers();
    } else {
      var prior, m := messages[..|messages| - 1], messages[|messages| - 1];
      var rs, l, fills := RequestsIn(prior), StateAfter(prior), FillsIn(Replies(prior));
      FillsAreThoseOfRequests(prior);
      FillsInAppend(Replies(prior), ReplyTo(l, m));
      if m.Routed? {
        RoutedAnswers(rs, l, fills, m.request);
      } else {
        AppendNothing(fills);
      }
    }
  }

  lemma {:induction false} ReplyAt(messages: seq<Message>, i: nat)
    requires i < |messages|
    ensures Replies(messages)[i] == ReplyTo(StateAfter(messages[..i]), messages[i])
  {
    var prior := messages[..|messages| - 1];
    if i < |prior| {
      ReplyAt(prior, i);
      assert prior[..i] == messages[..i];
    }
  }

  /** A message gets an error exactly when it is no JSON, no fills when it cannot be routed, and otherwise
      the fills that its request makes after all the requests before it. */
  lemma EachReplyIs(messages: seq<Message>, i: nat)
    requires i < |messages|
    ensures Replies(messages)[i] == Failure <==> messages[i] == Unparsable
    ensures messages[i] == Unroutable ==> Replies(messages)[i] == Ack([])
    ensures messages[i].Routed? ==>
              Replies(messages)[i]
              == Ack(ListReturned(ListReplay(LISTS_INITIAL, RequestsIn(messages[..i])), messages[i].request))
  {
    ReplyAt(messages, i);
    FillsAreThoseOfRequests(messages[..i]);
  }

  /** The messages of a client that sends nothing but requests. */
  function AllRouted(rs: seq<Request>): seq<Message> {
    seq(|rs|, i requires 0 <= i < |rs| => Routed(rs[i]))
  }

  function FillsByReply(replies: seq<Reply>): seq<seq<Trade>> {
    seq(|replies|, i requires 0 <= i < |replies| => if replies[i].Ack? then replies[i].fills else [])
  }

  lemma RoutedNext(rs: seq<Request>)
    requires rs != []
    ensures var messages := AllRouted(rs);
            messages[..|messages| - 1] == AllRouted(rs[..|rs| - 1]) && messages[|messages| - 1] == Routed(rs[|rs| - 1])
  {
  }

  lemma {:induction false} RequestsOfRouted(rs: seq<Request>)
    ensures RequestsIn(AllRouted(rs)) == rs
  {
    if rs != [] {
      RoutedNext(rs);
      RequestsOfRouted(rs[..|rs| - 1]);
    }
  }

  lemma FillsByReplyNext(replies: seq<Reply>, last: Reply)
    ensures FillsByReply(replies + [last]) == FillsByReply(replies) + [if last.Ack? then last.fills else []]
  {
  }

  /** Such a client is sent, reply by reply, the engine's acknowledgements. */
  lemma {:induction false} RepliesAreAcks(rs: seq<Request>)
    ensures FillsByReply(Replies(AllRouted(rs))) == ListAcks(LISTS_INITIAL, rs)
  {
    if rs != [] {
      var prior, r := rs[..|rs| - 1], rs[|rs| - 1];
      RoutedNext(rs);
      RepliesAreAcks(prior);
      FillsAreThoseOfRequests(AllRouted(prior));
      RequestsOfRouted(prior);
      FillsByReplyNext(Replies(AllRouted(prior)), ReplyTo(StateAfter(AllRouted(prior)), Routed(r)));
    }
  }

  method Handle(engine: ListMatchingEngine, m: Message) returns (reply: Reply)
    requires engine.Wellformed()
    modifies engine, engine.buys, engine.sells, engine.Repr
    ensures engine.Wellformed() && fresh(engine.Repr - old(engine.Repr))
    ensures reply == ReplyTo(old(engine.View()), m)
    ensures engine.View() == Served(old(engine.View()), m)
  {
    match m {
      case Unparsable =>
        reply := Failure;
      case Unroutable =>
        reply := Ack([]);
      case Routed(r) =>
        var fills := Route(engine, r);
        reply := Ack(fills);
    }
  }

  method Route(engine: ListMatchingEngine, r: Request) returns (fills: seq<Trade>)
    requires engine.Wellformed()
    modifies engine, engine.buys, engine.sells, engine.Repr
    ensures engine.Wellformed() && fresh(engine.Repr - old(engine.Repr))
    ensures engine.View() == ListApply(old(engine.View()), r) && fills == ListReturned(old(engine.View()), r)
  {
    match r {
      case Cancel(id) =>
        var _ := engine.CancelById(id);
        fills := [];
      case Market(id, side, qty) =>
        fills := engine.AddMarket(id, side, qty);
      case Limit(id, side, price, qty) =>
        fills := engine.AddLimit(id, side, price, qty);
    }
  }

  // ----- All clients -----

  /** A message and the client whose connection it came in on. */
  datatype Arrival = Arrival(client: nat, message: Message)

  /** The messages of all clients in the order they are handled. */
  function Messages(arrivals: seq<Arrival>): (r: seq<Message>)
    ensures |r| == |arrivals|
  {
    seq(|arrivals|, i requires 0 <= i < |arrivals| => arrivals[i].message)
  }

  function MessagesFrom(arrivals: seq<Arrival>, client: nat): seq<Message> {
    if arrivals == [] then []
    else
      var before, last := MessagesFrom(arrivals[..|arrivals| - 1], client), arrivals[|arrivals| - 1];
      if last.client == client then before + [last.message] else before
  }

  /** What a client is sent: of all the replies those to its own messages. */
  function RepliesTo(arrivals: seq<Arrival>, client: nat): seq<Reply> {
    if arrivals == [] then []
    else
      var prior, last := arrivals[..|arrivals| - 1], arrivals[|arrivals| - 1];
      var before := RepliesTo(prior, client);
      if last.client == client then before + [ReplyTo(StateAfter(Messages(prior)), last.message)] else before
  }

  lemma MessagesPrefix(arrivals: seq<Arrival>)
    requires arrivals != []
    ensures var prior, messages := arrivals[..|arrivals| - 1], Messages(arrivals);
            && messages[..|messages| - 1] == Messages(prior)
            && messages[|messages| - 1] == arrivals[|arrivals| - 1].message
  {
  }

  /** The positions at which a client's messages are handled. */
  function Places(arrivals: seq<Arrival>, client: nat): seq<nat> {
    if arrivals == [] then []
    else
      var before := Places(arrivals[..|arrivals| - 1], client);
      if arrivals[|arrivals| - 1].client == client then before + [|arrivals| - 1] else before
  }

  /** The messages `mine` are at the places `places` of `all`, and were sent the replies there. */
  ghost predicate Placed(mine: seq<Message>, sent: seq<Reply>, places: seq<nat>, all: seq<Message>,
                         replies: seq<Reply>) {
    && |sent| == |mine| == |places| && |replies| == |all|
    && (forall i, j :: 0 <= i < j < |places| ==> places[i] < places[j])
    && forall i :: 0 <= i < |places| ==>
         places[i] < |all| && all[places[i]] == mine[i] && replies[places[i]] == sent[i]
  }

  lemma PlacedOther(mine: seq<Message>, sent: seq<Reply>, places: seq<nat>, all: seq<Message>, replies: seq<Reply>,
                    m: Message, r: Reply)
    requires Placed(mine, sent, places, all, replies)
    ensures Placed(mine, sent, places, all + [m], replies + [r])
  {
  }

  lemma PlacedOwn(mine: seq<Message>, sent: seq<Reply>, places: seq<nat>, all: seq<Message>, replies: seq<Reply>,
                  m: Message, r: Reply)
    requires Placed(mine, sent, places, all, replies)
    ensures Placed(mine + [m], sent + [r], places + [|all|], all + [m], replies + [r])
  {
  }

  lemma RepliesNext(messages: seq<Message>, m: Message)
    ensures Replies(messages + [m]) == Replies(messages) + [ReplyTo(StateAfter(messages), m)]
  {
    assert (messages + [m])[..|messages|] == messages;
  }

  /** Every client gets one reply for each of its messages, in order, and each is the reply that the one
      engine gives at the place the message has among those of all clients. */
  lemma {:induction false} EachClientIsAnswered(arrivals: seq<Arrival>, client: nat)
    ensures Placed(MessagesFrom(arrivals, client), RepliesTo(arrivals, client), Places(arrivals, client),
                   Messages(arrivals), Replies(Messages(arrivals)))
  {
    if arrivals != [] {
      var prior, last := arrivals[..|arrivals| - 1], arrivals[|arrivals| - 1];
      var all, reply := Messages(prior), ReplyTo(StateAfter(Messages(prior)), last.message);
      EachClientIsAnswered(prior, client);
      assert Messages(arrivals) == all + [last.message];
      RepliesNext(all, last.message);
      if last.client == client {
        PlacedOwn(MessagesFrom(prior, client), RepliesTo(prior, client), Places(prior, client), all, Replies(all),
                  last.message, reply);
      } else {
        PlacedOther(MessagesFrom(prior, client), RepliesTo(prior, client), Places(prior, client), all, Replies(all),
                    last.message, reply);
      }
    }
  }

  lemma {:induction false} OneClientAlone(arrivals: seq<Arrival>, client: nat)
    requires forall i :: 0 <= i < |arrivals| ==> arrivals[i].client == client
    ensures RepliesTo(arrivals, client) == Replies(Messages(arrivals))
  {
    if arrivals != [] {
      MessagesPrefix(arrivals);
      OneClientAlone(arrivals[..|arrivals| - 1], client);
    }
  }

  lemma StateNext(arrivals: seq<Arrival>, i: nat)
    requires i < |arrivals|
    ensures StateAfter(Messages(arrivals[..i + 1])) == Served(StateAfter(Messages(arrivals[..i])), arrivals[i].message)
  {
    assert arrivals[..i + 1][..i] == arrivals[..i];
    MessagesPrefix(arrivals[..i + 1]);
  }

  lemma SentNext(arrivals: seq<Arrival>, i: nat, client: nat)
    requires i < |arrivals|
    ensures var before, a := RepliesTo(arrivals[..i], client), arrivals[i];
            RepliesTo(arrivals[..i + 1], client)
            == if a.client == client then before + [ReplyTo(StateAfter(Messages(arrivals[..i])), a.message)] else before
  {
    assert arrivals[..i + 1][..i] == arrivals[..i];
  }

  function Outbox(sent: map<nat, seq<Reply>>, client: nat): seq<Reply> {
    if client in sent then sent[client] else []
  }

  /** Serve all clients with the one engine of the process, handling their messages as they come in. */
  method Serve(arrivals: seq<Arrival>) returns (sent: map<nat, seq<Reply>>, engine: ListMatchingEngine)
    ensures forall c: nat :: Outbox(sent, c) == RepliesTo(arrivals, c)
    ensures engine.Wellformed() && engine.View() == StateAfter(Messages(arrivals))
  {
    engine := new ListMatchingEngine();
    sent := map[];
    for i := 0 to |arrivals|
      invariant engine.Wellformed() && fresh(engine) && fresh(engine.buys) && fresh(engine.sells) && fresh(engine.Repr)
      invariant engine.View() == StateAfter(Messages(arrivals[..i]))
      invariant forall c: nat :: Outbox(sent, c) == RepliesTo(arrivals[..i], c)
    {
      StateNext(arrivals, i);
      var client := arrivals[i].client;
      var reply := Handle(engine, arrivals[i].message);
      sent := sent[client := Outbox(sent, client) + [reply]];
      forall c: nat
        ensures Outbox(sent, c) == RepliesTo(arrivals[..i + 1], c)
      {
        SentNext(arrivals, i, c);
      }
    }
    assert arrivals[..|arrivals|] == arrivals;
  }
}
