/** The validator: replay a submission's order stream through the reference engine and judge the
    fills its contestant reported. */
module Validation {
  import opened Trading
  import opened ReferenceEngine
  import opened EngineInvariants
  import opened NaiveEngine
  import opened Refinement
  import opened EngineObject
  import opened ListEngine
  import opened TwoEngines
  import opened FillDiff
  import opened BotWorkload
  import opened BotContestant

  /** Hand one order of the stream to the engine. */
  method Submit(engine: MatchingEngine, r: Request)
    requires engine.Wellformed()
    modifies engine, engine.buys, engine.sells, engine.Repr
    ensures engine.Wellformed() && fresh(engine.Repr - old(engine.Repr))
    ensures engine.View() == Apply(AsWritten, old(engine.View()), r)
  {
    match r {
      case Cancel(id) =>
        var _ := engine.CancelById(id);
      case Market(id, side, qty) =>
        var _ := engine.AddMarket(id, side, qty);
      case Limit(id, side, price, qty) =>
        var _ := engine.AddLimit(id, side, price, qty);
    }
  }

  method RunOrders(orders: seq<Request>) returns (engine: MatchingEngine)
    ensures engine.Wellformed() && engine.View() == Replay(AsWritten, INITIAL, orders)
    ensures FreshIds(AsWritten, INITIAL, orders) ==> engine.IndexesItsOrders()
  {
    engine := new MatchingEngine();
    for i := 0 to |orders|
      invariant engine.Wellformed() && fresh(engine) && fresh(engine.buys) && fresh(engine.sells) && fresh(engine.Repr)
      invariant engine.View() == Replay(AsWritten, INITIAL, orders[..i])
    {
      assert orders[..i + 1][..i] == orders[..i];
      Submit(engine, orders[i]);
    }
    assert orders[..|orders|] == orders;
    if FreshIds(AsWritten, INITIAL, orders) {
      InitialIsValid();
      ReplayKeepsValid(AsWritten, INITIAL, orders);
      engine.IndexedObjectsRest();
    }
  }

  /** The fills of a recorded order stream. */
  method ReplayOrders(orders: seq<Request>) returns (fills: seq<Trade>)
    ensures fills == Trades(Replay(AsWritten, INITIAL, orders).fills)
  {
    var engine := RunOrders(orders);
    fills := Trades(engine.fills);
  }

  /** A reported fill whose price or quantity does not read as a number is skipped. */
  datatype Report = Readable(fill: Trade) | Unreadable

  function ReadFills(reports: seq<Report>): seq<Trade> {
    if reports == [] then []
    else
      var last := reports[|reports| - 1];
      ReadFills(reports[..|reports| - 1]) + if last.Readable? then [last.fill] else []
  }

  /** What is stored for a submission; nothing is when no order has been captured. */
  datatype Verdict = Unjudged | Judged(matchRate: real, totalOrders: nat, referenceFills: nat, mismatched: int)

  function RateOf(v: Verdict): real {
    if v.Unjudged? then 1.0 else v.matchRate
  }

  /** Half the share of orders that left an event, capped at one half: what a submission that
      reports no fills is given. */
  function PartialCredit(events: nat, orders: nat): real {
    var n := if orders == 0 then 1 else orders;
    if events >= n then 0.5 else events as real / n as real * 0.5
  }

  method ReadReports(reports: seq<Report>) returns (fills: seq<Trade>)
    ensures fills == ReadFills(reports)
  {
    fills := [];
    for i := 0 to |reports|
      invariant fills == ReadFills(reports[..i])
    {
      assert reports[..i + 1][..i] == reports[..i];
      if reports[i].Readable? {
        fills := fills + [reports[i].fill];
      }
    }
    assert reports[..|reports|] == reports;
  }

  /** `fills` are what the readable reports say, in order; `ps` are all their positions. */
  ghost predicate ReadAt(reports: seq<Report>, fills: seq<Trade>, ps: seq<nat>) {
    && |ps| == |fills|
    && (forall i, j :: 0 <= i < j < |ps| ==> ps[i] < ps[j])
    && (forall i :: 0 <= i < |ps| ==> ps[i] < |reports| && reports[ps[i]] == Readable(fills[i]))
    && forall k :: 0 <= k < |reports| && reports[k].Readable? ==> k in ps
  }

  lemma ReadNext(reports: seq<Report>, fills: seq<Trade>, ps: seq<nat>, last: Report)
    requires ReadAt(reports, fills, ps)
    ensures last.Unreadable? ==> ReadAt(reports + [last], fills, ps)
    ensures last.Readable? ==> ReadAt(reports + [last], fills + [last.fill], ps + [|reports|])
  {
    if last.Readable? {
      var all := ps + [|reports|];
      forall k | 0 <= k < |reports + [last]| && (reports + [last])[k].Readable?
        ensures k in all
      {
        if k == |reports| {
          assert all[|ps|] == k;
        } else {
          assert reports[k].Readable? && k in ps;
        }
      }
    }
  }

  /** Every readable report is read, once and in its place, and no other is. */
  lemma {:induction false} ReportsAreRead(reports: seq<Report>) returns (ps: seq<nat>)
    ensures ReadAt(reports, ReadFills(reports), ps)
  {
    if reports == [] {
      ps := [];
    } else {
      var prior, last := reports[..|reports| - 1], reports[|reports| - 1];
      ps := ReportsAreRead(prior);
      ReadNext(prior, ReadFills(prior), ps, last);
      assert reports == prior + [last];
      ReadFillsNext(prior, last);
      if last.Readable? {
        ps := ps + [|prior|];
      }
    }
  }

  lemma LastIsRead(reports: seq<Report>, fills: seq<Trade>, ps: seq<nat>)
    requires reports != [] && ReadAt(reports, fills, ps) && reports[|reports| - 1].Readable?
    ensures ps != [] && ps[|ps| - 1] == |reports| - 1
    ensures ReadAt(reports[..|reports| - 1], fills[..|fills| - 1], ps[..|ps| - 1])
  {
    var n, m := |reports| - 1, |ps| - 1;
    var at :| 0 <= at < |ps| && ps[at] == n;
    assert at == m;
    forall k | 0 <= k < n && reports[k].Readable?
      ensures k in ps[..m]
    {
      var i :| 0 <= i < |ps| && ps[i] == k;
      assert ps[..m][i] == k;
    }
  }

  lemma LastIsSkipped(reports: seq<Report>, fills: seq<Trade>, ps: seq<nat>)
    requires reports != [] && ReadAt(reports, fills, ps) && reports[|reports| - 1].Unreadable?
    ensures ReadAt(reports[..|reports| - 1], fills, ps)
  {
    forall i | 0 <= i < |ps|
      ensures ps[i] < |reports| - 1
    {
      assert reports[ps[i]] == Readable(fills[i]);
    }
  }

  lemma ReadFillsNext(prior: seq<Report>, last: Report)
    ensures ReadFills(prior + [last]) == if last.Readable? then ReadFills(prior) + [last.fill] else ReadFills(prior)
  {
    assert (prior + [last])[..|prior|] == prior;
    assert ReadFills(prior) + [] == ReadFills(prior);
  }

  /** There is no other way to read them. */
  lemma {:induction false} OneWayToRead(reports: seq<Report>, fills: seq<Trade>, ps: seq<nat>)
    requires ReadAt(reports, fills, ps)
    ensures fills == ReadFills(reports)
  {
    if reports == [] {
      assert ps == [];
    } else {
      var prior, last := reports[..|reports| - 1], reports[|reports| - 1];
      assert reports == prior + [last];
      ReadFillsNext(prior, last);
      if last.Readable? {
        var m := |fills| - 1;
        LastIsRead(reports, fills, ps);
        OneWayToRead(prior, fills[..m], ps[..m]);
        assert reports[ps[m]] == Readable(fills[m]) && fills == fills[..m] + [fills[m]];
      } else {
        LastIsSkipped(reports, fills, ps);
        OneWayToRead(prior, fills, ps);
      }
    }
  }

  /** The rate for reference fills `reference` and reported fills `contestant`. */
  ghost function Judgement(reference: seq<Trade>, contestant: seq<Trade>, events: nat, orders: nat): real {
    if events == 0 then 0.0
    else if reference == [] then 1.0
    else if contestant == [] then PartialCredit(events, orders)
    else MatchRate(reference, contestant)
  }

  method Judge(reference: seq<Trade>, contestant: seq<Trade>, events: nat, orders: nat) returns (rate: real)
    ensures rate == Judgement(reference, contestant, events, orders)
  {
    if events == 0 {
      rate := 0.0;
    } else if |reference| == 0 {
      rate := 1.0;
    } else {
      rate := DiffFills(reference, contestant);
      if |contestant| == 0 {
        NothingReported(reference);
        PartialCreditBounds(events, orders);
        var credit := CappedShare(events, orders) * 0.5;
        rate := if rate < credit then credit else rate;
      }
    }
  }

  method ValidateSubmission(orders: seq<Request>, reports: seq<Report>, events: nat) returns (rate: real, v: Verdict)
    ensures rate == RateOf(v)
    ensures v.Unjudged? <==> orders == []
    ensures orders == [] ==> rate == 1.0
    ensures orders != [] ==>
              (rate == 1.0 <==>
               events > 0 && Trades(Replay(AsWritten, INITIAL, orders).fills) <= ReadFills(reports))
    ensures v.Judged? ==>
      var reference := Trades(Replay(AsWritten, INITIAL, orders).fills);
      && v.matchRate == Judgement(reference, ReadFills(reports), events, |orders|)
      && v.totalOrders == |orders| && v.referenceFills == |reference|
      && v.mismatched == Mismatched(v.matchRate, Total(reference))
  {
    if orders == [] {
      rate, v := 1.0, Unjudged;
    } else {
      var reference := ReplayOrders(orders);
      var contestant := ReadReports(reports);
      rate := Judge(reference, contestant, events, |orders|);
      JudgementIsPerfectIff(reference, contestant, events, |orders|);
      v := Judged(rate, |orders|, |reference|, Mismatched(rate, Total(reference)));
    }
  }

  /** The share not matched as a whole number of `total` fills, rounded down. */
  function Mismatched(rate: real, total: nat): int {
    ((1.0 - rate) * total as real).Floor
  }

  function CappedShare(events: nat, orders: nat): real {
    var share := events as real / (if orders > 1 then orders else 1) as real;
    if share < 1.0 then share else 1.0
  }

  lemma PartialCreditBounds(events: nat, orders: nat)
    requires events > 0
    ensures PartialCredit(events, orders) == CappedShare(events, orders) * 0.5
    ensures 0.0 < PartialCredit(events, orders) <= 0.5
    ensures PartialCredit(events, orders) == 0.5 <==> events >= orders
  {
    var n := if orders == 0 then 1 else orders;
    if events >= n {
      ShareGrows(n, events, n);
    } else {
      ShareBounds(events, n);
    }
  }

  lemma NothingReported(reference: seq<Trade>)
    ensures MatchRate(reference, []) == 0.0
  {
    assert MatchedAt(reference, []) == {};
  }

  /** The rate is a share, and it is 1 exactly when there were events and every reference fill was
      reported in its place from the start. */
  lemma JudgementIsPerfectIff(reference: seq<Trade>, contestant: seq<Trade>, events: nat, orders: nat)
    ensures 0.0 <= Judgement(reference, contestant, events, orders) <= 1.0
    ensures Judgement(reference, contestant, events, orders) == 1.0 <==> events > 0 && reference <= contestant
  {
    PerfectIffPrefix(reference, contestant);
    if events > 0 {
      PartialCreditBounds(events, orders);
    }
  }

  /** Reporting nothing is worth at most one half when there was something to report, and one half
      exactly when no order has gone without an event. */
  lemma SilenceIsWorthHalf(reference: seq<Trade>, events: nat, orders: nat)
    requires reference != []
    ensures Judgement(reference, [], events, orders) <= 0.5
    ensures Judgement(reference, [], events, orders) == 0.5 <==> events > 0 && events >= orders
  {
    if events > 0 {
      PartialCreditBounds(events, orders);
    }
  }

  /** From the reports to the verdict: the rate is 1 if and only if there were events and the readable
      reports, with unreadable ones anywhere between them, start with the reference fills. */
  lemma ReportsScoreOneIff(rs: seq<Request>, reports: seq<Report>, fills: seq<Trade>, ps: seq<nat>, events: nat)
    requires ReadAt(reports, fills, ps)
    ensures var reference := Trades(Replay(AsWritten, INITIAL, rs).fills);
            Judgement(reference, ReadFills(reports), events, |rs|) == 1.0 <==> events > 0 && reference <= fills
  {
    OneWayToRead(reports, fills, ps);
    JudgementIsPerfectIff(Trades(Replay(AsWritten, INITIAL, rs).fills), fills, events, |rs|);
  }

  /** Without events nothing is earned, whatever is reported. */
  lemma NoEventsNoRate(reference: seq<Trade>, contestant: seq<Trade>, orders: nat)
    ensures Judgement(reference, contestant, 0, orders) == 0.0
  {
  }

  lemma HalfShare(events: nat, orders: nat)
    requires 0 < events <= orders
    ensures PartialCredit(events, orders) * (2 * orders) as real == events as real
  {
    var q := events as real / orders as real;
    assert q * orders as real == events as real;
    if events < orders {
      assert q * 0.5 * (2 * orders) as real == q * orders as real;
    }
  }

  /** Silence is worth half the share of orders that left an event. */
  lemma SilenceIs(reference: seq<Trade>, events: nat, orders: nat)
    requires reference != []
    ensures events <= orders ==>
              Judgement(reference, [], events, orders) * (2 * orders) as real == events as real
    ensures events > 0 && events >= orders ==> Judgement(reference, [], events, orders) == 0.5
  {
    if 0 < events <= orders {
      HalfShare(events, orders);
    }
  }

  /** With reports the rate counts matches out of the reference fills. */
  lemma JudgementCounts(reference: seq<Trade>, contestant: seq<Trade>, events: nat, orders: nat)
    requires events > 0 && reference != [] && contestant != []
    ensures Judgement(reference, contestant, events, orders) * |reference| as real
         == |MatchedAt(reference, contestant)| as real
  {
    RateCounts(reference, contestant);
  }

  lemma HalfOf(n: nat)
    ensures (0.5 * n as real).Floor == n / 2
  {
    assert n == 2 * (n / 2) + n % 2;
    assert 0.5 * n as real == (n / 2) as real + 0.5 * (n % 2) as real;
  }

  /** What is stored as mismatched when nothing was matched at all: every fill without events, but with
      nothing reported and an event for every order only half of them, rounded down. */
  lemma SilentMismatchIs(reference: seq<Trade>, contestant: seq<Trade>, events: nat, orders: nat)
    requires reference != []
    ensures Mismatched(Judgement(reference, contestant, 0, orders), Total(reference)) == |reference|
    ensures events > 0 && events >= orders ==>
              Mismatched(Judgement(reference, [], events, orders), Total(reference)) == |reference| / 2
  {
    SilenceIs(reference, events, orders);
    HalfOf(|reference|);
  }

  /** In general it is the whole part of the share that was not given. */
  lemma MismatchedIsWhole(rate: real, total: nat)
    requires 0.0 <= rate <= 1.0
    ensures 0 <= Mismatched(rate, total) <= total
    ensures Mismatched(rate, total) as real <= (1.0 - rate) * total as real < (Mismatched(rate, total) + 1) as real
  {
    var x := (1.0 - rate) * total as real;
    assert 0.0 <= x <= total as real;
  }

  /** The stored count is the number of reference positions not matched. */
  lemma MismatchedIsExact(reference: seq<Trade>, contestant: seq<Trade>, events: nat, orders: nat)
    requires events > 0 && reference != [] && contestant != []
    ensures Mismatched(Judgement(reference, contestant, events, orders), Total(reference))
         == |reference| - |MatchedAt(reference, contestant)|
  {
    var n, m := |reference| as real, |MatchedAt(reference, contestant)| as real;
    assert (m / n) * n == m;
    assert (1.0 - m / n) * n == n - m == (|reference| - |MatchedAt(reference, contestant)|) as real;
  }

  /** A contestant that reports what the reference engine returns, order by order, scores 1. */
  lemma FaithfulContestantScoresOne(rs: seq<Request>, contestant: seq<Trade>, events: nat)
    requires events > 0 && Collected(ReferenceAcks(AsWritten, INITIAL, rs)) <= contestant
    ensures Judgement(Trades(Replay(AsWritten, INITIAL, rs).fills), contestant, events, |rs|) == 1.0
  {
    LogIsCollected(AsWritten, rs);
    JudgementIsPerfectIff(Trades(Replay(AsWritten, INITIAL, rs).fills), contestant, events, |rs|);
  }

  /** The example contestant scores 1 on every stream on which it agrees with the reference. */
  lemma AgreeableContestantScoresOne(rs: seq<Request>, events: nat)
    requires events > 0 && FreshIds(AsWritten, INITIAL, rs) && HeapKept(AsWritten, INITIAL, rs)
    requires AllAgreeable(NAIVE_INITIAL, rs)
    ensures var reference := Trades(Replay(AsWritten, INITIAL, rs).fills);
            Judgement(reference, Collected(ListAcks(LISTS_INITIAL, rs)), events, |rs|) == 1.0
  {
    EnginesAgreeIff(AsWritten, rs);
    FaithfulContestantScoresOne(rs, Collected(ListAcks(LISTS_INITIAL, rs)), events);
  }

  lemma FirstFourMatch(ids: nat -> string, k: nat)
    requires k > 0
    ensures |MatchedAt(BotTrades(ids, 4 * k), BotTrades(ids, 4))| == 4
  {
    var reference, contestant := BotTrades(ids, 4 * k), BotTrades(ids, 4);
    forall i: nat | i < 4
      ensures i in MatchedAt(reference, contestant)
    {
      assert contestant[i] == BotTrade(ids, i) == reference[i];
    }
    assert MatchedAt(reference, contestant) == Upto(4);
  }

  lemma OneInRounds(k: nat)
    requires k > 0
    ensures 4.0 / (4 * k) as real == 1.0 / k as real
  {
    var q := 1.0 / k as real;
    assert q * k as real == 1.0;
    QuotientIs(4.0, (4 * k) as real, q);
  }

  lemma FirstFour(ids: nat -> string, k: nat)
    requires k > 0
    ensures MatchRate(BotTrades(ids, 4 * k), BotTrades(ids, 4)) == 1.0 / k as real
  {
    FirstFourMatch(ids, k);
    assert Total(BotTrades(ids, 4 * k)) == 4 * k;
    OneInRounds(k);
  }

  /** On the load bot's own stream the example contestant's rate is one over the number of rounds. */
  lemma ContestantOnBotRounds(ids: nat -> string, k: nat, events: nat)
    requires Distinct(ids, 10 * k) && k > 0 && events > 0
    ensures var rs := BotStream(ids, 10 * k);
            var reference := Trades(Replay(AsWritten, INITIAL, rs).fills);
            Judgement(reference, Collected(ListAcks(LISTS_INITIAL, rs)), events, |rs|)
            == 1.0 / k as real
  {
    var s := ReferenceAfterRounds(AsWritten, ids, k);
    ContestantOnBotStream(ids, 10 * k);
    FirstFour(ids, k);
  }
}
