/** What the validator's rate says about the example contestant: it is 1 exactly when every request
    was agreeable, since a fill missed or made at another price is never made up for later. */
module ContestantVerdict {
  import opened Trading
  import opened ReferenceEngine
  import opened NaiveEngine
  import opened Refinement
  import opened ListEngine
  import opened TwoEngines
  import opened Submissions
  import opened Validation

  /** `t` is a trade of the order `id` of side `side`. */
  predicate Names(t: Trade, side: Side, id: string) {
    if side == Buy then t.buyId == id else t.sellId == id
  }

  /** The contestant's trades of one request are all trades of that order. */
  lemma {:induction false} PairsNameTaker(p: Pairing, k: nat)
    requires |p.log| <= k < |RunPairs(p).log|
    ensures Names(RunPairs(p).log[k], p.incoming.side, p.incoming.id)
    decreases |p.book|, p.incoming.qty > 0
  {
    if !Exhausted(p) && !Blocked(p) {
      PairLogGrows(Pair(p));
      if k == |p.log| {
        assert RunPairs(p).log[k] == Pair(p).log[k];
      } else {
        PairsNameTaker(Pair(p), k);
      }
    }
  }

  lemma ReturnedNamesTaker(l: Lists, r: Request, k: nat)
    requires k < |ListReturned(l, r)|
    ensures Names(ListReturned(l, r)[k], r.side, r.id)
  {
    PairsNameTaker(Enter(l, r.id, r.side, LimitPrice(r), r.qty), k);
  }

  /** The first trade of the naive engine is one between the incoming order and a resting one. */
  lemma FirstNames(n: Naive, r: Request)
    requires NaiveReturned(n, r) != []
    ensures var t := NaiveReturned(n, r)[0];
            Names(t, r.side, r.id)
                && Holds(QuoteBook(n, r.side.Opposite()), if r.side == Buy then t.sellId else t.buyId)
  {
    var w := Open(n, r);
    assert !Finished(w);
    FirstTrade(w);
  }

  /** The naive engine made the trade `t` at position `at`, between two submitted orders, and the
      contestant has made another trade there or none yet. */
  ghost predicate Parted(rs: seq<Request>, wanted: seq<Trade>, made: seq<Trade>, at: nat) {
    && at < |wanted| && (at < |made| ==> made[at] != wanted[at]) && at <= |made|
    && Submits(rs, wanted[at].buyId) && Submits(rs, wanted[at].sellId)
  }

  /** Once parted they stay parted: a later trade has an order in it that was not there before. */
  lemma PartedStays(rs: seq<Request>, r: Request, wanted: seq<Trade>, made: seq<Trade>, at: nat,
                    more: seq<Trade>, returned: seq<Trade>)
    requires Parted(rs, wanted, made, at) && (r.Cancel? ==> returned == []) && (!r.Cancel? ==> !Submits(rs, r.id))
    requires forall k :: 0 <= k < |returned| ==> !r.Cancel? && Names(returned[k], r.side, r.id)
    ensures Parted(rs + [r], wanted + more, made + returned, at)
  {
    assert (rs + [r])[..|rs|] == rs;
  }

  /** A request that is not agreeable parts them. */
  lemma PartedNow(rs: seq<Request>, r: Request, trades: seq<Trade>, more: seq<Trade>, returned: seq<Trade>)
    requires !r.Cancel? && more != [] && (returned == [] || returned[0] != more[0])
    requires Names(more[0], r.side, r.id) && Submits(rs, if r.side == Buy then more[0].sellId else more[0].buyId)
    ensures Parted(rs + [r], trades + more, trades + returned, |trades|)
  {
    assert (rs + [r])[..|rs|] == rs;
  }

  function Made(rs: seq<Request>): seq<Trade> {
    Collected(ListAcks(LISTS_INITIAL, rs))
  }

  function Wanted(rs: seq<Request>): seq<Trade> {
    NaiveReplay(NAIVE_INITIAL, rs).trades
  }

  lemma MadeNext(rs: seq<Request>, r: Request)
    ensures Made(rs + [r]) == Made(rs) + ListReturned(ListReplay(LISTS_INITIAL, rs), r)
    ensures ListReplay(LISTS_INITIAL, rs + [r]) == ListApply(ListReplay(LISTS_INITIAL, rs), r)
  {
    assert (rs + [r])[..|rs|] == rs;
    CollectedAppend(ListAcks(LISTS_INITIAL, rs), ListReturned(ListReplay(LISTS_INITIAL, rs), r));
  }

  lemma NaiveAppends(n: Naive, r: Request)
    ensures NaiveApply(n, r).trades == n.trades + NaiveReturned(n, r)
  {
    if !r.Cancel? {
      CloseBooks(n, RunSweep(Open(n, r)));
    }
  }

  lemma WantedNext(rs: seq<Request>, r: Request)
    ensures Wanted(rs + [r]) == Wanted(rs) + NaiveReturned(NaiveReplay(NAIVE_INITIAL, rs), r)
    ensures NaiveReplay(NAIVE_INITIAL, rs + [r]) == NaiveApply(NaiveReplay(NAIVE_INITIAL, rs), r)
  {
    assert (rs + [r])[..|rs|] == rs;
    NaiveAppends(NaiveReplay(NAIVE_INITIAL, rs), r);
  }

  /** The two have agreed so far, and hold the same orders. */
  ghost predicate Together(rs: seq<Request>) {
    && AllAgreeable(NAIVE_INITIAL, rs) && Made(rs) == Wanted(rs)
    && ListsMirror(ListReplay(LISTS_INITIAL, rs), NaiveReplay(NAIVE_INITIAL, rs))
  }

  lemma TogetherStays(rs: seq<Request>, r: Request, l: Lists, n: Naive)
    requires Together(rs) && l == ListReplay(LISTS_INITIAL, rs) && n == NaiveReplay(NAIVE_INITIAL, rs)
    requires Agreeable(n, r) && (!r.Cancel? ==> !Submits(rs, r.id))
    ensures Together(rs + [r])
  {
    if !r.Cancel? {
      UnsubmittedIsUnquoted(rs, r.id);
    }
    LastAgreesIff(l, n, r);
    MadeNext(rs, r);
    WantedNext(rs, r);
    assert (rs + [r])[..|rs|] == rs;
  }

  lemma TogetherParts(rs: seq<Request>, r: Request, l: Lists, n: Naive)
    requires Together(rs) && l == ListReplay(LISTS_INITIAL, rs) && n == NaiveReplay(NAIVE_INITIAL, rs)
    requires !Agreeable(n, r)
    ensures Parted(rs + [r], Wanted(rs + [r]), Made(rs + [r]), |Wanted(rs)|)
  {
    OrderParts(l, n, r);
    FirstNames(n, r);
    var t := NaiveReturned(n, r)[0];
    RestingIdsWereSubmitted(rs, r.side.Opposite(), if r.side == Buy then t.sellId else t.buyId);
    MadeNext(rs, r);
    WantedNext(rs, r);
    PartedNow(rs, r, Wanted(rs), NaiveReturned(n, r), ListReturned(l, r));
  }

  lemma PartedGoesOn(rs: seq<Request>, r: Request, at: nat)
    requires Parted(rs, Wanted(rs), Made(rs), at) && (!r.Cancel? ==> !Submits(rs, r.id))
    ensures Parted(rs + [r], Wanted(rs + [r]), Made(rs + [r]), at)
  {
    var l := ListReplay(LISTS_INITIAL, rs);
    var returned := ListReturned(l, r);
    forall k | 0 <= k < |returned|
      ensures !r.Cancel? && Names(returned[k], r.side, r.id)
    {
      ReturnedNamesTaker(l, r, k);
    }
    MadeNext(rs, r);
    WantedNext(rs, r);
    PartedStays(rs, r, Wanted(rs), Made(rs), at, NaiveReturned(NaiveReplay(NAIVE_INITIAL, rs), r), returned);
  }

  lemma NotAllAgreeable(rs: seq<Request>, r: Request)
    requires !AllAgreeable(NAIVE_INITIAL, rs) || !Agreeable(NaiveReplay(NAIVE_INITIAL, rs), r)
    ensures !AllAgreeable(NAIVE_INITIAL, rs + [r])
  {
    assert (rs + [r])[..|rs|] == rs;
  }

  lemma EmptyTogether()
    ensures Together([])
  {
    InitialMirrors();
  }

  /** On a stream that submits no id twice the contestant either goes along with the naive engine all
      the way, or misses one of its trades for good. */
  lemma {:induction false} TogetherOrParted(rs: seq<Request>) returns (at: nat)
    requires Unrepeated(rs)
    ensures Together(rs) || (!AllAgreeable(NAIVE_INITIAL, rs) && Parted(rs, Wanted(rs), Made(rs), at))
  {
    if rs == [] {
      EmptyTogether();
      at := 0;
    } else {
      var prior, r := rs[..|rs| - 1], rs[|rs| - 1];
      assert rs == prior + [r];
      at := TogetherOrParted(prior);
      var l, n := ListReplay(LISTS_INITIAL, prior), NaiveReplay(NAIVE_INITIAL, prior);
      if !Together(prior) {
        PartedGoesOn(prior, r, at);
        NotAllAgreeable(prior, r);
      } else if Agreeable(n, r) {
        TogetherStays(prior, r, l, n);
      } else {
        TogetherParts(prior, r, l, n);
        NotAllAgreeable(prior, r);
        at := |Wanted(prior)|;
      }
    }
  }

  /** The contestant's fills start with those of best-price, oldest-first service if and only if every
      request was agreeable on arrival. */
  lemma FillsStartAsWantedIff(rs: seq<Request>)
    requires Unrepeated(rs)
    ensures Wanted(rs) <= Made(rs) <==> AllAgreeable(NAIVE_INITIAL, rs)
  {
    var at := TogetherOrParted(rs);
  }

  lemma ReferenceIsWanted(rs: seq<Request>)
    requires Unrepeated(rs) && HeapKept(AsWritten, INITIAL, rs)
    ensures Trades(Replay(AsWritten, INITIAL, rs).fills) == Wanted(rs)
  {
    UnrepeatedIsFresh(AsWritten, rs);
    ReferenceAcksAreNaive(AsWritten, rs);
  }

  /** On a stream that submits no id twice and whose cancels keep heap order the example contestant is
      rated 1 if and only if there were events and every request was agreeable on arrival. */
  lemma ContestantScoresOneIff(rs: seq<Request>, events: nat)
    requires Unrepeated(rs) && HeapKept(AsWritten, INITIAL, rs)
    ensures Judgement(Trades(Replay(AsWritten, INITIAL, rs).fills), Made(rs), events, |rs|) == 1.0
       <==> events > 0 && AllAgreeable(NAIVE_INITIAL, rs)
  {
    ReferenceIsWanted(rs);
    FillsStartAsWantedIff(rs);
    JudgementIsPerfectIff(Wanted(rs), Made(rs), events, |rs|);
  }
}
