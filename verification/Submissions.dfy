/** Which ids a stream has submitted, and streams that submit none twice. */
module Submissions {
  import opened Trading
  import opened ReferenceEngine
  import opened Conservation
  import opened NaiveEngine
  import opened Refinement
  import opened ListEngine
  import opened TwoEngines

  predicate Submits(rs: seq<Request>, id: string) {
    rs != [] && (Submits(rs[..|rs| - 1], id) || (!rs[|rs| - 1].Cancel? && rs[|rs| - 1].id == id))
  }

  /** No id is submitted twice, whatever became of the first order. */
  predicate Unrepeated(rs: seq<Request>) {
    rs == [] || (
      var prior, r := rs[..|rs| - 1], rs[|rs| - 1];
      Unrepeated(prior) && (!r.Cancel? ==> !Submits(prior, r.id)))
  }

  lemma ApplyIndexes(mode: CancelMode, s: State, r: Request, id: string)
    requires id in Apply(mode, s, r).index
    ensures id in s.index || (!r.Cancel? && id == r.id)
  {
    if !r.Cancel? {
      IndexShrinks(Arrive(s, r.id, r.side, LimitPrice(r), r.qty));
    }
  }

  /** Only submitted ids are ever live. */
  lemma {:induction false} LiveIdsWereSubmitted(mode: CancelMode, rs: seq<Request>, id: string)
    requires id in Replay(mode, INITIAL, rs).index
    ensures Submits(rs, id)
  {
    if rs != [] {
      var prior, r := rs[..|rs| - 1], rs[|rs| - 1];
      ApplyIndexes(mode, Replay(mode, INITIAL, prior), r, id);
      if id in Replay(mode, INITIAL, prior).index {
        LiveIdsWereSubmitted(mode, prior, id);
      }
    }
  }

  lemma UnsubmittedIsDead(mode: CancelMode, rs: seq<Request>, id: string)
    requires !Submits(rs, id)
    ensures id !in Replay(mode, INITIAL, rs).index
  {
    if id in Replay(mode, INITIAL, rs).index {
      LiveIdsWereSubmitted(mode, rs, id);
    }
  }

  /** Ids submitted once are fresh while live. */
  lemma {:induction false} UnrepeatedIsFresh(mode: CancelMode, rs: seq<Request>)
    requires Unrepeated(rs)
    ensures FreshIds(mode, INITIAL, rs)
  {
    if rs != [] {
      var prior, r := rs[..|rs| - 1], rs[|rs| - 1];
      UnrepeatedIsFresh(mode, prior);
      if !r.Cancel? {
        UnsubmittedIsDead(mode, prior, r.id);
      }
    }
  }

  // ----- The naive engine -----

  predicate Holds(book: seq<Quote>, id: string) {
    exists i :: 0 <= i < |book| && book[i].id == id
  }

  lemma TakeHoldsNoMore(book: seq<Quote>, i: nat, qty: int, id: string)
    requires i < |book| && Holds(TakeAt(book, i, qty), id)
    ensures Holds(book, id)
  {
    var after := TakeAt(book, i, qty);
    var j :| 0 <= j < |after| && after[j].id == id;
    assert book[if |after| < |book| && j >= i then j + 1 else j].id == id;
  }

  lemma {:induction false} SweepHoldsNoMore(w: Sweep, id: string)
    requires Holds(RunSweep(w).book, id)
    ensures Holds(w.book, id)
    decreases |w.book|, w.quote.qty > 0
  {
    if !Finished(w) {
      var i := BestIndex(w.taker, w.book);
      SweepHoldsNoMore(Pass(w), id);
      TakeHoldsNoMore(w.book, i, Min(w.quote.qty, w.book[i].qty), id);
    }
  }

  lemma {:induction false} SweepKeepsTaker(w: Sweep)
    ensures RunSweep(w).quote.id == w.quote.id && RunSweep(w).taker == w.taker
    decreases |w.book|, w.quote.qty > 0
  {
    if !Finished(w) {
      SweepKeepsTaker(Pass(w));
    }
  }

  lemma {:induction false} ExceptHoldsNoMore(book: seq<Quote>, id: string, other: string)
    requires Holds(Except(book, id), other)
    ensures Holds(book, other)
  {
    if book != [] {
      var after := Except(book, id);
      var j :| 0 <= j < |after| && after[j].id == other;
      if book[0].id != id && j == 0 {
        assert book[0].id == other;
      } else {
        assert Except(book[1..], id)[if book[0].id == id then j else j - 1].id == other;
        ExceptHoldsNoMore(book[1..], id, other);
        var k :| 0 <= k < |book[1..]| && book[1..][k].id == other;
        assert book[k + 1].id == other;
      }
    }
  }

  lemma AppendHolds(book: seq<Quote>, q: Quote, id: string)
    requires Holds(book + [q], id)
    ensures Holds(book, id) || q.id == id
  {
    var i :| 0 <= i < |book + [q]| && (book + [q])[i].id == id;
    assert i < |book| ==> book[i].id == id;
  }

  lemma ApplyHoldsNoMore(n: Naive, r: Request, side: Side, id: string)
    requires Holds(QuoteBook(NaiveApply(n, r), side), id)
    ensures Holds(QuoteBook(n, side), id) || (!r.Cancel? && r.id == id)
  {
    if r.Cancel? {
      ExceptHoldsNoMore(QuoteBook(n, side), r.id, id);
    } else {
      var w := Open(n, r);
      SweepKeepsTaker(w);
      CloseBooks(n, RunSweep(w));
      if side == r.side.Opposite() {
        SweepHoldsNoMore(w, id);
      } else if RunSweep(w).quote.qty > 0 {
        AppendHolds(QuoteBook(n, side), RunSweep(w).quote, id);
      }
    }
  }

  /** The naive engine rests submitted ids only. */
  lemma {:induction false} RestingIdsWereSubmitted(rs: seq<Request>, side: Side, id: string)
    requires Holds(QuoteBook(NaiveReplay(NAIVE_INITIAL, rs), side), id)
    ensures Submits(rs, id)
  {
    if rs != [] {
      var prior, r := rs[..|rs| - 1], rs[|rs| - 1];
      ApplyHoldsNoMore(NaiveReplay(NAIVE_INITIAL, prior), r, side, id);
      if Holds(QuoteBook(NaiveReplay(NAIVE_INITIAL, prior), side), id) {
        RestingIdsWereSubmitted(prior, side, id);
      }
    }
  }

  lemma UnsubmittedIsUnquoted(rs: seq<Request>, id: string)
    requires !Submits(rs, id)
    ensures !Quoted(NaiveReplay(NAIVE_INITIAL, rs), id)
  {
    var n := NaiveReplay(NAIVE_INITIAL, rs);
    if Quoted(n, id) {
      var side := if Holds(n.buys, id) then Buy else Sell;
      RestingIdsWereSubmitted(rs, side, id);
    }
  }

  /** So ids submitted once come in unquoted. */
  lemma {:induction false} UnrepeatedIsUnquoted(rs: seq<Request>)
    requires Unrepeated(rs)
    ensures UnquotedIds(NAIVE_INITIAL, rs)
  {
    if rs != [] {
      var prior, r := rs[..|rs| - 1], rs[|rs| - 1];
      UnrepeatedIsUnquoted(prior);
      if !r.Cancel? {
        UnsubmittedIsUnquoted(prior, r.id);
      }
      UnquotedExtends(NAIVE_INITIAL, rs);
    }
  }

  /** On a stream that submits no id twice, cancels included, the contestant acknowledges what
      best-price, oldest-first service gives exactly when every request is agreeable on arrival. */
  lemma UnrepeatedAcksAgreeIff(rs: seq<Request>)
    requires Unrepeated(rs)
    ensures ListAcks(LISTS_INITIAL, rs) == NaiveAcks(NAIVE_INITIAL, rs) <==> AllAgreeable(NAIVE_INITIAL, rs)
  {
    InitialMirrors();
    UnrepeatedIsUnquoted(rs);
    AcksAgreeIff(LISTS_INITIAL, NAIVE_INITIAL, rs);
  }

  /** At one common price it does on every such stream. */
  lemma UnrepeatedAtOnePrice(rs: seq<Request>, p: Price)
    requires Unrepeated(rs) && PricedAt(rs, p)
    ensures ListAcks(LISTS_INITIAL, rs) == NaiveAcks(NAIVE_INITIAL, rs)
  {
    UnrepeatedIsUnquoted(rs);
    CommonPriceServesOldest(rs, p);
  }
}
