/** Cancels that keep heap order, and one that does not. */
module CancelWitness {
  import opened Trading
  import opened Heapq
  import opened ReferenceEngine
  import opened NaiveEngine
  import opened Priority

  /** Nothing earlier in the list ranks after anything later. */
  ghost predicate Ranked(h: seq<Order>) {
    forall i, j :: 0 <= i < j < |h| ==> !Less(KeyOf(h[j]), KeyOf(h[i]))
  }

  lemma RankedIsHeap(h: seq<Order>)
    requires Ranked(h)
    ensures IsHeap(h)
  {
  }

  lemma {:induction false} WithoutIsWithin(h: seq<Order>, id: string, i: nat)
    requires i < |Without(h, id)|
    ensures exists j :: 0 <= j < |h| && h[j] == Without(h, id)[i]
  {
    if h[0].id == id {
      WithoutIsWithin(h[1..], id, i);
      var j :| 0 <= j < |h[1..]| && h[1..][j] == Without(h[1..], id)[i];
      assert h[j + 1] == Without(h, id)[i];
    } else if i > 0 {
      WithoutIsWithin(h[1..], id, i - 1);
      var j :| 0 <= j < |h[1..]| && h[1..][j] == Without(h[1..], id)[i - 1];
      assert h[j + 1] == Without(h, id)[i];
    }
  }

  /** Cancelling from a list that happens to be fully ranked keeps heap order. */
  lemma {:induction false} RankedWithout(h: seq<Order>, id: string)
    requires Ranked(h)
    ensures Ranked(Without(h, id)) && IsHeap(Without(h, id))
  {
    if h != [] {
      RankedWithout(h[1..], id);
      if h[0].id != id {
        var rest := Without(h[1..], id);
        forall i | 0 <= i < |rest|
          ensures !Less(KeyOf(rest[i]), KeyOf(h[0]))
        {
          WithoutIsWithin(h[1..], id, i);
        }
      }
    }
    RankedIsHeap(Without(h, id));
  }

  lemma {:induction false} WithoutLast(h: seq<Order>, id: string)
    requires h != [] && h[|h| - 1].id == id && forall i :: 0 <= i < |h| - 1 ==> h[i].id != id
    ensures Without(h, id) == h[..|h| - 1]
  {
    if |h| > 1 {
      WithoutLast(h[1..], id);
      assert h[..|h| - 1] == [h[0]] + h[1..][..|h[1..]| - 1];
    }
  }

  /** Cancelling the order in the last slot keeps heap order. */
  lemma LastSlotKeepsHeap(h: seq<Order>, id: string)
    requires IsHeap(h) && h != [] && h[|h| - 1].id == id && forall i :: 0 <= i < |h| - 1 ==> h[i].id != id
    ensures IsHeap(Without(h, id))
  {
    WithoutLast(h, id);
    var r := h[..|h| - 1];
    forall i: nat {:trigger EdgeOk(r, i)} | 0 < i < |r|
      ensures EdgeOk(r, i)
    {
      assert EdgeOk(h, i);
    }
  }

  function WitnessOrder(id: string, value: real, ts: nat): Order {
    Order(id, Sell, Fin(value), 1, ts)
  }

  /** Sells at 1, 5 and 2 make the list [1, 5, 2]; cancelling the first leaves [5, 2], and a buy at
      3 then trades nothing although the sell at 2 crosses it. The naive engine trades it. */
  lemma CancelLosesPriority(s: State)
    requires s.buys == [] && s.index == map["a" := 1, "b" := 2, "c" := 3] && s.clock == 3
    requires s.sells == [WitnessOrder("a", 1.0, 1), WitnessOrder("b", 5.0, 2), WitnessOrder("c", 2.0, 3)]
    ensures IsHeap(s.sells)
    ensures var t := CancelOrder(AsWritten, s, "a");
            && t.sells == [WitnessOrder("b", 5.0, 2), WitnessOrder("c", 2.0, 3)]
            && !IsHeap(t.sells)
            && Returned(t, Limit("d", Buy, Fin(3.0), 1)) == []
    ensures var n := Naive([], [Quote("b", Fin(5.0), 1), Quote("c", Fin(2.0), 1)], []);
            NaiveReturned(n, Limit("d", Buy, Fin(3.0), 1)) == [Trade("d", "c", Fin(2.0), 1)]
  {
    var t := CancelOrder(AsWritten, s, "a");
    assert s.sells[1..][1..] == [WitnessOrder("c", 2.0, 3)];
    assert Without(s.sells[1..][1..], "a") == [WitnessOrder("c", 2.0, 3)];
    assert Without(s.sells[1..], "a") == [WitnessOrder("b", 5.0, 2), WitnessOrder("c", 2.0, 3)];
    assert !EdgeOk(t.sells, 1);
    var book := [Quote("b", Fin(5.0), 1), Quote("c", Fin(2.0), 1)];
    var w := Sweep(Buy, Quote("d", Fin(3.0), 1), book, []);
    assert BestIndex(Buy, book) == 1;
    assert Pass(w) == Sweep(Buy, Quote("d", Fin(3.0), 0), [book[0]], [Trade("d", "c", Fin(2.0), 1)]);
    assert RunSweep(w) == RunSweep(Pass(w)) == Pass(w);
  }

  /** The buy at 3 then comes to rest beside the sell at 2: the books are crossed. */
  lemma CancelLeavesCrossed(s: State)
    requires s.buys == [] && s.index == map["a" := 1, "b" := 2, "c" := 3] && s.clock == 3
    requires s.sells == [WitnessOrder("a", 1.0, 1), WitnessOrder("b", 5.0, 2), WitnessOrder("c", 2.0, 3)]
    ensures var t := Apply(AsWritten, CancelOrder(AsWritten, s, "a"), Limit("d", Buy, Fin(3.0), 1));
            && t.buys == [Order("d", Buy, Fin(3.0), 1, 4)]
            && t.sells == [WitnessOrder("b", 5.0, 2), WitnessOrder("c", 2.0, 3)]
            && !Uncrossed(t)
  {
    CancelLosesPriority(s);
    var t := CancelOrder(AsWritten, s, "a");
    assert Stopped(Arrive(t, "d", Buy, Fin(3.0), 1));
    CrossedPair(Apply(AsWritten, t, Limit("d", Buy, Fin(3.0), 1)));
  }

  lemma CrossedPair(t: State)
    requires t.buys == [Order("d", Buy, Fin(3.0), 1, 4)]
    requires t.sells == [WitnessOrder("b", 5.0, 2), WitnessOrder("c", 2.0, 3)]
    ensures !Uncrossed(t)
  {
    assert t.buys[0] in t.buys && t.sells[1] in t.sells;
  }

  lemma SellRests(s: State, id: string, value: real)
    requires s.buys == []
    ensures AddLimit(s, id, Sell, Fin(value), 1)
         == s.(sells := Push(s.sells, WitnessOrder(id, value, s.clock + 1)), index := s.index[id := s.clock + 1],
               clock := s.clock + 1)
  {
    assert Stopped(Arrive(s, id, Sell, Fin(value), 1));
    assert s.fills + [] == s.fills;
  }

  lemma WitnessPushes()
    ensures var a, b, c := WitnessOrder("a", 1.0, 1), WitnessOrder("b", 5.0, 2), WitnessOrder("c", 2.0, 3);
            Push([], a) == [a] && Push([a], b) == [a, b] && Push([a, b], c) == [a, b, c]
  {
    var a, b, c := WitnessOrder("a", 1.0, 1), WitnessOrder("b", 5.0, 2), WitnessOrder("c", 2.0, 3);
    assert [] + [a] == [a] && [a] + [b] == [a, b] && [a, b] + [c] == [a, b, c];
  }

  lemma ReplayOne(s: State, rs: seq<Request>, r: Request)
    ensures Replay(AsWritten, s, rs + [r]) == Apply(AsWritten, Replay(AsWritten, s, rs), r)
  {
    assert (rs + [r])[..|rs + [r]| - 1] == rs;
  }

  /** The three sells do make that state. */
  lemma WitnessIsReached()
    ensures var a, b, c := Limit("a", Sell, Fin(1.0), 1), Limit("b", Sell, Fin(5.0), 1), Limit("c", Sell, Fin(2.0), 1);
            var s := Replay(AsWritten, INITIAL, [] + [a] + [b] + [c]);
            && s.buys == [] && s.index == map["a" := 1, "b" := 2, "c" := 3] && s.clock == 3
            && s.sells == [WitnessOrder("a", 1.0, 1), WitnessOrder("b", 5.0, 2), WitnessOrder("c", 2.0, 3)]
  {
    var a, b, c := Limit("a", Sell, Fin(1.0), 1), Limit("b", Sell, Fin(5.0), 1), Limit("c", Sell, Fin(2.0), 1);
    ReplayOne(INITIAL, [], a);
    ReplayOne(INITIAL, [] + [a], b);
    ReplayOne(INITIAL, [] + [a] + [b], c);
    WitnessRests();
  }

  lemma WitnessRests()
    ensures var s1 := AddLimit(INITIAL, "a", Sell, Fin(1.0), 1);
            var s2 := AddLimit(s1, "b", Sell, Fin(5.0), 1);
            AddLimit(s2, "c", Sell, Fin(2.0), 1)
            == State([], [WitnessOrder("a", 1.0, 1), WitnessOrder("b", 5.0, 2), WitnessOrder("c", 2.0, 3)],
                     map["a" := 1, "b" := 2, "c" := 3], [], 3)
  {
    WitnessPushes();
    SellRests(INITIAL, "a", 1.0);
    var s1 := State([], [WitnessOrder("a", 1.0, 1)], map["a" := 1], [], 1);
    SellRests(s1, "b", 5.0);
    var s2 := State([], [WitnessOrder("a", 1.0, 1), WitnessOrder("b", 5.0, 2)], map["a" := 1, "b" := 2], [], 2);
    SellRests(s2, "c", 2.0);
  }
}
