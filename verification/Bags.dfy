/** Small facts about multisets of orders that the solver needs to be told. */
module Bags {
  import opened Trading

  lemma MultisetCancel(x: Order, a: multiset<Order>, b: multiset<Order>)
    requires multiset{x} + a == multiset{x} + b
    ensures a == b
  {
    forall o
      ensures a[o] == b[o]
    {
      assert (multiset{x} + a)[o] == (multiset{x} + b)[o];
    }
  }

  lemma MultisetTrade(others: multiset<Order>, best: Order, inc: Order, inc': Order)
    ensures others + multiset{best} + multiset{inc} - multiset{inc} + multiset{inc'} - multiset{best}
            == others + multiset{inc'}
  {
  }

  lemma MultisetPart(all: multiset<Order>, o: Order)
    requires o in all
    ensures all - multiset{o} + multiset{o} == all
  {
  }

  lemma Commute(a: multiset<Order>, b: multiset<Order>)
    ensures a + b == b + a
  {
  }

  lemma SameCounts(a: multiset<Order>, b: multiset<Order>)
    requires forall o :: a[o] == b[o]
    ensures a == b
  {
  }

  /** A list split around position `i`. */
  lemma SplitAt(s: seq<Order>, i: nat)
    requires i < |s|
    ensures s == s[..i] + ([s[i]] + s[i + 1..])
    ensures multiset(s) == multiset{s[i]} + multiset(s[..i] + s[i + 1..])
  {
    assert s == s[..i] + ([s[i]] + s[i + 1..]);
  }
}
