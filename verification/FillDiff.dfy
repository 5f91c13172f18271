/** Comparing a contestant's fills with the reference engine's, position by position. */
module FillDiff {
  import opened Trading
  import opened ReferenceEngine
  import opened Refinement
  import opened ListEngine

  /** The reference positions at which the contestant reported the same fill. */
  function MatchedAt(reference: seq<Trade>, contestant: seq<Trade>): set<nat> {
    set i: nat | i < |reference| && i < |contestant| && contestant[i] == reference[i]
  }

  function Total(reference: seq<Trade>): nat {
    if reference == [] then 1 else |reference|
  }

  /** The share of the reference fills the contestant reported in their place. */
  function MatchRate(reference: seq<Trade>, contestant: seq<Trade>): real {
    |MatchedAt(reference, contestant)| as real / Total(reference) as real
  }

  function Upto(n: nat): (r: set<nat>)
    ensures |r| == n && forall i: nat :: i in r <==> i < n
  {
    if n == 0 then {} else Upto(n - 1) + {n - 1}
  }

  lemma SmallerSet(a: set<nat>, b: set<nat>)
    requires a <= b
    ensures |a| <= |b| && (|a| == |b| ==> a == b)
  {
    assert b == a + (b - a);
  }

  lemma MatchedIsWithin(reference: seq<Trade>, contestant: seq<Trade>)
    ensures |MatchedAt(reference, contestant)| <= |reference|
    ensures |MatchedAt(reference, contestant)| == |reference| <==> reference <= contestant
  {
    var all, matched := Upto(|reference|), MatchedAt(reference, contestant);
    SmallerSet(matched, all);
    if matched == all {
      forall i: nat | i < |reference|
        ensures i < |contestant| && contestant[i] == reference[i]
      {
        assert i in matched;
      }
      if reference != [] {
        assert |reference| - 1 in matched;
      }
    }
    if reference <= contestant {
      assert matched == all;
    }
  }

  lemma ShareBounds(matched: nat, total: nat)
    requires matched <= total && total > 0
    ensures 0.0 <= matched as real / total as real <= 1.0
    ensures matched as real / total as real == 1.0 <==> matched == total
  {
  }

  /** The rate is 1 exactly for a non-empty reference that the contestant's list starts with. */
  lemma PerfectIffPrefix(reference: seq<Trade>, contestant: seq<Trade>)
    ensures 0.0 <= MatchRate(reference, contestant) <= 1.0
    ensures MatchRate(reference, contestant) == 1.0 <==> reference != [] && reference <= contestant
  {
    MatchedIsWithin(reference, contestant);
    ShareBounds(|MatchedAt(reference, contestant)|, Total(reference));
  }

  lemma ShareGrows(a: nat, b: nat, total: nat)
    requires a <= b && total > 0
    ensures a as real / total as real <= b as real / total as real
  {
  }

  /** More reference fills and more reported fills never lose a match. */
  lemma MatchedGrows(reference: seq<Trade>, contestant: seq<Trade>, reference': seq<Trade>, contestant': seq<Trade>)
    requires reference <= reference' && contestant <= contestant'
    ensures |MatchedAt(reference, contestant)| <= |MatchedAt(reference', contestant')|
  {
    SmallerSet(MatchedAt(reference, contestant), MatchedAt(reference', contestant'));
  }

  /** Reporting more fills never lowers the rate. */
  lemma AppendNeverLowers(reference: seq<Trade>, contestant: seq<Trade>, more: seq<Trade>)
    ensures MatchRate(reference, contestant) <= MatchRate(reference, contestant + more)
  {
    MatchedGrows(reference, contestant, reference, contestant + more);
    ShareGrows(|MatchedAt(reference, contestant)|, |MatchedAt(reference, contestant + more)|, Total(reference));
  }

  /** The rate counts matches out of the reference fills. */
  lemma RateCounts(reference: seq<Trade>, contestant: seq<Trade>)
    requires reference != []
    ensures MatchRate(reference, contestant) * |reference| as real == |MatchedAt(reference, contestant)| as real
  {
  }

  /** Each matched position is worth exactly one fill: reporting another fill there loses that one match. */
  lemma EachPositionCounts(reference: seq<Trade>, contestant: seq<Trade>, i: nat, other: Trade)
    requires i < |reference| && i < |contestant| && contestant[i] == reference[i] != other
    ensures |MatchedAt(reference, contestant[i := other])| == |MatchedAt(reference, contestant)| - 1
    ensures (MatchRate(reference, contestant) - MatchRate(reference, contestant[i := other])) * |reference| as real
         == 1.0
  {
    assert MatchedAt(reference, contestant[i := other]) == MatchedAt(reference, contestant) - {i};
    RateCounts(reference, contestant);
    RateCounts(reference, contestant[i := other]);
  }

  lemma NextPosition(reference: seq<Trade>, contestant: seq<Trade>, i: nat)
    requires i < |reference|
    ensures |MatchedAt(reference[..i + 1], contestant)|
         == |MatchedAt(reference[..i], contestant)| + if i < |contestant| && contestant[i] == reference[i] then 1 else 0
  {
    var before, after := MatchedAt(reference[..i], contestant), MatchedAt(reference[..i + 1], contestant);
    assert forall j: nat :: j < i ==> reference[..i][j] == reference[..i + 1][j];
    assert after == if i < |contestant| && contestant[i] == reference[i] then before + {i} else before;
  }

  /** Correctness as one minus the mismatched share, clamped. */
  method DiffFills(reference: seq<Trade>, contestant: seq<Trade>) returns (rate: real)
    ensures rate == MatchRate(reference, contestant)
  {
    var total := if |reference| > 1 then |reference| else 1;
    var matched := 0;
    for i := 0 to |reference|
      invariant matched == |MatchedAt(reference[..i], contestant)|
    {
      NextPosition(reference, contestant, i);
      if i < |contestant| && contestant[i] == reference[i] {
        matched := matched + 1;
      }
    }
    assert reference[..|reference|] == reference;
    var mismatched := total - matched;
    rate := Clamped(1.0 - mismatched as real / total as real);
    MatchedIsWithin(reference, contestant);
    ComplementOfShare(matched, total);
  }

  function Clamped(x: real): real {
    var low := if x < 1.0 then x else 1.0;
    if 0.0 < low then low else 0.0
  }

  lemma QuotientIs(x: real, t: real, q: real)
    requires t > 0.0 && q * t == x
    ensures x / t == q
  {
  }

  lemma ComplementOfShare(matched: nat, total: nat)
    requires matched <= total && total > 0
    ensures Clamped(1.0 - (total - matched) as real / total as real) == matched as real / total as real
  {
    var t, q := total as real, matched as real / total as real;
    assert (1.0 - q) * t == t - q * t == (total - matched) as real;
    QuotientIs((total - matched) as real, t, 1.0 - q);
    ShareBounds(matched, total);
  }

  // ----- Replays -----

  lemma ApplyAppends(mode: CancelMode, s: State, r: Request)
    ensures Apply(mode, s, r).fills == s.fills + Returned(s, r)
  {
    if !r.Cancel? {
      var m := Run(Arrive(s, r.id, r.side, LimitPrice(r), r.qty));
      assert Settle(s, m).fills == s.fills + m.log;
    }
  }

  /** Replaying a longer stream only extends the fill log. */
  lemma {:induction false} ReplayExtends(mode: CancelMode, rs: seq<Request>, more: seq<Request>)
    ensures Replay(mode, INITIAL, rs).fills <= Replay(mode, INITIAL, rs + more).fills
  {
    if more == [] {
      assert rs + more == rs;
    } else {
      var before := more[..|more| - 1];
      assert (rs + more)[..|rs + more| - 1] == rs + before;
      ReplayExtends(mode, rs, before);
      ApplyAppends(mode, Replay(mode, INITIAL, rs + before), more[|more| - 1]);
    }
  }

  /** The log is what the requests returned, put together. */
  lemma {:induction false} LogIsCollected(mode: CancelMode, rs: seq<Request>)
    ensures Trades(Replay(mode, INITIAL, rs).fills) == Collected(ReferenceAcks(mode, INITIAL, rs))
  {
    if rs != [] {
      var prior := rs[..|rs| - 1];
      var s := Replay(mode, INITIAL, prior);
      var acks, last := ReferenceAcks(mode, INITIAL, prior), Trades(Returned(s, rs[|rs| - 1]));
      LogIsCollected(mode, prior);
      ApplyAppends(mode, s, rs[|rs| - 1]);
      TradesOfConcat(s.fills, Returned(s, rs[|rs| - 1]));
      assert (acks + [last])[..|acks|] == acks;
    }
  }

  /** As the order stream and the reports grow, the number of matched fills never falls. */
  lemma MatchedGrowsWithTheRun(mode: CancelMode, rs: seq<Request>, moreOrders: seq<Request>,
                               contestant: seq<Trade>, moreFills: seq<Trade>)
    ensures |MatchedAt(Trades(Replay(mode, INITIAL, rs).fills), contestant)|
         <= |MatchedAt(Trades(Replay(mode, INITIAL, rs + moreOrders).fills), contestant + moreFills)|
  {
    ReplayExtends(mode, rs, moreOrders);
    var before, after := Replay(mode, INITIAL, rs).fills, Replay(mode, INITIAL, rs + moreOrders).fills;
    TradesOfConcat(before, after[|before|..]);
    assert before + after[|before|..] == after;
    MatchedGrows(Trades(before), contestant, Trades(after), contestant + moreFills);
  }
}
