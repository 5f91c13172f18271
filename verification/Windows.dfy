/** The ingester's window counters. Events are consumed and windows are flushed by two tasks that
    take turns at their awaits: a flush takes its snapshot, reads the error count and publishes in
    three steps, and events may be consumed between them. */
module Windows {

  /** An event taken from the stream of one submission; it names a submission itself. */
  datatype Event = Event(stream: string, submission: string, acked: bool)

  /** How far the flush of one submission has got. */
  datatype Phase = Idle | Snapped(id: string, count: nat) | Rated(id: string, count: nat, errors: nat)

  /** The part of a published row that the counters decide. */
  datatype Row = Row(id: string, count: nat, errors: nat)

  datatype Window = Window(counts: map<string, nat>, errors: map<string, nat>, phase: Phase, published: seq<Row>)

  const EMPTY := Window(map[], map[], Idle, [])

  /** The steps between two awaits. */
  datatype Action = Consume(ev: Event) | Snap(id: string) | ReadErrors | Publish

  function Count(m: map<string, nat>, id: string): nat {
    if id in m then m[id] else 0
  }

  function Bumped(m: map<string, nat>, id: string): map<string, nat> {
    m[id := Count(m, id) + 1]
  }

  predicate Enabled(w: Window, a: Action) {
    match a
    case Consume(_) => true
    case Snap(id) => w.phase.Idle? && id in w.counts
    case ReadErrors => w.phase.Snapped?
    case Publish => w.phase.Rated?
  }

  function Take(w: Window, ev: Event): Window {
    w.(counts := Bumped(w.counts, ev.submission),
       errors := if ev.acked then w.errors else Bumped(w.errors, ev.stream))
  }

  /** A step that is not enabled does not happen. */
  function Step(w: Window, a: Action): Window {
    if !Enabled(w, a) then w
    else
      match a
      case Consume(ev) => Take(w, ev)
      case Snap(id) => if w.counts[id] == 0 then w else w.(phase := Snapped(id, w.counts[id]))
      case ReadErrors => w.(phase := Rated(w.phase.id, w.phase.count, Count(w.errors, w.phase.id)))
      case Publish =>
        Window(w.counts[w.phase.id := 0], w.errors[w.phase.id := 0], Idle,
               w.published + [Row(w.phase.id, w.phase.count, w.phase.errors)])
  }

  function After(actions: seq<Action>): Window {
    if actions == [] then EMPTY else Step(After(actions[..|actions| - 1]), actions[|actions| - 1])
  }

  // ----- What a run has seen -----

  function Processed(actions: seq<Action>, id: string): nat {
    if actions == [] then 0
    else
      var a := actions[|actions| - 1];
      Processed(actions[..|actions| - 1], id) + if a.Consume? && a.ev.submission == id then 1 else 0
  }

  function Failed(actions: seq<Action>, id: string): nat {
    if actions == [] then 0
    else
      var a := actions[|actions| - 1];
      Failed(actions[..|actions| - 1], id) + if a.Consume? && !a.ev.acked && a.ev.stream == id then 1 else 0
  }

  predicate Flushing(p: Phase, id: string) {
    !p.Idle? && p.id == id
  }

  /** Events of a submission consumed between its snapshot and the reset of its window. */
  function Overlapped(actions: seq<Action>, id: string): nat {
    if actions == [] then 0
    else
      var prior, a := actions[..|actions| - 1], actions[|actions| - 1];
      Overlapped(prior, id)
      + if a.Consume? && a.ev.submission == id && Flushing(After(prior).phase, id) then 1 else 0
  }

  /** Failed events of a submission consumed between the reading of its errors and their reset. */
  function FailedLate(actions: seq<Action>, id: string): nat {
    if actions == [] then 0
    else
      var prior, a := actions[..|actions| - 1], actions[|actions| - 1];
      FailedLate(prior, id)
      + if a.Consume? && !a.ev.acked && a.ev.stream == id && After(prior).phase.Rated? && After(prior).phase.id == id
        then 1 else 0
  }

  function CountOf(rows: seq<Row>, id: string): nat {
    if rows == [] then 0
    else CountOf(rows[..|rows| - 1], id) + if rows[|rows| - 1].id == id then rows[|rows| - 1].count else 0
  }

  function ErrorsOf(rows: seq<Row>, id: string): nat {
    if rows == [] then 0
    else ErrorsOf(rows[..|rows| - 1], id) + if rows[|rows| - 1].id == id then rows[|rows| - 1].errors else 0
  }

  lemma RowsAppend(rows: seq<Row>, r: Row, id: string)
    ensures CountOf(rows + [r], id) == CountOf(rows, id) + if r.id == id then r.count else 0
    ensures ErrorsOf(rows + [r], id) == ErrorsOf(rows, id) + if r.id == id then r.errors else 0
  {
    assert (rows + [r])[..|rows|] == rows;
  }

  /** What a window still owes the rows: its count, or the snapshot already taken of it. */
  function Owed(w: Window, id: string): nat {
    if Flushing(w.phase, id) then w.phase.count else Count(w.counts, id)
  }

  function ErrorsOwed(w: Window, id: string): nat {
    if w.phase.Rated? && w.phase.id == id then w.phase.errors else Count(w.errors, id)
  }

  lemma StepAccounts(w: Window, a: Action, id: string)
    ensures CountOf(Step(w, a).published, id) + Owed(Step(w, a), id)
         == CountOf(w.published, id) + Owed(w, id)
            + if a.Consume? && a.ev.submission == id && !Flushing(w.phase, id) then 1 else 0
    ensures ErrorsOf(Step(w, a).published, id) + ErrorsOwed(Step(w, a), id)
         == ErrorsOf(w.published, id) + ErrorsOwed(w, id)
            + if a.Consume? && !a.ev.acked && a.ev.stream == id && !(w.phase.Rated? && w.phase.id == id) then 1 else 0
  {
    if a.Publish? && w.phase.Rated? {
      RowsAppend(w.published, Row(w.phase.id, w.phase.count, w.phase.errors), id);
    }
  }

  /** Whatever the interleaving: every event processed is published, or was lost to the reset of a
      window whose snapshot had been taken, or is still owed. */
  lemma {:induction false} EventsAreAccounted(actions: seq<Action>, id: string)
    ensures Processed(actions, id)
            == CountOf(After(actions).published, id) + Overlapped(actions, id) + Owed(After(actions), id)
  {
    if actions != [] {
      var prior := actions[..|actions| - 1];
      EventsAreAccounted(prior, id);
      StepAccounts(After(prior), actions[|actions| - 1], id);
    }
  }

  /** The same for events without an acknowledgement. */
  lemma {:induction false} FailuresAreAccounted(actions: seq<Action>, id: string)
    ensures Failed(actions, id)
            == ErrorsOf(After(actions).published, id) + FailedLate(actions, id) + ErrorsOwed(After(actions), id)
  {
    if actions != [] {
      var prior := actions[..|actions| - 1];
      FailuresAreAccounted(prior, id);
      StepAccounts(After(prior), actions[|actions| - 1], id);
    }
  }

  lemma AfterNext(actions: seq<Action>, a: Action, id: string)
    ensures After(actions + [a]) == Step(After(actions), a)
    ensures Processed(actions + [a], id)
         == Processed(actions, id) + if a.Consume? && a.ev.submission == id then 1 else 0
  {
    assert (actions + [a])[..|actions|] == actions;
  }

  /** Two acknowledged events of a submission, the second one between its snapshot and its reset. */
  function LossyRun(id: string): seq<Action> {
    [] + [Consume(Event(id, id, true))] + [Snap(id)] + [Consume(Event(id, id, true))] + [ReadErrors] + [Publish]
  }

  /** One of the two is in the published row; the other is in none and no longer counted. */
  lemma EventIsLost(id: string)
    ensures Processed(LossyRun(id), id) == 2
    ensures After(LossyRun(id)).published == [Row(id, 1, 0)] && Owed(After(LossyRun(id)), id) == 0
    ensures Overlapped(LossyRun(id), id) == 1
  {
    var e := Consume(Event(id, id, true));
    var run: seq<Action> := [];
    AfterNext(run, e, id);
    run := run + [e];
    AfterNext(run, Snap(id), id);
    run := run + [Snap(id)];
    AfterNext(run, e, id);
    run := run + [e];
    AfterNext(run, ReadErrors, id);
    run := run + [ReadErrors];
    AfterNext(run, Publish, id);
    EventsAreAccounted(LossyRun(id), id);
    RowsAppend([], Row(id, 1, 0), id);
    assert [] + [Row(id, 1, 0)] == [Row(id, 1, 0)];
  }

  // ----- Error rates -----

  /** Events name the submission whose stream they are in. */
  predicate OwnStreams(actions: seq<Action>) {
    forall i :: 0 <= i < |actions| && actions[i].Consume? ==> actions[i].ev.stream == actions[i].ev.submission
  }

  /** Events of the submission being flushed that came between its snapshot and the reading of its errors. */
  function Late(actions: seq<Action>): nat {
    if actions == [] then 0
    else
      var prior, a := actions[..|actions| - 1], actions[|actions| - 1];
      match After(prior).phase
      case Idle => 0
      case Snapped(id, _) => Late(prior) + if a.Consume? && a.ev.submission == id then 1 else 0
      case Rated(_, _, _) => if a.Publish? then 0 else Late(prior)
  }

  /** The same for each published row. */
  function LateOf(actions: seq<Action>): seq<nat> {
    if actions == [] then []
    else
      var prior := actions[..|actions| - 1];
      LateOf(prior) + if actions[|actions| - 1].Publish? && After(prior).phase.Rated? then [Late(prior)] else []
  }

  ghost predicate ErrorsWithin(w: Window, late: nat) {
    && (forall id :: Count(w.errors, id) <= Count(w.counts, id))
    && match w.phase
       case Idle => true
       case Snapped(id, count) => 0 < count && Count(w.counts, id) <= count + late
       case Rated(id, count, errors) => 0 < count && errors <= count + late
  }

  ghost predicate RowsWithin(rows: seq<Row>, late: seq<nat>) {
    |late| == |rows| && forall k :: 0 <= k < |rows| ==> 0 < rows[k].count && rows[k].errors <= rows[k].count + late[k]
  }

  lemma TakeKeepsWithin(w: Window, ev: Event, late: nat)
    requires ErrorsWithin(w, late) && ev.stream == ev.submission
    ensures var more := if w.phase.Snapped? && ev.submission == w.phase.id then 1 else 0;
            ErrorsWithin(Take(w, ev), late + more)
  {
    forall id
      ensures Count(Take(w, ev).errors, id) <= Count(Take(w, ev).counts, id)
    {
      assert Count(w.errors, id) <= Count(w.counts, id);
    }
  }

  lemma StepKeepsWithin(prior: seq<Action>, a: Action)
    requires ErrorsWithin(After(prior), Late(prior)) && RowsWithin(After(prior).published, LateOf(prior))
    requires a.Consume? ==> a.ev.stream == a.ev.submission
    ensures ErrorsWithin(After(prior + [a]), Late(prior + [a]))
            && RowsWithin(After(prior + [a]).published, LateOf(prior + [a]))
  {
    assert (prior + [a])[..|prior|] == prior;
    var w := After(prior);
    if a.Consume? {
      TakeKeepsWithin(w, a.ev, Late(prior));
    } else {
      assert forall id :: Count(Step(w, a).errors, id) <= Count(w.errors, id);
    }
  }

  /** Live errors never exceed the live count, and a published error count exceeds the published
      event count by no more than the events that came in between the two readings. */
  lemma {:induction false} ErrorsStayWithin(actions: seq<Action>)
    requires OwnStreams(actions)
    ensures ErrorsWithin(After(actions), Late(actions)) && RowsWithin(After(actions).published, LateOf(actions))
  {
    if actions != [] {
      var prior := actions[..|actions| - 1];
      assert actions == prior + [actions[|actions| - 1]];
      ErrorsStayWithin(prior);
      StepKeepsWithin(prior, actions[|actions| - 1]);
    }
  }

  /** The published error rate: errors over events plus errors. */
  function ErrorRate(r: Row): real {
    var total := r.count + r.errors;
    r.errors as real / (if total > 1 then total else 1) as real
  }

  lemma Scaled(p: real, q: real, t: real)
    requires p < q && t > 0.0
    ensures p * t < q * t
  {
  }

  lemma ShareAgainst(x: real, t: real, bound: real)
    requires t > 0.0
    ensures x / t < bound <==> x < bound * t
    ensures x / t <= bound <==> x <= bound * t
  {
    var q := x / t;
    assert q * t == x;
    if q < bound {
      Scaled(q, bound, t);
    } else if q > bound {
      Scaled(bound, q, t);
    }
  }

  lemma ShareOf(part: nat, total: nat)
    requires part < total
    ensures 0.0 <= part as real / total as real < 1.0
    ensures 2 * part <= total <==> part as real / total as real <= 0.5
  {
    ShareAgainst(part as real, total as real, 0.0);
    ShareAgainst(part as real, total as real, 0.5);
    ShareAgainst(part as real, total as real, 1.0);
  }

  /** No window is flushed empty. */
  ghost predicate NoneEmpty(w: Window) {
    && (!w.phase.Idle? ==> w.phase.count > 0)
    && forall k :: 0 <= k < |w.published| ==> w.published[k].count > 0
  }

  lemma {:induction false} NoRowIsEmpty(actions: seq<Action>)
    ensures NoneEmpty(After(actions))
  {
    if actions != [] {
      NoRowIsEmpty(actions[..|actions| - 1]);
    }
  }

  /** It is a proper share for every row of every run, and at most one half exactly when the row has no
      more errors than events. When events name the submission of their stream that holds for every row
      whose two readings had no event of the submission between them. */
  lemma RatesAreShares(actions: seq<Action>, k: nat)
    requires k < |After(actions).published|
    ensures 0.0 <= ErrorRate(After(actions).published[k]) < 1.0
    ensures ErrorRate(After(actions).published[k]) <= 0.5
       <==> After(actions).published[k].errors <= After(actions).published[k].count
    ensures OwnStreams(actions) ==>
              |LateOf(actions)| == |After(actions).published|
              && (LateOf(actions)[k] == 0 ==> ErrorRate(After(actions).published[k]) <= 0.5)
  {
    NoRowIsEmpty(actions);
    var r := After(actions).published[k];
    ShareOf(r.errors, r.count + r.errors);
    if OwnStreams(actions) {
      ErrorsStayWithin(actions);
    }
  }

  lemma ShareTimes(part: nat, total: nat)
    requires total > 0
    ensures (part as real / total as real) * total as real == part as real
  {
  }

  /** Every published rate is the row's errors out of its events and errors together. */
  lemma PublishedRateIs(actions: seq<Action>, k: nat)
    requires k < |After(actions).published|
    ensures var r := After(actions).published[k];
            r.count > 0 && ErrorRate(r) * (r.count + r.errors) as real == r.errors as real
  {
    NoRowIsEmpty(actions);
    var r := After(actions).published[k];
    ShareTimes(r.errors, r.count + r.errors);
  }

  lemma SharesCompare(a: nat, m: nat, b: nat, n: nat)
    requires m > 0 && n > 0 && a * n < b * m
    ensures a as real / m as real < b as real / n as real
  {
    var p, q := a as real / m as real, b as real / n as real;
    ShareTimes(a, m);
    ShareTimes(b, n);
    assert (a * n) as real == a as real * n as real && (b * m) as real == b as real * m as real;
    if p >= q {
      ProductsCompare(p, q, m as real, n as real, a as real, b as real);
    }
  }

  lemma ProductsCompare(p: real, q: real, m: real, n: real, a: real, b: real)
    requires p >= q && m > 0.0 && n > 0.0 && p * m == a && q * n == b
    ensures a * n >= b * m
  {
    var mn := m * n;
    assert mn > 0.0;
    assert a * n == p * mn && b * m == q * mn;
    assert (p - q) * mn >= 0.0;
  }

  lemma MoreErrorsCross(e: nat, c: nat, more: nat)
    requires c > 0 && more > 0
    ensures e * (c + (e + more)) < (e + more) * (c + e)
  {
    assert e * (c + (e + more)) == e * (c + e) + e * more;
    assert (e + more) * (c + e) == e * (c + e) + (more * c + more * e);
    assert e * more == more * e && more * c > 0;
  }

  lemma MoreEventsCross(e: nat, c: nat, more: nat)
    requires e > 0 && more > 0
    ensures e * (c + e) < e * ((c + more) + e)
  {
    assert e * ((c + more) + e) == e * (c + e) + e * more;
  }

  /** It rises with the errors of a row, and falls with its events when there are errors. */
  lemma RateMoves(id: string, count: nat, errors: nat, more: nat)
    requires count > 0 && more > 0
    ensures ErrorRate(Row(id, count, errors)) < ErrorRate(Row(id, count, errors + more))
    ensures errors > 0 ==> ErrorRate(Row(id, count + more, errors)) < ErrorRate(Row(id, count, errors))
  {
    MoreErrorsCross(errors, count, more);
    SharesCompare(errors, count + errors, errors + more, count + (errors + more));
    if errors > 0 {
      MoreEventsCross(errors, count, more);
      SharesCompare(errors, (count + more) + errors, errors, count + errors);
    }
  }

  lemma MoreAttemptsSmallerShare(e: real, c: real, t: real)
    requires 0.0 < e && 0.0 < c < t
    ensures e / t < e / c
  {
    var p := e / c;
    assert p * c == e && p > 0.0;
    Scaled(c, t, p);
    ShareAgainst(e, t, p);
  }

  /** It is the documented share of attempts without an acknowledgement only when there were none;
      otherwise it falls short of it. */
  lemma RateIsDocumentedIff(r: Row)
    requires 0 < r.count
    ensures ErrorRate(r) == r.errors as real / r.count as real <==> r.errors == 0
    ensures ErrorRate(r) <= r.errors as real / r.count as real
  {
    if r.errors > 0 {
      MoreAttemptsSmallerShare(r.errors as real, r.count as real, (r.count + r.errors) as real);
    }
  }

  /** One event without acknowledgement, and the flush of its window. */
  function FailedRun(id: string): seq<Action> {
    [] + [Consume(Event(id, id, false))] + [Snap(id)] + [ReadErrors] + [Publish]
  }

  lemma FailedRunPublishes(id: string)
    ensures After(FailedRun(id)).published == [Row(id, 1, 1)]
  {
    var e := Consume(Event(id, id, false));
    var run: seq<Action> := [];
    AfterNext(run, e, id);
    run := run + [e];
    AfterNext(run, Snap(id), id);
    run := run + [Snap(id)];
    AfterNext(run, ReadErrors, id);
    run := run + [ReadErrors];
    AfterNext(run, Publish, id);
    assert [] + [Row(id, 1, 1)] == [Row(id, 1, 1)];
  }

  lemma FailedRunCounts(id: string)
    ensures Processed(FailedRun(id), id) == Failed(FailedRun(id), id) == 1
  {
    var run := [Consume(Event(id, id, false))];
    assert [] + run == run && run[..0] == [];
    CountNext(run, Snap(id), id);
    run := run + [Snap(id)];
    CountNext(run, ReadErrors, id);
    run := run + [ReadErrors];
    CountNext(run, Publish, id);
  }

  lemma CountNext(actions: seq<Action>, a: Action, id: string)
    requires !a.Consume?
    ensures Processed(actions + [a], id) == Processed(actions, id) && Failed(actions + [a], id) == Failed(actions, id)
  {
    assert (actions + [a])[..|actions|] == actions;
  }

  /** So every attempt of a run can fail, and the published rate is one half. */
  lemma TotalFailureIsHalved(id: string)
    ensures After(FailedRun(id)).published == [Row(id, 1, 1)]
    ensures Processed(FailedRun(id), id) == Failed(FailedRun(id), id) == 1
    ensures ErrorRate(After(FailedRun(id)).published[0]) == 0.5
  {
    FailedRunPublishes(id);
    FailedRunCounts(id);
  }
}
