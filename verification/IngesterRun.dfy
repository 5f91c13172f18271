/** Whole runs of the ingester: the consumer, the flush task and the database writer taking turns. What
    the flush task publishes is what the pipeline is fed, so events can be followed to the database. */
module IngesterRun {
  import opened Windows
  import opened RowPipeline

  datatype Joint = Joint(window: Window, rows: Pipeline<Row>)

  /** A step of the consumer or the flush task, or one of the writer. */
  datatype Turn = Counters(action: Action) | Writer(move: Move<Row>)

  const STARTED := Joint(EMPTY, Emptied())

  /** The row that a step publishes. */
  function RowOf(p: Phase): Row
    requires p.Rated?
  {
    Row(p.id, p.count, p.errors)
  }

  predicate Publishes(w: Window, t: Turn) {
    t.Counters? && t.action.Publish? && w.phase.Rated?
  }

  function Turned(policy: DropPolicy, batchSize: int, j: Joint, t: Turn): Joint {
    match t
    case Counters(a) =>
      Joint(Step(j.window, a),
            if Publishes(j.window, t) then Enqueue(policy, j.rows, RowOf(j.window.phase)) else j.rows)
    case Writer(m) => if m.Put? then j else j.(rows := Next(policy, batchSize, j.rows, m))
  }

  function Course(policy: DropPolicy, batchSize: int, turns: seq<Turn>): Joint {
    if turns == [] then STARTED
    else Turned(policy, batchSize, Course(policy, batchSize, turns[..|turns| - 1]), turns[|turns| - 1])
  }

  // ----- The two halves of a run -----

  function Actions(turns: seq<Turn>): seq<Action> {
    if turns == [] then []
    else
      var prior, t := Actions(turns[..|turns| - 1]), turns[|turns| - 1];
      if t.Counters? then prior + [t.action] else prior
  }

  /** What the pipeline sees of a turn. */
  function MovesOf(w: Window, t: Turn): seq<Move<Row>> {
    if Publishes(w, t) then [Put(RowOf(w.phase))]
    else if t.Writer? && !t.move.Put? then [t.move]
    else []
  }

  function Moves(turns: seq<Turn>): seq<Move<Row>> {
    if turns == [] then []
    else
      var prior := turns[..|turns| - 1];
      Moves(prior) + MovesOf(After(Actions(prior)), turns[|turns| - 1])
  }

  lemma AfterOne(actions: seq<Action>, a: Action)
    ensures After(actions + [a]) == Step(After(actions), a)
  {
    assert (actions + [a])[..|actions|] == actions;
  }

  lemma FlowOne(policy: DropPolicy, batchSize: int, moves: seq<Move<Row>>, m: Move<Row>)
    ensures Flow(policy, batchSize, moves + [m]) == Next(policy, batchSize, Flow(policy, batchSize, moves), m)
    ensures Produced(moves + [m]) == if m.Put? then Produced(moves) + [m.row] else Produced(moves)
  {
    assert (moves + [m])[..|moves|] == moves;
    assert Produced(moves) + [] == Produced(moves);
  }

  /** What the counters see of a turn. */
  function StepOf(w: Window, t: Turn): Window {
    if t.Counters? then Step(w, t.action) else w
  }

  lemma HalvesNext(prior: seq<Turn>, t: Turn)
    ensures After(Actions(prior + [t])) == StepOf(After(Actions(prior)), t)
    ensures Moves(prior + [t]) == Moves(prior) + MovesOf(After(Actions(prior)), t)
  {
    assert (prior + [t])[..|prior|] == prior;
    if t.Counters? {
      AfterOne(Actions(prior), t.action);
    }
  }

  lemma FlowNext(policy: DropPolicy, batchSize: int, w: Window, moves: seq<Move<Row>>, t: Turn)
    ensures Flow(policy, batchSize, moves + MovesOf(w, t))
         == Turned(policy, batchSize, Joint(w, Flow(policy, batchSize, moves)), t).rows
  {
    if MovesOf(w, t) == [] {
      assert moves + [] == moves;
    } else {
      FlowOne(policy, batchSize, moves, MovesOf(w, t)[0]);
    }
  }

  lemma ProducedNext(w: Window, moves: seq<Move<Row>>, t: Turn)
    ensures Produced(moves + MovesOf(w, t))
         == Produced(moves) + if Publishes(w, t) then [RowOf(w.phase)] else []
  {
    if MovesOf(w, t) == [] {
      assert moves + [] == moves;
    } else {
      FlowOne(DropOldest, 1, moves, MovesOf(w, t)[0]);
    }
  }

  lemma PublishedNext(w: Window, t: Turn)
    ensures StepOf(w, t).published == w.published + if Publishes(w, t) then [RowOf(w.phase)] else []
  {
  }

  /** A run is a run of the counters and a run of the pipeline, joined by the published rows: those, and
      no others, are put into the queue, in that order. */
  lemma {:induction false} RunsAreJoined(policy: DropPolicy, batchSize: int, turns: seq<Turn>)
    ensures Course(policy, batchSize, turns)
         == Joint(After(Actions(turns)), Flow(policy, batchSize, Moves(turns)))
    ensures Produced(Moves(turns)) == After(Actions(turns)).published
  {
    if turns != [] {
      var prior, t := turns[..|turns| - 1], turns[|turns| - 1];
      var w := After(Actions(prior));
      assert turns == prior + [t];
      RunsAreJoined(policy, batchSize, prior);
      HalvesNext(prior, t);
      FlowNext(policy, batchSize, w, Moves(prior), t);
      ProducedNext(w, Moves(prior), t);
      PublishedNext(w, t);
    }
  }

  // ----- Events on their way to the database -----

  /** The rows that never reach the database: the oldest of a full queue, or those it refuses. */
  function Lost(policy: DropPolicy, batchSize: int, moves: seq<Move<Row>>): seq<Row> {
    if moves == [] then []
    else
      var prior, m := moves[..|moves| - 1], moves[|moves| - 1];
      Lost(policy, batchSize, prior) + LostBy(policy, Flow(policy, batchSize, prior), m)
  }

  function LostBy(policy: DropPolicy, p: Pipeline<Row>, m: Move<Row>): seq<Row> {
    if !m.Put? || |p.queue| < QUEUE_BOUND then []
    else if policy == DropOldest then [p.queue[0]]
    else [m.row]
  }

  lemma {:induction false} CountsAdd(a: seq<Row>, b: seq<Row>, id: string)
    ensures CountOf(a + b, id) == CountOf(a, id) + CountOf(b, id)
    ensures ErrorsOf(a + b, id) == ErrorsOf(a, id) + ErrorsOf(b, id)
  {
    if b == [] {
      assert a + b == a;
    } else {
      var before, last := b[..|b| - 1], b[|b| - 1];
      CountsAdd(a, before, id);
      assert a + b == (a + before) + [last];
      RowsAppend(a + before, last, id);
    }
  }

  lemma QueueIsBounded(policy: DropPolicy, batchSize: int, moves: seq<Move<Row>>)
    ensures |Flow(policy, batchSize, moves).queue| <= QUEUE_BOUND
  {
    if policy == DropOldest {
      QueueIsNewest(batchSize, moves);
    } else {
      RefusedAreCounted(batchSize, moves);
    }
  }

  lemma MoveKeepsCounts(policy: DropPolicy, batchSize: int, p: Pipeline<Row>, m: Move<Row>, id: string)
    requires |p.queue| <= QUEUE_BOUND
    ensures CountOf(Kept(Next(policy, batchSize, p, m)), id) + CountOf(LostBy(policy, p, m), id)
         == CountOf(Kept(p), id) + if m.Put? && m.row.id == id then m.row.count else 0
    ensures ErrorsOf(Kept(Next(policy, batchSize, p, m)), id) + ErrorsOf(LostBy(policy, p, m), id)
         == ErrorsOf(Kept(p), id) + if m.Put? && m.row.id == id then m.row.errors else 0
  {
    if m.Put? {
      PutKeepsCounts(policy, p, m.row, id);
    } else {
      WriterKeeps(policy, batchSize, p, m);
    }
  }

  lemma OneRow(r: Row, id: string)
    ensures CountOf([r], id) == (if r.id == id then r.count else 0)
    ensures ErrorsOf([r], id) == (if r.id == id then r.errors else 0)
  {
    assert [] + [r] == [r];
    RowsAppend([], r, id);
  }

  lemma PutKeepsCounts(policy: DropPolicy, p: Pipeline<Row>, row: Row, id: string)
    requires |p.queue| <= QUEUE_BOUND
    ensures CountOf(Kept(Enqueue(policy, p, row)), id) + CountOf(LostBy(policy, p, Put(row)), id)
         == CountOf(Kept(p), id) + if row.id == id then row.count else 0
    ensures ErrorsOf(Kept(Enqueue(policy, p, row)), id) + ErrorsOf(LostBy(policy, p, Put(row)), id)
         == ErrorsOf(Kept(p), id) + if row.id == id then row.errors else 0
  {
    var front := p.database + p.batch;
    OneRow(row, id);
    if |p.queue| < QUEUE_BOUND {
      assert Kept(Enqueue(policy, p, row)) == Kept(p) + [row];
      CountsAdd(Kept(p), [row], id);
    } else if policy == DropOldest {
      assert Kept(Enqueue(policy, p, row)) == front + (p.queue[1..] + [row]);
      DropKeepsCounts(front, p.queue, row, id);
    }
  }

  lemma DropKeepsCounts(front: seq<Row>, queue: seq<Row>, row: Row, id: string)
    requires queue != []
    ensures CountOf(front + (queue[1..] + [row]), id) + CountOf([queue[0]], id)
         == CountOf(front + queue, id) + if row.id == id then row.count else 0
    ensures ErrorsOf(front + (queue[1..] + [row]), id) + ErrorsOf([queue[0]], id)
         == ErrorsOf(front + queue, id) + if row.id == id then row.errors else 0
  {
    assert queue == [queue[0]] + queue[1..];
    OneRow(row, id);
    CountsAdd(front, queue, id);
    CountsAdd([queue[0]], queue[1..], id);
    CountsAdd(front, queue[1..] + [row], id);
    CountsAdd(queue[1..], [row], id);
  }

  /** Under either policy the events counted in the rows put into the queue are in the pipeline, in the
      database or in lost rows. */
  lemma {:induction false} PutCountsAreKept(policy: DropPolicy, batchSize: int, moves: seq<Move<Row>>, id: string)
    ensures CountOf(Produced(moves), id)
         == CountOf(Kept(Flow(policy, batchSize, moves)), id) + CountOf(Lost(policy, batchSize, moves), id)
    ensures ErrorsOf(Produced(moves), id)
         == ErrorsOf(Kept(Flow(policy, batchSize, moves)), id) + ErrorsOf(Lost(policy, batchSize, moves), id)
  {
    if moves != [] {
      var prior, m := moves[..|moves| - 1], moves[|moves| - 1];
      var p := Flow(policy, batchSize, prior);
      PutCountsAreKept(policy, batchSize, prior, id);
      QueueIsBounded(policy, batchSize, prior);
      MoveKeepsCounts(policy, batchSize, p, m, id);
      CountsAdd(Lost(policy, batchSize, prior), LostBy(policy, p, m), id);
      if m.Put? {
        RowsAppend(Produced(prior), m.row, id);
      } else {
        assert Produced(prior) + [] == Produced(prior);
      }
    }
  }

  lemma KeptCounts(p: Pipeline<Row>, id: string)
    ensures CountOf(Kept(p), id) == CountOf(p.database, id) + CountOf(p.batch, id) + CountOf(p.queue, id)
    ensures ErrorsOf(Kept(p), id) == ErrorsOf(p.database, id) + ErrorsOf(p.batch, id) + ErrorsOf(p.queue, id)
  {
    CountsAdd(p.database + p.batch, p.queue, id);
    CountsAdd(p.database, p.batch, id);
  }

  /** Every event of a submission is accounted for, whatever the interleaving and the policy: it is
      counted in a row in the database, in the writer's batch or in the queue, in a row the queue has
      lost, fell between a snapshot and its reset, or is still owed a row. */
  lemma EventsReachDatabase(policy: DropPolicy, batchSize: int, turns: seq<Turn>, id: string)
    ensures var j, actions := Course(policy, batchSize, turns), Actions(turns);
            Processed(actions, id)
            == CountOf(j.rows.database, id) + CountOf(j.rows.batch, id) + CountOf(j.rows.queue, id)
               + CountOf(Lost(policy, batchSize, Moves(turns)), id) + Overlapped(actions, id) + Owed(j.window, id)
  {
    RunsAreJoined(policy, batchSize, turns);
    EventsAreAccounted(Actions(turns), id);
    PutCountsAreKept(policy, batchSize, Moves(turns), id);
    KeptCounts(Course(policy, batchSize, turns).rows, id);
  }

  /** The same for events without acknowledgement and the errors of rows. */
  lemma FailuresReachDatabase(policy: DropPolicy, batchSize: int, turns: seq<Turn>, id: string)
    ensures var j, actions := Course(policy, batchSize, turns), Actions(turns);
            Failed(actions, id)
            == ErrorsOf(j.rows.database, id) + ErrorsOf(j.rows.batch, id) + ErrorsOf(j.rows.queue, id)
               + ErrorsOf(Lost(policy, batchSize, Moves(turns)), id)
               + FailedLate(actions, id) + ErrorsOwed(j.window, id)
  {
    RunsAreJoined(policy, batchSize, turns);
    FailuresAreAccounted(Actions(turns), id);
    PutCountsAreKept(policy, batchSize, Moves(turns), id);
    KeptCounts(Course(policy, batchSize, turns).rows, id);
  }
}
