/** Published rows on their way to the database: a bounded queue that drops from its old end when
    full, and a writer that gathers rows into batches. The producer and the writer take turns. */
module RowPipeline {

  const QUEUE_BOUND: nat := 10_000

  datatype DropPolicy = DropOldest | RefuseNewest

  /** `writing` while a batch is on its way into the database; `refused` counts rows turned away by
      the full-queue exception. */
  datatype Pipeline<T> = Pipeline(queue: seq<T>, batch: seq<T>, database: seq<T>, writing: bool, refused: nat)

  /** The producer puts a row; the writer takes one from a queue that is not empty, or gives up
      waiting, and learns whether its interval is over; the database has stored the batch. */
  datatype Move<T> = Put(row: T) | Get(due: bool) | GiveUp(due: bool) | Stored

  function Enqueue<T>(policy: DropPolicy, p: Pipeline<T>, row: T): Pipeline<T> {
    var queue := if |p.queue| >= QUEUE_BOUND && policy == DropOldest then p.queue[1..] else p.queue;
    if |queue| >= QUEUE_BOUND then p.(queue := queue, refused := p.refused + 1) else p.(queue := queue + [row])
  }

  /** Decide whether the batch goes out now. */
  function Decide<T>(batchSize: int, p: Pipeline<T>, due: bool): Pipeline<T> {
    p.(writing := p.batch != [] && (|p.batch| >= batchSize || due))
  }

  /** A move that cannot happen does not. */
  function Next<T>(policy: DropPolicy, batchSize: int, p: Pipeline<T>, m: Move<T>): Pipeline<T> {
    match m
    case Put(row) => Enqueue(policy, p, row)
    case Get(due) =>
      if p.writing || p.queue == [] then p
      else Decide(batchSize, p.(queue := p.queue[1..], batch := p.batch + [p.queue[0]]), due)
    case GiveUp(due) => if p.writing then p else Decide(batchSize, p, due)
    case Stored => if !p.writing then p else p.(batch := [], database := p.database + p.batch, writing := false)
  }

  function Emptied<T>(): Pipeline<T> {
    Pipeline([], [], [], false, 0)
  }

  function Flow<T>(policy: DropPolicy, batchSize: int, moves: seq<Move<T>>): Pipeline<T> {
    if moves == [] then Emptied()
    else Next(policy, batchSize, Flow(policy, batchSize, moves[..|moves| - 1]), moves[|moves| - 1])
  }

  function Produced<T>(moves: seq<Move<T>>): seq<T> {
    if moves == [] then []
    else
      Produced(moves[..|moves| - 1]) + match moves[|moves| - 1] case Put(row) => [row] case _ => []
  }

  /** The rows that are in the pipeline or have left it for the database, in order. */
  function Kept<T>(p: Pipeline<T>): seq<T> {
    p.database + p.batch + p.queue
  }

  predicate Increasing(ks: seq<nat>) {
    forall i, j :: 0 <= i < j < |ks| ==> ks[i] < ks[j]
  }

  /** The kept rows are the produced rows at the positions `kept`, in order. */
  predicate At<T(==)>(rows: seq<T>, produced: seq<T>, kept: seq<nat>) {
    && |kept| == |rows| && Increasing(kept)
    && forall i :: 0 <= i < |kept| ==> kept[i] < |produced| && produced[kept[i]] == rows[i]
  }

  /** Every position up to `n` is either kept or lost. */
  predicate Split(kept: seq<nat>, lost: seq<nat>, n: nat) {
    && Increasing(lost)
    && (forall i :: 0 <= i < |lost| ==> lost[i] < n)
    && (forall k: nat :: k < n ==> (k in kept <==> k !in lost))
  }

  /** `kept` ends in as many positions as the queue has rows, and these run up to `n`. */
  predicate EndsAt(kept: seq<nat>, q: nat, n: nat) {
    q <= |kept| && q <= n && forall j :: |kept| - q <= j < |kept| ==> kept[j] == n - |kept| + j
  }

  /** What holds at every moment of a pipeline that drops the oldest row. */
  predicate DropsOldest<T(==)>(p: Pipeline<T>, produced: seq<T>, kept: seq<nat>, lost: seq<nat>) {
    && At(Kept(p), produced, kept) && Split(kept, lost, |produced|) && EndsAt(kept, |p.queue|, |produced|)
    && |p.queue| <= QUEUE_BOUND && p.refused == 0
    && forall i :: 0 <= i < |lost| ==> lost[i] + QUEUE_BOUND < |produced|
  }

  lemma Removed(kept: seq<nat>, c: nat, k: nat)
    requires c < |kept| && Increasing(kept)
    ensures Increasing(kept[..c] + kept[c + 1..])
    ensures k in kept[..c] + kept[c + 1..] <==> k in kept && k != kept[c]
  {
    var r := kept[..c] + kept[c + 1..];
    if k in kept && k != kept[c] {
      var i :| 0 <= i < |kept| && kept[i] == k;
      assert r[if i < c then i else i - 1] == k;
    }
  }

  /** A row put where there is room. */
  lemma PutWithRoom<T>(p: Pipeline<T>, row: T, produced: seq<T>, kept: seq<nat>, lost: seq<nat>)
    requires At(Kept(p), produced, kept) && Split(kept, lost, |produced|) && EndsAt(kept, |p.queue|, |produced|)
    requires |p.queue| < QUEUE_BOUND && p.refused == 0
    requires forall i :: 0 <= i < |lost| ==> lost[i] + QUEUE_BOUND < |produced| + 1
    ensures DropsOldest(p.(queue := p.queue + [row]), produced + [row], kept + [|produced|], lost)
  {
    var p', kept' := p.(queue := p.queue + [row]), kept + [|produced|];
    assert Kept(p') == Kept(p) + [row];
    forall k: nat | k < |produced| + 1
      ensures k in kept' <==> k !in lost
    {
      assert k < |produced| ==> (k in kept <==> k !in lost);
      assert k == |produced| ==> kept'[|kept|] == k;
    }
  }

  /** The oldest row of a full queue leaves it. */
  lemma DropFirst<T>(p: Pipeline<T>, produced: seq<T>, kept: seq<nat>, c: nat)
    requires At(Kept(p), produced, kept) && EndsAt(kept, |p.queue|, |produced|) && p.queue != []
    requires c == |kept| - |p.queue|
    ensures var p', kept' := p.(queue := p.queue[1..]), kept[..c] + kept[c + 1..];
            At(Kept(p'), produced, kept') && EndsAt(kept', |p.queue| - 1, |produced|)
    ensures kept[c] == |produced| - |p.queue|
  {
    Removed(kept, c, 0);
    assert Kept(p.(queue := p.queue[1..])) == Kept(p)[..c] + Kept(p)[c + 1..];
  }

  lemma DropSplits(kept: seq<nat>, lost: seq<nat>, n: nat, c: nat)
    requires Increasing(kept) && Split(kept, lost, n) && c < |kept| && kept[c] < n
    requires forall i :: 0 <= i < |lost| ==> lost[i] < kept[c]
    ensures Split(kept[..c] + kept[c + 1..], lost + [kept[c]], n)
  {
    var kept', lost' := kept[..c] + kept[c + 1..], lost + [kept[c]];
    forall k: nat | k < n
      ensures k in kept' <==> k !in lost'
    {
      Removed(kept, c, k);
      assert k in lost' <==> k in lost || k == kept[c];
      assert k in kept <==> k !in lost;
    }
  }

  lemma PutKeeps<T>(p: Pipeline<T>, row: T, produced: seq<T>, kept: seq<nat>, lost: seq<nat>)
    returns (kept': seq<nat>, lost': seq<nat>)
    requires DropsOldest(p, produced, kept, lost)
    ensures DropsOldest(Enqueue(DropOldest, p, row), produced + [row], kept', lost')
    ensures |p.queue| <= QUEUE_BOUND && |p.queue| <= |produced|
    ensures lost' == if |p.queue| < QUEUE_BOUND then lost else lost + [|produced| - QUEUE_BOUND]
  {
    if |p.queue| < QUEUE_BOUND {
      PutWithRoom(p, row, produced, kept, lost);
      kept', lost' := kept + [|produced|], lost;
    } else {
      var c, dropped := |kept| - QUEUE_BOUND, p.(queue := p.queue[1..]);
      DropFirst(p, produced, kept, c);
      DropSplits(kept, lost, |produced|, c);
      kept', lost' := kept[..c] + kept[c + 1..], lost + [kept[c]];
      PutWithRoom(dropped, row, produced, kept', lost');
      kept' := kept' + [|produced|];
    }
  }

  /** The writer moves rows along and loses none. */
  lemma WriterKeeps<T>(policy: DropPolicy, batchSize: int, p: Pipeline<T>, m: Move<T>)
    requires !m.Put?
    ensures Kept(Next(policy, batchSize, p, m)) == Kept(p)
    ensures Next(policy, batchSize, p, m).refused == p.refused
    ensures var q := Next(policy, batchSize, p, m).queue; |q| <= |p.queue| && q == p.queue[|p.queue| - |q|..]
  {
    if m.Get? && !p.writing && p.queue != [] {
      assert [p.queue[0]] + p.queue[1..] == p.queue;
    }
  }

  /** The row at position `k` was dropped by the move at `w`: a row was put, the queue was full, and `k`
      was the oldest row in it. */
  ghost predicate DroppedAsOldest<T>(batchSize: int, moves: seq<Move<T>>, k: nat, w: nat) {
    && w < |moves| && moves[w].Put?
    && |Flow(DropOldest, batchSize, moves[..w]).queue| == QUEUE_BOUND
    && k + QUEUE_BOUND == |Produced(moves[..w])|
  }

  /** `whens` says by which move each lost row was dropped. */
  ghost predicate AllDroppedAsOldest<T>(batchSize: int, moves: seq<Move<T>>, lost: seq<nat>, whens: seq<nat>) {
    |whens| == |lost| && forall i :: 0 <= i < |lost| ==> DroppedAsOldest(batchSize, moves, lost[i], whens[i])
  }

  lemma DroppedStays<T>(batchSize: int, prior: seq<Move<T>>, m: Move<T>, lost: seq<nat>, whens: seq<nat>)
    requires AllDroppedAsOldest(batchSize, prior, lost, whens)
    ensures AllDroppedAsOldest(batchSize, prior + [m], lost, whens)
  {
    forall i | 0 <= i < |lost|
      ensures DroppedAsOldest(batchSize, prior + [m], lost[i], whens[i])
    {
      assert DroppedAsOldest(batchSize, prior, lost[i], whens[i]);
      assert (prior + [m])[..whens[i]] == prior[..whens[i]];
    }
  }

  lemma DroppedNow<T>(batchSize: int, prior: seq<Move<T>>, m: Move<T>, lost: seq<nat>, whens: seq<nat>, k: nat)
    requires AllDroppedAsOldest(batchSize, prior + [m], lost, whens) && m.Put?
    requires |Flow(DropOldest, batchSize, prior).queue| == QUEUE_BOUND && k + QUEUE_BOUND == |Produced(prior)|
    ensures AllDroppedAsOldest(batchSize, prior + [m], lost + [k], whens + [|prior|])
  {
    assert (prior + [m])[..|prior|] == prior;
  }

  /** Under every interleaving: the rows that reached the database, the batch and the queue are the
      produced rows in order, none twice; the queue is the newest of them; every other row was
      dropped by a put that found the queue full with this row as its oldest, so that the newest rows
      are never among the dropped; and the full-queue exception never happens. */
  lemma {:induction false} OldestAreDropped<T>(batchSize: int, moves: seq<Move<T>>)
    returns (kept: seq<nat>, lost: seq<nat>, whens: seq<nat>)
    ensures DropsOldest(Flow(DropOldest, batchSize, moves), Produced(moves), kept, lost)
    ensures AllDroppedAsOldest(batchSize, moves, lost, whens)
  {
    if moves == [] {
      kept, lost, whens := [], [], [];
    } else {
      var prior, m := moves[..|moves| - 1], moves[|moves| - 1];
      var p, produced := Flow(DropOldest, batchSize, prior), Produced(prior);
      assert moves == prior + [m];
      kept, lost, whens := OldestAreDropped(batchSize, prior);
      DroppedStays(batchSize, prior, m, lost, whens);
      if m.Put? {
        if |p.queue| == QUEUE_BOUND {
          DroppedNow(batchSize, prior, m, lost, whens, |produced| - QUEUE_BOUND);
          whens := whens + [|prior|];
        }
        kept, lost := PutKeeps(p, m.row, produced, kept, lost);
      } else {
        WriterKeeps(DropOldest, batchSize, p, m);
      }
    }
  }

  /** The queue is the newest produced rows. */
  lemma QueueIsNewest<T>(batchSize: int, moves: seq<Move<T>>)
    ensures var q, produced := Flow(DropOldest, batchSize, moves).queue, Produced(moves);
            |q| <= |produced| && |q| <= QUEUE_BOUND && q == produced[|produced| - |q|..]
  {
    var kept, lost, whens := OldestAreDropped(batchSize, moves);
    var p, produced := Flow(DropOldest, batchSize, moves), Produced(moves);
    var from := |kept| - |p.queue|;
    forall i | 0 <= i < |p.queue|
      ensures p.queue[i] == produced[|produced| - |p.queue| + i]
    {
      assert Kept(p)[from + i] == p.queue[i];
    }
  }

  /** Under either policy every row is kept, refused, or dropped as oldest; without the dropping
      policy the refused ones make up the difference. */
  lemma {:induction false} RefusedAreCounted<T>(batchSize: int, moves: seq<Move<T>>)
    ensures var p := Flow(RefuseNewest, batchSize, moves);
            |Kept(p)| + p.refused == |Produced(moves)| && |p.queue| <= QUEUE_BOUND
  {
    if moves != [] {
      var prior, m := moves[..|moves| - 1], moves[|moves| - 1];
      RefusedAreCounted(batchSize, prior);
      if !m.Put? {
        WriterKeeps(RefuseNewest, batchSize, Flow(RefuseNewest, batchSize, prior), m);
      }
    }
  }

  /** The row at position `k` was refused by the move at `w`: it was put, and the queue was full. */
  ghost predicate RefusedWhenFull<T>(batchSize: int, moves: seq<Move<T>>, k: nat, w: nat) {
    && w < |moves| && moves[w].Put?
    && |Flow(RefuseNewest, batchSize, moves[..w]).queue| == QUEUE_BOUND && k == |Produced(moves[..w])|
  }

  ghost predicate AllRefusedWhenFull<T>(batchSize: int, moves: seq<Move<T>>, lost: seq<nat>, whens: seq<nat>) {
    |whens| == |lost| && forall i :: 0 <= i < |lost| ==> RefusedWhenFull(batchSize, moves, lost[i], whens[i])
  }

  lemma RefusedStays<T>(batchSize: int, prior: seq<Move<T>>, m: Move<T>, lost: seq<nat>, whens: seq<nat>)
    requires AllRefusedWhenFull(batchSize, prior, lost, whens)
    ensures AllRefusedWhenFull(batchSize, prior + [m], lost, whens)
  {
    forall i | 0 <= i < |lost|
      ensures RefusedWhenFull(batchSize, prior + [m], lost[i], whens[i])
    {
      assert RefusedWhenFull(batchSize, prior, lost[i], whens[i]);
      assert (prior + [m])[..whens[i]] == prior[..whens[i]];
    }
  }

  lemma RefusedNow<T>(batchSize: int, prior: seq<Move<T>>, m: Move<T>, lost: seq<nat>, whens: seq<nat>, k: nat)
    requires AllRefusedWhenFull(batchSize, prior + [m], lost, whens) && m.Put?
    requires |Flow(RefuseNewest, batchSize, prior).queue| == QUEUE_BOUND && k == |Produced(prior)|
    ensures AllRefusedWhenFull(batchSize, prior + [m], lost + [k], whens + [|prior|])
  {
    assert (prior + [m])[..|prior|] == prior;
  }

  lemma KeptNext<T>(rows: seq<T>, row: T, produced: seq<T>, kept: seq<nat>, lost: seq<nat>)
    requires At(rows, produced, kept) && Split(kept, lost, |produced|)
    ensures At(rows + [row], produced + [row], kept + [|produced|])
    ensures Split(kept + [|produced|], lost, |produced| + 1)
  {
    forall k: nat | k < |produced| + 1
      ensures k in kept + [|produced|] <==> k !in lost
    {
      assert k < |produced| ==> (k in kept <==> k !in lost);
      assert k == |produced| ==> (kept + [|produced|])[|kept|] == k;
    }
  }

  lemma LostNext<T>(rows: seq<T>, row: T, produced: seq<T>, kept: seq<nat>, lost: seq<nat>)
    requires At(rows, produced, kept) && Split(kept, lost, |produced|)
    ensures At(rows, produced + [row], kept) && Split(kept, lost + [|produced|], |produced| + 1)
  {
    forall k: nat | k < |produced| + 1
      ensures k in kept <==> k !in lost + [|produced|]
    {
      assert k < |produced| ==> (k in kept <==> k !in lost);
      assert k == |produced| ==> (lost + [|produced|])[|lost|] == k;
    }
  }

  /** Under the other policy: the rows in database, batch and queue are the produced rows in order, none
      twice, but for those put while the queue was full, and these are the rows counted as refused. */
  lemma {:induction false} NewestAreRefused<T>(batchSize: int, moves: seq<Move<T>>)
    returns (kept: seq<nat>, lost: seq<nat>, whens: seq<nat>)
    ensures var p, produced := Flow(RefuseNewest, batchSize, moves), Produced(moves);
            At(Kept(p), produced, kept) && Split(kept, lost, |produced|) && |lost| == p.refused
    ensures AllRefusedWhenFull(batchSize, moves, lost, whens)
  {
    if moves == [] {
      kept, lost, whens := [], [], [];
    } else {
      var prior, m := moves[..|moves| - 1], moves[|moves| - 1];
      var p, produced := Flow(RefuseNewest, batchSize, prior), Produced(prior);
      assert moves == prior + [m];
      kept, lost, whens := NewestAreRefused(batchSize, prior);
      RefusedStays(batchSize, prior, m, lost, whens);
      if !m.Put? {
        WriterKeeps(RefuseNewest, batchSize, p, m);
      } else if |p.queue| >= QUEUE_BOUND {
        RefusedAreCounted(batchSize, prior);
        RefusedNow(batchSize, prior, m, lost, whens, |produced|);
        LostNext(Kept(p), m.row, produced, kept, lost);
        lost, whens := lost + [|produced|], whens + [|prior|];
      } else {
        assert Kept(Enqueue(RefuseNewest, p, m.row)) == Kept(p) + [m.row];
        KeptNext(Kept(p), m.row, produced, kept, lost);
        kept := kept + [|produced|];
      }
    }
  }

  /** A batch never outgrows the batch size (a size below one lets one row through at a time), and
      is short of it unless it is being written. */
  lemma {:induction false} BatchesAreBounded<T>(policy: DropPolicy, batchSize: int, moves: seq<Move<T>>)
    ensures var p, size := Flow(policy, batchSize, moves), if batchSize > 1 then batchSize else 1;
            |p.batch| <= size && (!p.writing ==> |p.batch| < size) && (p.writing ==> p.batch != [])
  {
    if moves != [] {
      BatchesAreBounded(policy, batchSize, moves[..|moves| - 1]);
    }
  }

  /** A wait that brings no row sends the batch off exactly when it holds any and is full or due; then
      all of it reaches the database. */
  lemma WaitSendsOffIff<T>(policy: DropPolicy, batchSize: int, p: Pipeline<T>, due: bool)
    requires !p.writing
    ensures var waited := Next(policy, batchSize, p, GiveUp(due));
            Next(policy, batchSize, waited, Stored)
            == if p.batch != [] && (due || |p.batch| >= batchSize)
               then p.(batch := [], database := p.database + p.batch) else p
  {
  }

  /** A wait that brings a row adds it to the batch, and sends the batch off exactly when it is full or
      due; the database changes then and only then. */
  lemma GetSendsOffIff<T>(policy: DropPolicy, batchSize: int, p: Pipeline<T>, due: bool)
    requires !p.writing && p.queue != []
    ensures var waited := Next(policy, batchSize, p, Get(due));
            var stored := Next(policy, batchSize, waited, Stored);
            && waited.queue == p.queue[1..] && waited.batch == p.batch + [p.queue[0]] && waited.database == p.database
            && (waited.writing <==> due || |p.batch| + 1 >= batchSize)
            && (stored.database != p.database <==> due || |p.batch| + 1 >= batchSize)
            && stored == if due || |p.batch| + 1 >= batchSize
                         then p.(queue := p.queue[1..], batch := [], database := p.database + (p.batch + [p.queue[0]]))
                         else p.(queue := p.queue[1..], batch := p.batch + [p.queue[0]])
  {
    assert |p.database + (p.batch + [p.queue[0]])| > |p.database|;
  }

  /** No wait of the run finds its interval over. */
  predicate NeverDue<T>(moves: seq<Move<T>>) {
    forall i :: 0 <= i < |moves| ==> !(moves[i].Get? && moves[i].due) && !(moves[i].GiveUp? && moves[i].due)
  }

  /** Until then only full batches reach the database. */
  lemma {:induction false} OnlyFullBatches<T>(policy: DropPolicy, batchSize: nat, moves: seq<Move<T>>)
    returns (batches: nat)
    requires batchSize > 0 && NeverDue(moves)
    ensures var p := Flow(policy, batchSize, moves);
            |p.database| == batches * batchSize && (p.writing ==> |p.batch| == batchSize)
  {
    if moves == [] {
      batches := 0;
    } else {
      var prior, m := moves[..|moves| - 1], moves[|moves| - 1];
      var p := Flow(policy, batchSize, prior);
      batches := OnlyFullBatches(policy, batchSize, prior);
      BatchesAreBounded(policy, batchSize, moves);
      if m.Stored? && p.writing {
        assert (batches + 1) * batchSize == batches * batchSize + batchSize;
        batches := batches + 1;
      }
    }
  }

  /** The writer goes on with its interval over at every wait and no new rows coming in. */
  function Drained<T>(policy: DropPolicy, batchSize: int, p: Pipeline<T>): Pipeline<T>
    requires !p.writing
    decreases |p.queue|
  {
    if p.queue == [] then Next(policy, batchSize, Next(policy, batchSize, p, GiveUp(true)), Stored)
    else Drained(policy, batchSize, Next(policy, batchSize, Next(policy, batchSize, p, Get(true)), Stored))
  }

  /** Nothing stays behind: every row that was kept is then in the database, in order. */
  lemma {:induction false} NothingStaysBehind<T>(policy: DropPolicy, batchSize: int, p: Pipeline<T>)
    requires !p.writing
    ensures Drained(policy, batchSize, p) == Pipeline([], [], Kept(p), false, p.refused)
    decreases |p.queue|
  {
    if p.queue == [] {
      WaitSendsOffIff(policy, batchSize, p, true);
      assert Kept(p) == p.database + p.batch;
    } else {
      var q := p.(queue := p.queue[1..], batch := [], database := p.database + (p.batch + [p.queue[0]]));
      GetSendsOffIff(policy, batchSize, p, true);
      NothingStaysBehind(policy, batchSize, q);
      assert [p.queue[0]] + p.queue[1..] == p.queue;
      assert Kept(q) == Kept(p);
    }
  }
}
