/** The ingester in its own form: trackers, counters and a bounded queue updated in place by steps
    that run between awaits. Each step is proved to be one turn of IngesterRun on the ingester's value,
    so every run of these methods is a run that its theorems are about. */
module IngesterObject {
  import opened Windows
  import opened RowPipeline
  import opened IngesterRun

  /** The window counter of a latency tracker; its histograms are not part of this model. */
  class LatencyTracker {
    var eventCount: nat

    constructor ()
      ensures eventCount == 0
    {
      eventCount := 0;
    }

    method Record()
      modifies this
      ensures eventCount == old(eventCount) + 1
    {
      eventCount := eventCount + 1;
    }

    method ResetWindow()
      modifies this
      ensures eventCount == 0
    {
      eventCount := 0;
    }
  }

  class Ingester {
    const policy: DropPolicy
    const batchSize: int
    var trackers: map<string, LatencyTracker>
    var errorCounts: map<string, nat>
    var dbQueue: seq<Row>
    var dropped: nat
    /** What the flush task holds across its awaits, and the writer across its own. */
    var flush: Phase
    var batch: seq<Row>
    var writing: bool
    /** What has been published and stored so far. */
    ghost var published: seq<Row>
    ghost var database: seq<Row>

    /** Every submission has a tracker of its own. */
    ghost predicate Separate()
      reads this`trackers
    {
      forall a, b :: a in trackers && b in trackers && trackers[a] == trackers[b] ==> a == b
    }

    ghost predicate Wellformed()
      reads this`trackers, this`flush
    {
      Separate() && (flush.Idle? || flush.id in trackers)
    }

    ghost function Counts(): map<string, nat>
      reads this`trackers, trackers.Values
    {
      map id | id in trackers :: trackers[id].eventCount
    }

    ghost function View(): Window
      reads this, trackers.Values
    {
      Window(Counts(), errorCounts, flush, published)
    }

    ghost function Rows(): Pipeline<Row>
      reads this
    {
      Pipeline(dbQueue, batch, database, writing, dropped)
    }

    ghost function Whole(): Joint
      reads this, trackers.Values
    {
      Joint(View(), Rows())
    }

    /** The turn `t` has been taken since the value was `was`. */
    ghost predicate Took(was: Joint, t: Turn)
      reads this, trackers.Values
    {
      Whole() == Turned(policy, batchSize, was, t)
    }

    constructor (policy: DropPolicy, batchSize: int)
      ensures Wellformed() && Whole() == STARTED
      ensures this.policy == policy && this.batchSize == batchSize
    {
      this.policy, this.batchSize := policy, batchSize;
      trackers, errorCounts, dbQueue, dropped := map[], map[], [], 0;
      flush, batch, writing := Idle, [], false;
      published, database := [], [];
    }

    /** The tracker of a submission, made on first use. */
    method TrackerFor(submission: string) returns (t: LatencyTracker)
      requires Wellformed()
      modifies this`trackers
      ensures Wellformed() && submission in trackers && t == trackers[submission]
      ensures submission in old(trackers) ==> trackers == old(trackers)
      ensures submission !in old(trackers) ==>
                trackers == old(trackers)[submission := t] && fresh(t) && t.eventCount == 0
      ensures Counts() == old(Counts())[submission := Count(old(Counts()), submission)]
    {
      if submission !in trackers {
        var made := new LatencyTracker();
        assert forall a :: a in trackers ==> trackers[a] != made;
        trackers := trackers[submission := made];
      }
      t := trackers[submission];
    }

    /** The event counts for its tracker and for no other. */
    method RecordIn(submission: string, ghost before: map<string, nat>)
      requires Wellformed() && submission in trackers && Counts() == before[submission := Count(before, submission)]
      modifies trackers[submission]
      ensures Counts() == Bumped(before, submission)
    {
      trackers[submission].Record();
    }

    /** Consume one event. */
    method ProcessEvent(ev: Event)
      requires Wellformed()
      modifies this`trackers, this`errorCounts, trackers.Values
      ensures Wellformed() && Took(old(Whole()), Counters(Consume(ev)))
    {
      ghost var before := Counts();
      var _ := TrackerFor(ev.submission);
      if !ev.acked {
        errorCounts := errorCounts[ev.stream := (if ev.stream in errorCounts then errorCounts[ev.stream] else 0) + 1];
      }
      RecordIn(ev.submission, before);
    }

    /** The flush task turns to a submission; an empty window is passed over. */
    method TakeSnapshot(id: string)
      requires Wellformed() && flush.Idle? && id in trackers
      modifies this`flush
      ensures Wellformed() && Took(old(Whole()), Counters(Snap(id)))
    {
      var count := trackers[id].eventCount;
      if count != 0 {
        flush := Snapped(id, count);
      }
    }

    /** After its first await the flush task reads the error count. */
    method ReadErrorCount()
      requires Wellformed() && flush.Snapped?
      modifies this`flush
      ensures Wellformed() && Took(old(Whole()), Counters(ReadErrors))
    {
      var id := flush.id;
      flush := Rated(id, flush.count, if id in errorCounts then errorCounts[id] else 0);
    }

    /** Put a row in the queue, dropping the oldest one if the policy says so and the queue is full;
        a queue that is still full raises, and the row is counted as dropped. */
    method PutRow(row: Row)
      modifies this`dbQueue, this`dropped
      ensures Rows() == Enqueue(policy, old(Rows()), row)
    {
      if |dbQueue| >= QUEUE_BOUND && policy == DropOldest {
        dbQueue := dbQueue[1..];
      }
      if |dbQueue| >= QUEUE_BOUND {
        dropped := dropped + 1;
      } else {
        dbQueue := dbQueue + [row];
      }
    }

    /** After its last await the flush task queues the row and resets the window. */
    method PublishRow()
      requires Wellformed() && flush.Rated?
      modifies this`dbQueue, this`dropped, this`errorCounts, this`flush, this`published, trackers.Values
      ensures Wellformed() && Took(old(Whole()), Counters(Publish))
    {
      var id := flush.id;
      var row := Row(id, flush.count, flush.errors);
      PutRow(row);
      trackers[id].ResetWindow();
      errorCounts := errorCounts[id := 0];
      flush, published := Idle, published + [row];
      assert Counts() == old(Counts())[id := 0];
    }

    /** The writer waits for a row and gets one, if the queue has any, or gives up; then it decides. */
    method AwaitRow(timedOut: bool, due: bool)
      requires Wellformed() && !writing && (!timedOut ==> dbQueue != [])
      modifies this`dbQueue, this`batch, this`writing
      ensures Wellformed() && Took(old(Whole()), Writer(if timedOut then GiveUp(due) else Get(due)))
    {
      if !timedOut {
        dbQueue, batch := dbQueue[1..], batch + [dbQueue[0]];
      }
      writing := batch != [] && (|batch| >= batchSize || due);
    }

    /** The database has stored the batch. */
    method BatchStored()
      requires Wellformed() && writing
      modifies this`batch, this`writing, this`database
      ensures Wellformed() && Took(old(Whole()), Writer(Stored))
    {
      database := database + batch;
      batch, writing := [], false;
    }
  }
}
