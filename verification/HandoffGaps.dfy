/**
 * What goes wrong when a step of the handoff protocol is not clean. Each run below starts from an
 * empty table and has one kind of unclean step; it catches up with the log all the same, and the
 * sink is not the source's table. After a reset or a confirmed position that lost rows nothing
 * brings them back; after a failed flush a retry does, if the dead-letter queue has stored the last
 * change of the row and the retry does not come too late.
 */
module HandoffGaps {
  import opened Wrappers
  import opened Pipeline
  import opened Replay
  import opened Handoff
  import opened HandoffRuns
  import opened HandoffCourse
  import opened HandoffFailures

  const A := ChangeEvent(10, Insert, "a", "1")
  const B := ChangeEvent(20, Insert, "b", "2")
  const C := ChangeEvent(30, Update, "a", "3")

  /** One row is inserted, and then another event is committed. */
  function Two(second: ChangeEvent): Source {
    Source(map[], [Entry(A, None, 15), Entry(second, None, second.lsn + 5)])
  }

  const BOTH := Two(B)

  /** The dead-letter queue is empty; events of PostgreSQL carry no binlog position. */
  const NO_ITEMS := LiveItems(false, {})

  /** The table is empty when the slot is created, so there is nothing to read in chunks. */
  const PLAN := Plan(0, (k: Key) => None)
  const START := Job(Source(map[], []), 0, 5, Snapshotting, map[], {}, 0, 0, EMPTY, 0, 0)

  function Reader(src: Source, mode: Mode, pos: nat, b: Buffers, lo: nat): Job {
    Job(src, 0, 5, mode, map[], {}, pos, 0, b, lo, |src.log|)
  }

  function Offered(second: ChangeEvent, queue: seq<ChangeEvent>, hand: Option<ChangeEvent>, batch: seq<ChangeEvent>,
                   cleared: seq<ChangeEvent>): Buffers {
    Buffers(queue, hand, batch, map[], None, NO_EVENTS.(offered := [A, second], cleared := cleared))
  }

  /** Both events are in the channel. */
  lemma BothOffered(second: ChangeEvent, excuse: Excuse) returns (steps: seq<Step>)
    requires second.lsn >= 10
    ensures Initial(PLAN, START)
    ensures Leads(PLAN, START, steps,
                  Reader(Two(second), Reading, 2, Offered(second, [A, second], None, [], []), 0), excuse)
  {
    var done: Job;
    steps, done := [], START;
    steps, done := Go(steps, done, StartReading(0), excuse);
    steps, done := Go(steps, done, Write(Two(second).log[0]), excuse);
    steps, done := Go(steps, done, Write(Two(second).log[1]), excuse);
    assert done.src.log == Two(second).log;
    steps, done := Go(steps, done, OfferNext, excuse);
    steps, done := Go(steps, done, OfferNext, excuse);
    assert done.buffers.queue == [A, second] && done.buffers.ledger.offered == [A, second];
  }

  lemma Go(steps: seq<Step>, m: Job, step: Step, excuse: Excuse, start: Job := START) returns (all: seq<Step>, t: Job)
    requires Leads(PLAN, start, steps, m, excuse) && Enabled(PLAN, m, step) && (Clean(m, step) || Excused(excuse, step))
    ensures Leads(PLAN, start, all, t, excuse) && t == Next(PLAN, m, step)
  {
    Onward(PLAN, start, steps, m, step, excuse);
    all, t := steps + [step], Next(PLAN, m, step);
  }

  /** The processor takes the next event and puts it into the batch. */
  lemma TakeAndPut(before: seq<Step>, j: Job, excuse: Excuse, start: Job := START) returns (steps: seq<Step>, t: Job)
    requires Leads(PLAN, start, before, j, excuse) && j.mode.Reading?
    requires j.buffers.queue != [] && j.buffers.hand.None? && j.buffers.batch == []
    ensures Leads(PLAN, start, steps, t, excuse) && t == j.(buffers := t.buffers)
    ensures t.buffers == j.buffers.(queue := j.buffers.queue[1..], batch := [j.buffers.queue[0]])
  {
    hide Leads, Flush;
    steps, t := Go(before, j, TakeNext, excuse, start);
    steps, t := Go(steps, t, PutNext(Smoothly([j.buffers.queue[0]])), excuse, start);
  }

  /** A batch of one event is flushed. */
  lemma FlushOne(before: seq<Step>, j: Job, e: ChangeEvent, excuse: Excuse) returns (steps: seq<Step>, t: Job)
    requires Leads(PLAN, START, before, j, excuse) && j.buffers.batch == [e] && j.buffers.hand.None?
    ensures Leads(PLAN, START, steps, t, excuse) && t == j.(buffers := t.buffers, lo := t.lo)
    ensures t.buffers.batch == [] && t.buffers.queue == j.buffers.queue && t.buffers.hand.None?
    ensures t.buffers.docs == Apply(j.buffers.docs, e) && t.buffers.checkpoint == Some(e.lsn)
    ensures t.buffers.ledger.deadLettered == j.buffers.ledger.deadLettered
  {
    hide Leads, Apply;
    steps, t := FlushAll(before, j, excuse);
    AppliedOne(j.buffers.docs, e);
  }

  /** The batch is flushed. */
  lemma FlushAll(before: seq<Step>, j: Job, excuse: Excuse, start: Job := START) returns (steps: seq<Step>, t: Job)
    requires Leads(PLAN, start, before, j, excuse) && j.buffers.batch != [] && j.buffers.hand.None?
    ensures Leads(PLAN, start, steps, t, excuse) && t == j.(buffers := t.buffers, lo := t.lo)
    ensures t.buffers.batch == [] && t.buffers.queue == j.buffers.queue && t.buffers.hand.None?
    ensures t.buffers.docs == ApplyAll(j.buffers.docs, j.buffers.batch)
    ensures t.buffers.checkpoint == Some(j.buffers.batch[|j.buffers.batch| - 1].lsn)
    ensures t.buffers.ledger.deadLettered == j.buffers.ledger.deadLettered
  {
    hide Leads, Sifted, ApplyAll;
    PassedThrough(j.buffers.batch);
    steps, t := Go(before, j, Tick(Smoothly(j.buffers.batch)), excuse, start);
  }

  /** The two runs below come to this: A has been cleared, B is in the processor's hand, nothing is left in the channel. */
  const STRANDED := Reader(BOTH, Waiting, 2, Offered(B, [], Some(B), [], [A]), 0)

  /** The stream ends while the processor holds an event: resetting the buffers does not reach it. */
  lemma HeldThroughReset() returns (steps: seq<Step>)
    ensures Leads(PLAN, START, steps, STRANDED, Resets)
  {
    var j: Job;
    steps := BothOffered(B, Resets);
    j := Reader(BOTH, Reading, 2, Offered(B, [A, B], None, [], []), 0);
    hide Leads, Initial;
    steps, j := TakeAndPut(steps, j, Resets);
    steps, j := Go(steps, j, TakeNext, Resets);
    assert j.buffers == Offered(B, [], Some(B), [A], []);
    steps := ResetHolding(steps);
  }

  lemma ResetHolding(before: seq<Step>) returns (steps: seq<Step>)
    requires Leads(PLAN, START, before, Reader(BOTH, Reading, 2, Offered(B, [], Some(B), [A], []), 0), Resets)
    ensures Leads(PLAN, START, steps, STRANDED, Resets)
  {
    hide Leads;
    var j := Reader(BOTH, Reading, 2, Offered(B, [], Some(B), [A], []), 0);
    steps, j := Go(before, j, BreakOff, Resets);
    assert j.buffers == Offered(B, [], Some(B), [], [A]);
    steps, j := Go(steps, j, FoundEmpty, Resets);
  }

  /** The processor takes an event between the clearing of the batch and the emptying of the channel. */
  lemma TakenDuringReset() returns (steps: seq<Step>)
    ensures Leads(PLAN, START, steps, STRANDED, Takes)
  {
    var j: Job;
    steps := BothOffered(B, Takes);
    j := Reader(BOTH, Reading, 2, Offered(B, [A, B], None, [], []), 0);
    hide Leads, Initial;
    steps, j := Go(steps, j, BreakOff, Takes);
    steps, j := Go(steps, j, DropOne, Takes);
    steps, j := Go(steps, j, TakeNext, Takes);
    assert j.buffers == Offered(B, [], Some(B), [], [A]);
    steps, j := Go(steps, j, FoundEmpty, Takes);
  }

  /** The event in hand goes to the sink alone, and its LSN becomes the checkpoint. */
  lemma CheckpointJumps(before: seq<Step>, excuse: Excuse) returns (steps: seq<Step>, t: Job)
    requires Leads(PLAN, START, before, STRANDED, excuse)
    ensures Leads(PLAN, START, steps, t, excuse)
    ensures t == Reader(BOTH, Waiting, 2, t.buffers, t.lo)
    ensures t.buffers.queue == [] && t.buffers.hand.None? && t.buffers.batch == []
    ensures t.buffers.docs == map["b" := "2"] && t.buffers.checkpoint == Some(20)
  {
    hide Leads, Flush;
    steps, t := Go(before, STRANDED, PutNext(Smoothly([B])), excuse);
    steps, t := FlushOne(steps, t, B, excuse);
  }

  /** The stream resumes behind the row that was cleared, and the job catches up without it. */
  lemma CatchUpWithout(before: seq<Step>, j: Job, excuse: Excuse) returns (steps: seq<Step>, t: Job)
    requires Leads(PLAN, START, before, j, excuse) && j == Reader(BOTH, Waiting, 2, j.buffers, j.lo)
    requires j.buffers.queue == [] && j.buffers.hand.None? && j.buffers.batch == []
    requires j.buffers.docs == map["b" := "2"] && j.buffers.checkpoint == Some(20)
    ensures Leads(PLAN, START, steps, t, excuse) && t.src == BOTH && CaughtUp(t)
    ensures t.buffers.docs == map["b" := "2"]
  {
    hide Leads;
    steps, t := Go(before, j, StartReading(1), excuse);
    steps, t := Go(steps, t, OfferNext, excuse);
    assert t.buffers.queue == [B];
    steps, t := TakeAndPut(steps, t, excuse);
    steps, t := FlushOne(steps, t, B, excuse);
  }

  lemma BothRows()
    ensures TableAt(BOTH, 2) == map["a" := "1", "b" := "2"]
  {
    assert TableAt(BOTH, 1) == Commit(TableAt(BOTH, 0), Entry(A, None, 15)) == map["a" := "1"];
  }

  /**
   * A reset that overlaps with the processor loses a row for good: every flush goes through, the
   * stream resumes from the checkpoint, the job catches up, and the row is not in the sink.
   */
  lemma ResetLosesRow(excuse: Excuse) returns (steps: seq<Step>, t: Job)
    requires excuse == Resets || excuse == Takes
    ensures Initial(PLAN, START) && Leads(PLAN, START, steps, t, excuse) && CaughtUp(t)
    ensures "a" in TableAt(t.src, |t.src.log|) && "a" !in t.buffers.docs
  {
    hide Leads, CaughtUp;
    steps := BothOffered(B, excuse);
    if excuse == Resets {
      steps := HeldThroughReset();
    } else {
      steps := TakenDuringReset();
    }
    steps, t := CheckpointJumps(steps, excuse);
    steps, t := CatchUpWithout(steps, t, excuse);
    BothRows();
  }

  // ---------------------------------------------------------------- a reset that the processor overtakes

  const E := ChangeEvent(30, Insert, "c", "3")

  const THREE := Source(map[], [Entry(A, None, 15), Entry(B, None, 25), Entry(E, None, 35)])

  /** The processor holds the first of three events that are on their way. */
  const HELD := Reader(THREE, Reading, 3, Buffers([B, E], Some(A), [], map[], None, NO_EVENTS.(offered := [A, B, E])), 0)

  lemma HeldCleanly() returns (steps: seq<Step>)
    ensures Initial(PLAN, START) && Leads(PLAN, START, steps, HELD, Nothing)
  {
    var t: Job;
    steps, t := [], START;
    steps, t := Go(steps, t, StartReading(0), Nothing);
    hide Leads, Initial;
    steps, t := Go(steps, t, Write(THREE.log[0]), Nothing);
    steps, t := Go(steps, t, Write(THREE.log[1]), Nothing);
    steps, t := Go(steps, t, Write(THREE.log[2]), Nothing);
    assert t.src == THREE;
    steps := ThreeOffered(steps, t);
  }

  lemma ThreeOffered(before: seq<Step>, j: Job) returns (steps: seq<Step>)
    requires Leads(PLAN, START, before, j, Nothing) && j == Reader(THREE, Reading, 0, EMPTY, 0).(far := j.far) && j.far <= 3
    ensures Leads(PLAN, START, steps, HELD, Nothing)
  {
    hide Leads;
    var t: Job;
    steps, t := Go(before, j, OfferNext, Nothing);
    steps, t := Go(steps, t, OfferNext, Nothing);
    steps, t := Go(steps, t, OfferNext, Nothing);
    assert t.buffers.queue == [A, B, E] && t.buffers.ledger.offered == [A, B, E];
    steps, t := Go(steps, t, TakeNext, Nothing);
    assert t == HELD;
  }

  /** As long as the processor takes nothing more, the stream may end here without a loss. */
  lemma HeldIsHarmless()
    ensures Arrives(PLAN, Next(PLAN, HELD, BreakOff))
  {
    var steps := HeldCleanly();
    InitiallyHolds(PLAN, START);
    RunKeeps(PLAN, START, steps, HELD);
    assert Precedes(HELD, ResumeLsn(HELD), Oldest(HELD));
    hide Inv, Arrives, Leads;
    HarmlessReset(PLAN, HELD, A);
  }

  /**
   * But it takes another event from the channel while the same reset drops the one in between: both
   * go to the sink together, with the later LSN as the checkpoint, and the row in between is lost.
   */
  lemma OvertakenResetLosesRow() returns (before: seq<Step>, steps: seq<Step>, t: Job)
    ensures Initial(PLAN, START) && Leads(PLAN, START, before, HELD, Nothing) && Arrives(PLAN, Next(PLAN, HELD, BreakOff))
    ensures Leads(PLAN, HELD, steps, t, Overlaps) && CaughtUp(t)
    ensures "b" in TableAt(t.src, |t.src.log|) && "b" !in t.buffers.docs
  {
    before := HeldCleanly();
    HeldIsHarmless();
    hide Leads, CaughtUp, Arrives, Initial;
    steps, t := Overtaken();
    steps, t := WithoutB(steps, t);
    ThreeRows();
  }

  /** One event in the batch and another in hand, with the one in between dropped. */
  lemma Overtaken() returns (steps: seq<Step>, t: Job)
    ensures Leads(PLAN, HELD, steps, t, Overlaps) && t == HELD.(mode := Waiting, buffers := t.buffers, lo := t.lo)
    ensures t.buffers == HELD.buffers.(queue := [], hand := None, batch := [A, E], ledger := t.buffers.ledger)
  {
    steps, t := FirstPut();
    hide Leads, Flush;
    steps, t := Go(steps, t, DropOne, Overlaps, HELD);
    steps, t := Go(steps, t, TakeNext, Overlaps, HELD);
    assert t.buffers.hand == Some(E) && t.buffers.queue == [];
    steps, t := Go(steps, t, FoundEmpty, Overlaps, HELD);
    steps, t := SecondPut(steps, t);
  }

  lemma FirstPut() returns (steps: seq<Step>, t: Job)
    ensures Leads(PLAN, HELD, steps, t, Overlaps) && t == HELD.(mode := Draining, buffers := t.buffers, lo := t.lo)
    ensures t.buffers == HELD.buffers.(hand := None, batch := [A], ledger := t.buffers.ledger)
  {
    steps, t := [], HELD;
    assert Leads(PLAN, HELD, steps, t, Overlaps);
    hide Leads, Flush;
    steps, t := Go(steps, t, BreakOff, Overlaps, HELD);
    steps, t := Go(steps, t, PutNext(Smoothly([A])), Overlaps, HELD);
    assert t.buffers.batch == [A];
  }

  lemma SecondPut(before: seq<Step>, j: Job) returns (steps: seq<Step>, t: Job)
    requires Leads(PLAN, HELD, before, j, Overlaps) && j.mode.Waiting? && j.buffers.batch == [A] && j.buffers.hand == Some(E)
    ensures Leads(PLAN, HELD, steps, t, Overlaps) && t == j.(buffers := t.buffers, lo := t.lo)
    ensures t.buffers == j.buffers.(hand := None, batch := [A, E])
  {
    hide Leads, Flush;
    steps, t := Go(before, j, PutNext(Smoothly([A, E])), Overlaps, HELD);
    assert t.buffers.batch == [A, E];
  }

  lemma WithoutB(before: seq<Step>, j: Job) returns (steps: seq<Step>, t: Job)
    requires Leads(PLAN, HELD, before, j, Overlaps) && j == HELD.(mode := Waiting, buffers := j.buffers, lo := j.lo)
    requires j.buffers == HELD.buffers.(queue := [], hand := None, batch := [A, E], ledger := j.buffers.ledger)
    ensures Leads(PLAN, HELD, steps, t, Overlaps) && CaughtUp(t) && t.src == THREE && "b" !in t.buffers.docs
  {
    hide Leads, ApplyAll;
    steps, t := FlushAll(before, j, Overlaps, HELD);
    steps, t := Go(steps, t, StartReading(2), Overlaps, HELD);
    steps, t := Go(steps, t, OfferNext, Overlaps, HELD);
    assert t.buffers.queue == [E];
    steps, t := TakeAndPut(steps, t, Overlaps, HELD);
    steps, t := FlushAll(steps, t, Overlaps, HELD);
    AppliedOne(ApplyAll(map[], [A, E]), E);
    BothApplied();
  }

  lemma BothApplied()
    ensures Apply(ApplyAll(map[], [A, E]), E) == map["a" := "1", "c" := "3"]
  {
    assert [A, E][..1] == [A];
    AppliedOne(map[], A);
  }

  lemma ThreeRows()
    ensures "b" in TableAt(THREE, 3)
  {
    assert TableAt(THREE, 2) == Commit(TableAt(THREE, 1), Entry(B, None, 25));
    assert TableAt(THREE, 3) == Commit(TableAt(THREE, 2), Entry(E, None, 35));
  }

  // ---------------------------------------------------------------- failed flushes

  /**
   * A batch that the sink refuses goes to the dead-letter queue and the job goes on: it catches
   * up, with a checkpoint beyond the row that is not in the sink.
   */
  lemma FailedFlushLeavesGap() returns (steps: seq<Step>, t: Job)
    ensures Initial(PLAN, START) && Leads(PLAN, START, steps, t, Failures) && CaughtUp(t)
    ensures "a" in TableAt(t.src, |t.src.log|) && "a" !in t.buffers.docs && t.buffers.checkpoint == Some(20)
    ensures Enabled(PLAN, t, Retry(A))
  {
    steps, t := SecondFlushed(B);
    BothRows();
  }

  /** The first flush fails, the second goes through, and the first event is in the dead-letter queue. */
  lemma SecondFlushed(second: ChangeEvent) returns (steps: seq<Step>, t: Job)
    requires second.lsn >= 10
    ensures Initial(PLAN, START) && Leads(PLAN, START, steps, t, Failures) && CaughtUp(t) && t.src == Two(second)
    ensures t.buffers.docs == Apply(map[], second) && t.buffers.checkpoint == Some(second.lsn)
    ensures t.buffers.ledger.deadLettered == [A]
  {
    steps, t := FirstFails(second);
    hide Leads, Apply, Initial;
    steps, t := TakeAndPut(steps, t, Failures);
    steps, t := FlushOne(steps, t, second, Failures);
  }

  lemma FirstFails(second: ChangeEvent) returns (steps: seq<Step>, t: Job)
    requires second.lsn >= 10
    ensures Initial(PLAN, START) && Leads(PLAN, START, steps, t, Failures)
    ensures t == Reader(Two(second), Reading, 2, t.buffers, 0) && t.buffers.docs == map[] && t.buffers.checkpoint.None?
    ensures t.buffers.queue == [second] && t.buffers.hand.None? && t.buffers.batch == []
    ensures t.buffers.ledger.deadLettered == [A]
  {
    steps := BothOffered(second, Failures);
    t := Reader(Two(second), Reading, 2, Offered(second, [A, second], None, [], []), 0);
    hide Leads, Initial;
    steps, t := TakeAndPut(steps, t, Failures);
    FiledAlone(A);
    hide Filed;
    steps, t := BatchFails(steps, t, []);
    assert t.buffers.ledger.deadLettered == [A];
  }

  /** The flush of a batch fails, having landed some of its events. */
  lemma BatchFails(before: seq<Step>, j: Job, landed: seq<ChangeEvent>) returns (steps: seq<Step>, t: Job)
    requires Leads(PLAN, START, before, j, Failures) && j.buffers.batch != [] && j.buffers.hand.None?
    ensures Leads(PLAN, START, steps, t, Failures) && t == j.(buffers := t.buffers)
    ensures t.buffers == j.buffers.(batch := [], docs := ApplyAll(j.buffers.docs, landed), ledger := t.buffers.ledger)
    ensures var batch, l, was := j.buffers.batch, t.buffers.ledger, j.buffers.ledger;
            && l.deadLettered == was.deadLettered + Filed(batch, PassThrough(batch), NO_ITEMS, true)
            && l.refused == was.refused + Filed(batch, PassThrough(batch), NO_ITEMS, false)
  {
    hide Leads, Filed, Flush, ApplyAll;
    var o := Outcome(PassThrough(j.buffers.batch), Failed(landed), Some(NO_ITEMS));
    FailedShape(j.buffers, o);
    steps, t := Go(before, j, Tick(o), Failures);
  }

  lemma FiledAlone(e: ChangeEvent)
    ensures Filed([e], PassThrough([e]), NO_ITEMS, true) == [e]
  {
    assert [e][..0] == [] && PassThrough([e])[..0] == [];
  }

  // ---------------------------------------------------------------- confirmed positions

  /**
   * Both events are received and their position is confirmed as flushed; the stream ends before
   * they reach the sink. The reset is clean, but the server resumes behind them.
   */
  lemma ConfirmLosesRows() returns (steps: seq<Step>, t: Job)
    ensures Initial(PLAN, START) && Leads(PLAN, START, steps, t, Confirms) && CaughtUp(t)
    ensures t.src == BOTH && t.buffers.docs == map[] && TableAt(t.src, |t.src.log|) == map["a" := "1", "b" := "2"]
  {
    steps := BothOffered(B, Confirms);
    t := Reader(BOTH, Reading, 2, Offered(B, [A, B], None, [], []), 0);
    hide Leads, Initial;
    steps, t := Go(steps, t, Confirm(30), Confirms);
    steps, t := BothDropped(steps, t);
    steps, t := Go(steps, t, StartReading(2), Confirms);
    BothRows();
  }

  lemma BothDropped(before: seq<Step>, j: Job) returns (steps: seq<Step>, t: Job)
    requires Leads(PLAN, START, before, j, Confirms) && j.mode.Reading?
    requires |j.buffers.queue| == 2 && j.buffers.batch == [] && j.buffers.hand.None?
    ensures Leads(PLAN, START, steps, t, Confirms) && t == j.(mode := Waiting, buffers := t.buffers)
    ensures t.buffers == j.buffers.(queue := [], ledger := t.buffers.ledger)
  {
    hide Leads;
    steps, t := Go(before, j, BreakOff, Confirms);
    steps, t := Go(steps, t, DropOne, Confirms);
    steps, t := Go(steps, t, DropOne, Confirms);
    assert t.buffers.queue == [];
    steps, t := Go(steps, t, FoundEmpty, Confirms);
  }

  // ---------------------------------------------------------------- retried rows

  /**
   * An insert fails and is retried after the row's update has gone through: the sink was at the
   * source's table before the retry and holds the row as it was inserted after it.
   */
  lemma LateRetryRevives() returns (steps: seq<Step>, m: Job, t: Job)
    ensures Initial(PLAN, START) && Leads(PLAN, START, steps, m, Failures) && CaughtUp(m)
    ensures m.buffers.docs == TableAt(m.src, |m.src.log|) == map["a" := "3"]
    ensures Leads(PLAN, START, steps + [Retry(A)], t, Failures) && CaughtUp(t) && t.src == m.src
    ensures t.buffers.docs == map["a" := "1"]
  {
    hide Leads, Initial, TableAt, Apply, CaughtUp, Two;
    RowUpdated();
    steps, m := SecondFlushed(C);
    t := Retried(steps, m, A);
  }

  lemma Retried(steps: seq<Step>, m: Job, e: ChangeEvent) returns (t: Job)
    requires Leads(PLAN, START, steps, m, Failures) && e in m.buffers.ledger.deadLettered && CaughtUp(m)
    ensures Leads(PLAN, START, steps + [Retry(e)], t, Failures) && CaughtUp(t) && t.src == m.src
    ensures t.buffers.docs == Apply(m.buffers.docs, e)
  {
    hide Leads, Apply;
    t := Next(PLAN, m, Retry(e));
    Onward(PLAN, START, steps, m, Retry(e), Failures);
  }

  lemma RowUpdated()
    ensures |Two(C).log| == 2 && TableAt(Two(C), 2) == Apply(map[], C) == map["a" := "3"]
    ensures Apply(map["a" := "3"], A) == map["a" := "1"]
  {
    assert TableAt(Two(C), 1) == Commit(TableAt(Two(C), 0), Entry(A, None, 15)) == map["a" := "1"];
  }

  // ---------------------------------------------------------------- retries that do not bring a row back

  /**
   * A batch with two changes of one row fails: the dead-letter queue stores the first of them
   * alone, so that the row is behind the source once it has been retried.
   */
  lemma OnlyFirstStored() returns (steps: seq<Step>, m: Job, t: Job)
    ensures Initial(PLAN, START) && Leads(PLAN, START, steps, m, Failures) && CaughtUp(m) && m.src == Two(C)
    ensures m.buffers.ledger.deadLettered == [A] && m.buffers.ledger.refused == [C]
    ensures Leads(PLAN, START, steps + [Retry(A)], t, Failures) && CaughtUp(t) && t.src == m.src
    ensures t.buffers.docs == map["a" := "1"] && TableAt(t.src, |t.src.log|) == map["a" := "3"]
  {
    steps := BothOffered(C, Failures);
    m := Reader(Two(C), Reading, 2, Offered(C, [A, C], None, [], []), 0);
    hide Leads, Initial, TableAt, Two;
    RowUpdated();
    steps, m := BothTaken(steps, m);
    FiledFirst();
    hide Filed;
    steps, m := BatchFails(steps, m, []);
    assert m.buffers.docs == map[] && m.buffers.ledger.deadLettered == [A] && m.buffers.ledger.refused == [C];
    assert CaughtUp(m);
    hide Apply, CaughtUp;
    t := Retried(steps, m, A);
  }

  lemma BothTaken(before: seq<Step>, j: Job) returns (steps: seq<Step>, t: Job)
    requires Leads(PLAN, START, before, j, Failures) && j.mode.Reading? && j.pos == 2
    requires j.buffers == Offered(C, [A, C], None, [], [])
    ensures Leads(PLAN, START, steps, t, Failures) && t == j.(buffers := Offered(C, [], None, [A, C], []))
  {
    hide Leads, Flush;
    steps, t := TakeAndPut(before, j, Failures);
    steps, t := Go(steps, t, TakeNext, Failures);
    steps, t := Go(steps, t, PutNext(Smoothly([A, C])), Failures);
    assert t.buffers.batch == [A, C] && t.buffers.queue == [];
  }

  lemma FiledFirst()
    ensures Filed([A, C], PassThrough([A, C]), NO_ITEMS, true) == [A] && Filed([A, C], PassThrough([A, C]), NO_ITEMS, false) == [C]
  {
    assert [A, C][..1] == [A] && [A][..0] == [] && PassThrough([A, C])[..1] == PassThrough([A]) && PassThrough([A])[..0] == [];
    assert LiveAfter(NO_ITEMS, PassThrough([A])) == LiveItems(false, {Identity("a", None)}) by {
      assert LiveAfter(NO_ITEMS, []) == NO_ITEMS;
    }
    assert PassThrough([])  == [];
    assert Filed([], [], NO_ITEMS, true) == [] && Filed([], [], NO_ITEMS, false) == [];
    assert Filed([A], PassThrough([A]), NO_ITEMS, true) == [A] && Filed([A], PassThrough([A]), NO_ITEMS, false) == [];
  }

  // ---------------------------------------------------------------- a failed flush and a restart

  const D := ChangeEvent(40, Insert, "b", "2")

  /** Everything is in the sink, with the checkpoint at the last event. */
  predicate Synchronized(j: Job) {
    && j == Reader(Source(map[], Two(C).log + [Entry(D, None, 45)]), j.mode, 3, j.buffers, j.lo).(far := j.far)
    && j.mode.Reading? && Pending(j.buffers) == [] && j.buffers.docs == map["a" := "3", "b" := "2"] && j.buffers.checkpoint == Some(40)
  }

  /**
   * The server resumes earlier than it was asked to, and the flush of a replayed batch fails after
   * it has landed: the row is put back. With the stream still open the replay would repair it, but
   * the stream ends, the server now resumes behind the row's update, and the job catches up with
   * the old row.
   */
  lemma FailedReplayRevives() returns (steps: seq<Step>, t: Job)
    ensures Initial(PLAN, START) && Leads(PLAN, START, steps, t, Failures) && CaughtUp(t)
    ensures Lookup(t.buffers.docs, "a") == Some("1") && ValueAt(t.src, |t.src.log|, "a") == Some("3")
  {
    var m: Job;
    hide Leads, Initial, Synchronized, Apply;
    steps, m := AllThrough();
    steps, t := ReplayFails(steps, m);
    steps, t := EndsAndResumes(steps, t, 2);
    steps, t := OneMore(steps, t);
    RowAtLast(m, t);
  }

  /** The reader offers the next event, the processor takes it, and it is flushed. */
  lemma OneMore(before: seq<Step>, j: Job) returns (steps: seq<Step>, t: Job)
    requires Leads(PLAN, START, before, j, Failures) && j.mode.Reading? && j.pos < |j.src.log| && Pending(j.buffers) == []
    ensures Leads(PLAN, START, steps, t, Failures) && t == j.(buffers := t.buffers, pos := j.pos + 1, far := t.far, lo := t.lo)
    ensures var e := j.src.log[j.pos].event;
            Pending(t.buffers) == [] && t.buffers.docs == Apply(j.buffers.docs, e) && t.buffers.checkpoint == Some(e.lsn)
  {
    hide Leads, Apply;
    steps, t := Taken(before, j);
    steps, t := FlushOne(steps, t, j.src.log[j.pos].event, Failures);
  }

  lemma Taken(before: seq<Step>, j: Job) returns (steps: seq<Step>, t: Job)
    requires Leads(PLAN, START, before, j, Failures) && j.mode.Reading? && j.pos < |j.src.log| && Pending(j.buffers) == []
    ensures Leads(PLAN, START, steps, t, Failures) && t == j.(buffers := t.buffers, pos := j.pos + 1, far := t.far)
    ensures t.buffers == j.buffers.(batch := [j.src.log[j.pos].event], ledger := t.buffers.ledger)
  {
    hide Leads;
    steps, t := Go(before, j, OfferNext, Failures);
    assert t.buffers.queue == [j.src.log[j.pos].event];
    steps, t := TakeAndPut(steps, t, Failures);
  }

  /** The stream ends with nothing on its way, and the server resumes at this index. */
  lemma EndsAndResumes(before: seq<Step>, j: Job, r: nat) returns (steps: seq<Step>, t: Job)
    requires Leads(PLAN, START, before, j, Failures) && j.mode.Reading? && Pending(j.buffers) == [] && Resumable(j, r)
    ensures Leads(PLAN, START, steps, t, Failures) && t == j.(buffers := t.buffers, pos := r, far := t.far)
    ensures t.buffers == j.buffers.(ledger := t.buffers.ledger)
  {
    hide Leads;
    steps, t := Go(before, j, BreakOff, Failures);
    steps, t := Go(steps, t, FoundEmpty, Failures);
    steps, t := Go(steps, t, StartReading(r), Failures);
  }

  lemma AllThrough() returns (steps: seq<Step>, t: Job)
    ensures Initial(PLAN, START) && Leads(PLAN, START, steps, t, Failures) && Synchronized(t)
  {
    steps, t := Opened();
    hide Leads, Initial, Apply;
    Insertions();
    assert Follows(t, Entry(A, None, 15));
    steps, t := WrittenAndRead(steps, t, A, 15);
    assert Follows(t, Entry(C, None, 35));
    steps, t := WrittenAndRead(steps, t, C, 35);
    assert Follows(t, Entry(D, None, 45));
    steps, t := WrittenAndRead(steps, t, D, 45);
    assert t.src.log == Two(C).log + [Entry(D, None, 45)];
  }

  lemma Opened() returns (steps: seq<Step>, t: Job)
    ensures Initial(PLAN, START) && Leads(PLAN, START, steps, t, Failures)
    ensures t == Reader(Source(map[], []), Reading, 0, EMPTY, 0)
  {
    steps, t := [], START;
    steps, t := Go(steps, t, StartReading(0), Failures);
  }

  lemma Insertions()
    ensures Apply(map[], A) == map["a" := "1"] && Apply(map["a" := "1"], C) == map["a" := "3"]
    ensures Apply(map["a" := "3"], D) == map["a" := "3", "b" := "2"]
  {
  }

  lemma WrittenAndRead(before: seq<Step>, j: Job, e: ChangeEvent, lsn: nat) returns (steps: seq<Step>, t: Job)
    requires Leads(PLAN, START, before, j, Failures) && j.mode.Reading? && j.pos == |j.src.log| && Pending(j.buffers) == []
    requires Follows(j, Entry(e, None, lsn))
    ensures Leads(PLAN, START, steps, t, Failures) && Pending(t.buffers) == []
    ensures t == j.(src := j.src.(log := j.src.log + [Entry(e, None, lsn)]), buffers := t.buffers, pos := j.pos + 1, far := t.far, lo := t.lo)
    ensures t.buffers.docs == Apply(j.buffers.docs, e) && t.buffers.checkpoint == Some(e.lsn)
  {
    hide Leads, Apply;
    steps, t := Go(before, j, Write(Entry(e, None, lsn)), Failures);
    steps, t := OneMore(steps, t);
  }

  /** The first event is replayed, lands, and fails. */
  lemma ReplayFails(before: seq<Step>, j: Job) returns (steps: seq<Step>, t: Job)
    requires Leads(PLAN, START, before, j, Failures) && Synchronized(j)
    ensures Leads(PLAN, START, steps, t, Failures) && t == j.(buffers := t.buffers, pos := 1, far := t.far)
    ensures Pending(t.buffers) == [] && t.buffers.docs == map["a" := "1", "b" := "2"] && t.buffers.checkpoint == Some(40)
    ensures t.mode.Reading? && |t.src.log| == 3 && Resumable(t, 2) && t.src.log[2].event == D
  {
    hide Leads, Apply;
    steps, t := EndsAndResumes(before, j, 0);
    assert j.src.log[0].event == A;
    steps, t := Taken(steps, t);
    steps, t := BatchFails(steps, t, [A]);
    AppliedOne(j.buffers.docs, A);
    InsertedAgain();
  }

  lemma InsertedAgain()
    ensures Apply(map["a" := "3", "b" := "2"], A) == map["a" := "1", "b" := "2"]
  {
  }

  lemma RowAtLast(m: Job, t: Job)
    requires Synchronized(m) && t.src == m.src && t.buffers.docs == Apply(map["a" := "1", "b" := "2"], D)
    ensures Lookup(t.buffers.docs, "a") == Some("1") && ValueAt(t.src, |t.src.log|, "a") == Some("3")
  {
    var s := t.src;
    assert TableAt(s, 1) == Commit(TableAt(s, 0), Entry(A, None, 15)) == map["a" := "1"];
    assert TableAt(s, 2) == Commit(TableAt(s, 1), Entry(C, None, 35)) == map["a" := "3"];
    assert TableAt(s, 3) == Commit(TableAt(s, 2), Entry(D, None, 45));
  }

  // ---------------------------------------------------------------- moved rows

  /** The rows that the events alone announce: what a sink comes to that starts from the base table. */
  function AnnouncedAt(src: Source, n: nat): Table
    requires n <= |src.log|
  {
    if n == 0 then src.base else Apply(AnnouncedAt(src, n - 1), src.log[n - 1].event)
  }

  /** The last entry that concerns this key is an UPDATE that gave its row another key. */
  predicate MovedAway(log: seq<Entry>, n: nat, k: Key)
    requires n <= |log|
  {
    n > 0 &&
    if log[n - 1].event.key == k && log[n - 1].event.op != Other then false
    else log[n - 1].movedFrom == Some(k) || MovedAway(log, n - 1, k)
  }

  predicate MovesRows(src: Source, n: nat)
    requires n <= |src.log|
  {
    forall i | 0 <= i < n && src.log[i].movedFrom.Some? :: ValueAt(src, i, src.log[i].movedFrom.value).Some?
  }

  /**
   * UPDATEs of a primary key: the sink agrees with the source on a key exactly when no such
   * UPDATE was the last to concern it; otherwise the sink keeps a row that the source has not.
   */
  lemma {:induction false} MovedRowsStayExactly(src: Source, n: nat, k: Key)
    requires n <= |src.log| && MovesRows(src, n)
    ensures Lookup(AnnouncedAt(src, n), k) == ValueAt(src, n, k) <==> !MovedAway(src.log, n, k)
    ensures MovedAway(src.log, n, k) ==> Lookup(AnnouncedAt(src, n), k).Some? && ValueAt(src, n, k).None?
  {
    if n > 0 {
      MovedRowsStayExactly(src, n - 1, k);
      var e, told, was := src.log[n - 1], AnnouncedAt(src, n - 1), TableAt(src, n - 1);
      var left := if e.movedFrom.Some? then was - {e.movedFrom.value} else was;
      assert e.movedFrom == Some(k) ==> ValueAt(src, n - 1, k).Some?;
      hide Apply, MovesRows;
      LookupApplied(told, e.event, k);
      LookupApplied(left, e.event, k);
      if k != e.event.key || e.event.op == Other {
        OtherChangesNothing(told, e.event, k);
        OtherChangesNothing(left, e.event, k);
      }
    }
  }
}
