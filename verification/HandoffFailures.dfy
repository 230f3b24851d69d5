/**
 * The steps that the handoff protocol does not count on, judged exactly: resets that overlap with
 * the processor, positions confirmed too early, failed flushes, and dead-lettered events that are
 * retried. For each it is said when every clean run from there, with any number of restarts, still
 * ends at the source's table.
 */
module HandoffFailures {
  import opened Wrappers
  import opened Pipeline
  import opened Replay
  import opened Handoff
  import opened HandoffRuns
  import opened HandoffCourse
  import opened HandoffExact

  // ---------------------------------------------------------------- resets

  lemma StretchKnown(j: Job, a: int, events: seq<ChangeEvent>, i: nat)
    requires Ordered(j) && Stretch(j.src.log, a, events) && i < |events|
    ensures Known(j.src.log, events[i])
  {
    var log := j.src.log;
    assert events[i] == log[a + i].event && log[a + i].event.lsn <= log[a + i].commitLsn <= log[|log| - 1].commitLsn;
  }

  /**
   * A reset while the processor holds an event, of which it takes no more until the channel is
   * empty, loses nothing exactly when the rows recover both with that event from the furthest index
   * that the server may resume at once it is flushed, and without it from where the server resumes
   * now.
   */
  lemma ResettingExactly(plan: Plan, j: Job, e: ChangeEvent)
    requires Flowing(j) && j.buffers.hand == Some(e)
    ensures j.slot <= |j.src.log|
    ensures Arrives(plan, Next(plan, j, BreakOff)) <==>
            && Recovers(j.src, Apply(j.buffers.docs, e), ResumesAt(j, Max(ResumeLsn(j), e.lsn)))
            && Recovers(j.src, j.buffers.docs, ResumesAt(j, ResumeLsn(j)))
  {
    WithinLog(j);
    HandKnown(j, e);
    var t := Next(plan, j, BreakOff);
    hide Stretch, Pending, Ordered, KeysStay, Arrives, Recovers, Apply, Known, FirstFrom, ApplyAll;
    SameOrder(j, t);
    assert Carried(t.buffers) == [e] && Bound(t) == Max(ResumeLsn(j), e.lsn) && !MustFlush(t.buffers);
    hide Carried, MustFlush, Bound;
    ClosedExactly(plan, t);
    AppliedOne(j.buffers.docs, e);
  }

  lemma HandKnown(j: Job, e: ChangeEvent)
    requires Flowing(j) && j.buffers.hand == Some(e)
    ensures Known(j.src.log, e) && Ordered(j) && KeysStay(j.src.log)
  {
    var b := j.buffers;
    assert Pending(b)[|b.batch|] == e;
    hide Ordered, KeysStay, Pending, Known, Stretch;
    StretchKnown(j, Oldest(j), Pending(b), |b.batch|);
  }

  /** The stream has ended, and what is left in the channel has been read from the log. */
  predicate Ending(j: Job) {
    Closed(j) && AllKnown(j.src.log, j.buffers.queue)
  }

  /**
   * The processor takes one more event from the channel while it is being emptied, whatever it has
   * taken before: if it is the last, nothing is lost exactly when the rows recover with everything
   * that is left beside the channel from where the server may resume once it is flushed, and, unless
   * the processor has to flush it, without all of it from where the server resumes now.
   */
  lemma TakingExactly(plan: Plan, j: Job)
    requires Ending(j) && Enabled(plan, j, TakeNext)
    ensures j.slot <= |j.src.log|
    ensures var e, docs := j.buffers.queue[0], j.buffers.docs;
            Arrives(plan, Next(plan, j, TakeNext)) <==>
            && Recovers(j.src, ApplyAll(docs, j.buffers.batch + [e]), ResumesAt(j, Max(ResumeLsn(j), e.lsn)))
            && (|j.buffers.batch| + 1 < BATCH_SIZE ==> Recovers(j.src, docs, ResumesAt(j, ResumeLsn(j))))
  {
    var t, e := Next(plan, j, TakeNext), j.buffers.queue[0];
    ClosedSays(j);
    TakenInReset(plan, j);
    assert Carried(t.buffers) == j.buffers.batch + [e] && Bound(t) == Max(ResumeLsn(j), e.lsn);
    hide Closed, Recovers, Arrives, ApplyAll, Carried, Bound, FirstFrom;
    ClosedExactly(plan, t);
  }

  lemma TakenInReset(plan: Plan, j: Job)
    requires Ending(j) && Enabled(plan, j, TakeNext)
    ensures Ending(Next(plan, j, TakeNext))
  {
    var t, e := Next(plan, j, TakeNext), j.buffers.queue[0];
    assert e in j.buffers.queue;
    SameOrder(j, t);
    TakePending(j.buffers);
    forall x <- Carried(t.buffers) ensures Known(j.src.log, x) {
      assert x in Carried(j.buffers) || x == e;
    }
    hide Ordered, KeysStay, Known, Carried;
  }

  lemma BreakOffEnds(plan: Plan, j: Job)
    requires Flowing(j) && Enabled(plan, j, BreakOff)
    ensures Ending(Next(plan, j, BreakOff))
  {
    var t, pending := Next(plan, j, BreakOff), Pending(j.buffers);
    SameOrder(j, t);
    forall e | e in pending ensures Known(j.src.log, e) {
      var i :| 0 <= i < |pending| && pending[i] == e;
      hide Pending, KeysStay, Known, Stretch;
      StretchKnown(j, Oldest(j), pending, i);
    }
    forall e | e in Carried(t.buffers) || e in t.buffers.queue ensures e in pending {
    }
    hide Ordered, KeysStay, Known, Stretch;
  }

  /** As long as the stream is not opened again the job stays in this state, whatever the processor takes. */
  lemma EndingStep(plan: Plan, j: Job, step: Step)
    requires Ending(j) && Enabled(plan, j, step) && (Clean(j, step) || step.TakeNext?) && !step.StartReading?
    ensures Ending(Next(plan, j, step))
  {
    ClosedSays(j);
    var t := Next(plan, j, step);
    match step
    case Write(entry) =>
      WriteClosed(plan, j, entry);
      hide Closed, Carried;
    case TakeNext => TakenInReset(plan, j);
    case PutNext(o) =>
      assert t.buffers.queue == j.buffers.queue && t.src == j.src by {
        hide Closed, Sifted, Filed, Transformed, ApplyAll, Smooth;
      }
      hide Next, Known;
      ClosedPut(plan, j, o);
    case Tick(o) =>
      hide Next, Known;
      ClosedTick(plan, j, o);
    case DropOne =>
      hide Known, Carried;
      StillClosed(j, t);
    case FoundEmpty =>
      hide Known, Carried;
      StillClosed(j, t);
    case _ => hide Known;
  }

  lemma {:induction false} EndingRun(plan: Plan, j: Job, steps: seq<Step>, t: Job)
    requires Ending(j) && Leads(plan, j, steps, t, Overlaps) && forall i | 0 <= i < |steps| :: !steps[i].StartReading?
    ensures Ending(t)
    decreases |steps|
  {
    if steps != [] {
      EndingKinds(plan, j, steps[0]);
      hide Ending, Next, Enabled, Clean;
      EndingStep(plan, j, steps[0]);
      EndingRun(plan, Next(plan, j, steps[0]), steps[1..], t);
    }
  }

  lemma EndingKinds(plan: Plan, j: Job, step: Step)
    requires Ending(j) && Enabled(plan, j, step)
    ensures !step.BreakOff?
  {
    ClosedSays(j);
    hide Ending;
  }

  /**
   * The stream ends and a processor that overlaps with the reset takes, puts and flushes any events
   * while others are dropped: at every point until the stream is opened again, if it takes no more
   * from then on, nothing is lost exactly when the rows recover with everything left beside the
   * channel, and without it.
   */
  lemma OverlappingExactly(plan: Plan, j: Job, steps: seq<Step>, t: Job)
    requires Flowing(j) && Leads(plan, Next(plan, j, BreakOff), steps, t, Overlaps)
    requires forall i | 0 <= i < |steps| :: !steps[i].StartReading?
    ensures t.slot <= |t.src.log|
    ensures Arrives(plan, t) <==>
            && Recovers(t.src, ApplyAll(t.buffers.docs, Carried(t.buffers)), ResumesAt(t, Bound(t)))
            && (!MustFlush(t.buffers) ==> Recovers(t.src, t.buffers.docs, ResumesAt(t, ResumeLsn(t))))
  {
    hide Closed, Arrives, Recovers, ApplyAll, Carried, Bound, FirstFrom, Leads, Next;
    OverlapEnds(plan, j, steps, t);
    ClosedExactly(plan, t);
  }

  lemma OverlapEnds(plan: Plan, j: Job, steps: seq<Step>, t: Job)
    requires Flowing(j) && Leads(plan, Next(plan, j, BreakOff), steps, t, Overlaps)
    requires forall i | 0 <= i < |steps| :: !steps[i].StartReading?
    ensures Closed(t)
  {
    BreakOffEnds(plan, j);
    hide Flowing, Leads, Closed, Next;
    EndingRun(plan, Next(plan, j, BreakOff), steps, t);
  }

  lemma InvFlows(plan: Plan, j: Job)
    requires Inv(plan, j) && j.mode.Reading?
    ensures InTime(j) && KeysStay(j.src.log) && Oldest(j) <= j.lo
  {
    hide SinkHolds, Ordered, KeysStay, CheckpointSafe, Stretch, Pending, Precedes;
  }

  lemma InvRecovers(plan: Plan, j: Job, r: nat)
    requires Inv(plan, j) && !j.mode.Snapshotting? && r <= j.lo
    ensures r <= |j.src.log| && Recovers(j.src, j.buffers.docs, r)
  {
    hide Recovers, Ordered, InStep, CheckpointSafe, KeysStay;
    BetweenRecovers(j.src, j.buffers.docs, j.lo, j.far, r);
  }

  lemma InvResumes(plan: Plan, j: Job)
    requires Inv(plan, j)
    ensures j.slot <= |j.src.log| && ResumesAt(j, ResumeLsn(j)) <= j.lo
  {
    hide SinkHolds, Ordered, KeysStay, InStep, Precedes;
    ResumesBefore(j, ResumeLsn(j), j.lo);
  }

  /**
   * A reset with an event in hand but none in the batch does no harm if the server resumed where it
   * was asked to, as long as the processor takes no other event until the channel is empty.
   */
  lemma HarmlessReset(plan: Plan, j: Job, e: ChangeEvent)
    requires Inv(plan, j) && j.mode.Reading? && j.buffers.hand == Some(e) && j.buffers.batch == []
    requires Precedes(j, ResumeLsn(j), Oldest(j))
    ensures Arrives(plan, Next(plan, j, BreakOff))
  {
    InvFlows(plan, j);
    var a, docs := Oldest(j), j.buffers.docs;
    WithinLog(j);
    InHand(j, e);
    assert Max(ResumeLsn(j), e.lsn) <= j.src.log[a].commitLsn;
    hide Flowing, Recovers, KeysStay, Ordered, Arrives, Apply, Precedes, FirstFrom;
    ResumesBefore(j, ResumeLsn(j), a);
    ResumesByEvent(j, a);
    ResumesFurther(j, ResumeLsn(j), e.lsn);
    InvRecovers(plan, j, a);
    hide Inv, InTime;
    ResettingExactly(plan, j, e);
    RecoversSooner(j.src, docs, ResumesAt(j, ResumeLsn(j)), a);
    OneRecovers(j.src, docs, a);
    RecoversSooner(j.src, Apply(docs, e), ResumesAt(j, Max(ResumeLsn(j), e.lsn)), a + 1);
  }

  lemma InHand(j: Job, e: ChangeEvent)
    requires Flowing(j) && j.buffers.hand == Some(e) && j.buffers.batch == []
    ensures 0 <= Oldest(j) < |j.src.log| && e == j.src.log[Oldest(j)].event && Ordered(j) && e.lsn <= j.src.log[Oldest(j)].commitLsn
  {
    assert Pending(j.buffers)[0] == e;
    hide Pending, KeysStay;
  }

  lemma OneRecovers(src: Source, docs: Table, a: nat)
    requires KeysStay(src.log) && a < |src.log| && Recovers(src, docs, a)
    ensures Recovers(src, Apply(docs, src.log[a].event), a + 1)
  {
    hide Recovers, ApplyAll;
    RecoversAcross(src, docs, a, [src.log[a].event]);
    AppliedOne(docs, src.log[a].event);
  }

  // ---------------------------------------------------------------- confirmed positions

  /**
   * A position is confirmed: nothing is lost exactly when the rows recover from the oldest entry
   * on its way, from where the server now resumes if the stream ends, and, as long as the position
   * lies behind entries on their way, from there after each flush that may come first.
   */
  lemma ConfirmingExactly(plan: Plan, j: Job, position: nat)
    requires Flowing(j) && Enabled(plan, j, Confirm(position))
    ensures j.slot <= Oldest(j) <= |j.src.log|
    ensures var docs, confirmed := j.buffers.docs, ResumesAt(j, Max(j.confirmed, position));
            Arrives(plan, Next(plan, j, Confirm(position))) <==>
            && Recovers(j.src, docs, Oldest(j))
            && (!MustFlush(j.buffers) ==> Recovers(j.src, docs, ResumesAt(j, Max(ResumeLsn(j), position))))
            && forall n | Flushable(j, n) && n < confirmed :: Recovers(j.src, UpTo(j, n), confirmed)
  {
    var t := Next(plan, j, Confirm(position));
    WithinLog(j);
    assert Flowing(t) && Oldest(t) == Oldest(j) by {
      hide KeysStay, Stretch, Pending, Ordered;
      SameOrder(j, t);
    }
    OpenExactly(plan, t);
    hide Flowing, RecoversRow, Arrives, FirstFrom, Oldest, Enabled, MustFlush;
    assert ResumeLsn(t) == Max(ResumeLsn(j), position) && t.confirmed == Max(j.confirmed, position);
    ConfirmedRows(j, t);
  }

  lemma ConfirmedRows(j: Job, t: Job)
    requires Flowing(j) && Flowing(t) && t == j.(confirmed := t.confirmed) && Oldest(t) == Oldest(j)
    ensures j.slot <= Oldest(j) <= |j.src.log|
    ensures var docs, confirmed := j.buffers.docs, ResumesAt(j, t.confirmed);
            (forall k :: RowSteady(t.src, t, k)) <==>
            && Recovers(j.src, docs, Oldest(j))
            && (!MustFlush(j.buffers) ==> Recovers(j.src, docs, ResumesAt(j, ResumeLsn(t))))
            && forall n | Flushable(j, n) && n < confirmed :: Recovers(j.src, UpTo(j, n), confirmed)
  {
    WithinLog(j);
    hide Flowing, RecoversRow, FirstFrom, Oldest, MustFlush, ApplyAll, EventsFrom;
    var docs, confirmed := j.buffers.docs, ResumesAt(j, t.confirmed);
    assert forall n | Flushable(j, n) :: Flushable(t, n) && UpTo(t, n) == UpTo(j, n);
    if forall k :: RowSteady(t.src, t, k) {
      forall k ensures RecoversRow(j.src, docs, Oldest(j), k) {
        assert RowSteady(t.src, t, k);
      }
      if !MustFlush(j.buffers) {
        forall k ensures RecoversRow(j.src, docs, ResumesAt(j, ResumeLsn(t)), k) {
          assert RowSteady(t.src, t, k);
        }
      }
      forall n, k | Flushable(j, n) && n < confirmed ensures RecoversRow(j.src, UpTo(j, n), confirmed, k) {
        assert RowSteady(t.src, t, k);
        assert RecoversRow(j.src, UpTo(t, n), confirmed, k);
      }
    }
  }

  // ---------------------------------------------------------------- failed flushes

  /** The batch that a step flushes. */
  function FlushedBatch(b: Buffers, step: Step): seq<ChangeEvent> {
    if step.PutNext? && b.hand.Some? then b.batch + [b.hand.value] else b.batch
  }

  lemma FlushShapes(plan: Plan, j: Job, step: Step)
    requires Enabled(plan, j, step) && (step.Tick? || step.PutNext?)
    ensures var t := Next(plan, j, step);
            t == j.(buffers := t.buffers, lo := t.lo) && t.buffers.hand.None? && t.buffers.queue == j.buffers.queue
    ensures Pending(j.buffers) == FlushedBatch(j.buffers, step) + j.buffers.queue
  {
    hide Smooth, Sifted, Filed, ApplyAll, Transformed;
  }

  /** When only the front of what is on the way has left the buffers. */
  lemma FrontGone(j: Job, t: Job, front: seq<ChangeEvent>)
    requires InTime(j) && t == j.(buffers := t.buffers, lo := t.lo) && Pending(j.buffers) == front + Pending(t.buffers)
    ensures InTime(t) && Oldest(t) == Oldest(j) + |front|
  {
    StretchSplit(j.src.log, Oldest(j), front, Pending(t.buffers));
    SameOrder(j, t);
    hide Pending, Ordered, KeysStay, Stretch;
  }

  /**
   * A flush, whatever the transform service and the sink made of it: the job arrives exactly when
   * every row that the log leaves alone, from the end of the batch or from where the server resumes
   * if that is further, is in the sink as the source had it there.
   */
  lemma FlushingExactly(plan: Plan, j: Job, step: Step)
    requires InTime(j) && Enabled(plan, j, step) && (step.Tick? || step.PutNext?) && Next(plan, j, step).buffers.batch == []
    ensures |j.buffers.queue| <= j.pos <= |j.src.log| && j.slot <= |j.src.log|
    ensures var t := Next(plan, j, step);
            Arrives(plan, t) <==> Recovers(j.src, t.buffers.docs, Max(j.pos - |j.buffers.queue|, ResumesAt(j, ResumeLsn(t))))
  {
    hide InTime, Arrives, Recovers, FirstFrom, Flowing;
    FlushShapes(plan, j, step);
    var t := Next(plan, j, step);
    assert Pending(t.buffers) == j.buffers.queue;
    hide Enabled, Next, Pending;
    FrontGone(j, t, FlushedBatch(j.buffers, step));
    TimelyFlows(t);
    WithinLog(t);
    StreamingExactly(plan, t);
  }

  lemma TimelyFlows(j: Job)
    requires InTime(j)
    ensures Flowing(j) && j.pos <= |j.src.log| && KeysStay(j.src.log)
  {
  }

  /** A failed flush: the condition on what the sink held before and what the failed write has landed. */
  lemma FailingExactly(plan: Plan, j: Job, step: Step, o: Outcome)
    requires InTime(j) && Enabled(plan, j, step) && (step == Tick(o) || step == PutNext(o))
    requires step.PutNext? ==> |j.buffers.batch| + 1 >= BATCH_SIZE
    requires FlushedBatch(j.buffers, step) != [] && o.results == PassThrough(FlushedBatch(j.buffers, step)) && o.reply.Failed?
    ensures |j.buffers.queue| <= j.pos <= |j.src.log| && j.slot <= |j.src.log|
    ensures Next(plan, j, step).buffers.docs == ApplyAll(j.buffers.docs, o.reply.landed)
    ensures Arrives(plan, Next(plan, j, step)) <==>
            Recovers(j.src, ApplyAll(j.buffers.docs, o.reply.landed), Max(j.pos - |j.buffers.queue|, ResumesAt(j, ResumeLsn(j))))
  {
    FailedShape(if step.Tick? then j.buffers else Append(j.buffers), o);
    hide InTime, Arrives, Recovers, FirstFrom, ApplyAll;
    FlushingExactly(plan, j, step);
  }

  lemma FailedShape(b: Buffers, o: Outcome)
    requires b.batch != [] && o.results == PassThrough(b.batch) && o.reply.Failed?
    ensures var f := Flush(b, o);
            && f == b.(batch := [], docs := ApplyAll(b.docs, o.reply.landed), ledger := f.ledger)
            && (o.deadLetters.Some? ==>
                  && f.ledger.deadLettered == b.ledger.deadLettered + Filed(b.batch, o.results, o.deadLetters.value, true)
                  && f.ledger.refused == b.ledger.refused + Filed(b.batch, o.results, o.deadLetters.value, false))
  {
    PassedThrough(b.batch);
    hide Sifted, Filed, Transformed, ApplyAll;
  }

  // ---------------------------------------------------------------- retried events

  /**
   * A dead-lettered event is retried with the stream open: the job arrives exactly when the rows
   * recover with the event applied.
   */
  lemma RetryingExactly(plan: Plan, j: Job, e: ChangeEvent)
    requires InTime(j) && Enabled(plan, j, Retry(e))
    ensures Arrives(plan, Next(plan, j, Retry(e))) <==> Recovers(j.src, Apply(j.buffers.docs, e), Furthest(j))
  {
    var t := Next(plan, j, Retry(e));
    assert Pending(t.buffers) == Pending(j.buffers) && Pending(j.buffers) == [] + Pending(t.buffers);
    FrontGone(j, t, []);
    hide InTime, Flowing, Arrives, Recovers, Apply, Pending, FirstFrom;
    assert Furthest(t) == Furthest(j);
    StreamingExactly(plan, t);
  }

  /** The same with the stream closed, whatever is left over beside the channel. */
  lemma RetryingClosedExactly(plan: Plan, j: Job, e: ChangeEvent)
    requires Closed(j) && Enabled(plan, j, Retry(e))
    ensures j.slot <= |j.src.log|
    ensures Arrives(plan, Next(plan, j, Retry(e))) <==>
            && Recovers(j.src, ApplyAll(Apply(j.buffers.docs, e), Carried(j.buffers)), ResumesAt(j, Bound(j)))
            && (!MustFlush(j.buffers) ==> Recovers(j.src, Apply(j.buffers.docs, e), ResumesAt(j, ResumeLsn(j))))
  {
    var t := Next(plan, j, Retry(e));
    assert t == j.(buffers := j.buffers.(docs := Apply(j.buffers.docs, e)));
    assert Carried(t.buffers) == Carried(j.buffers);
    hide Arrives, Recovers, Apply, Carried, FirstFrom, ApplyAll, Closed, Enabled, Next;
    ClosedSays(j);
    StillClosed(j, t);
    ClosedExactly(plan, t);
  }

  /** The same with the stream opened again while events are left over from before. */
  lemma RetryingLadenExactly(plan: Plan, j: Job, n: nat, e: ChangeEvent)
    requires Laden(j, n) && Enabled(plan, j, Retry(e))
    ensures var t := Next(plan, j, Retry(e)); Laden(t, n) && (Arrives(plan, t) <==> forall k :: RowLaden(j.src, t, n, k))
  {
    var t := Next(plan, j, Retry(e));
    LadenSays(j, n);
    PastPending(j, n);
    PastPending(t, n);
    hide Arrives, Apply, FirstFrom, ApplyAll, Flowing, RowLaden, Pending, Known;
    SamePlace(Past(j, n), Past(t, n));
    LadenExactly(plan, t, n);
  }

  /** And a position that is confirmed then. */
  lemma ConfirmingLadenExactly(plan: Plan, j: Job, n: nat, position: nat)
    requires Laden(j, n) && Enabled(plan, j, Confirm(position))
    ensures var t := Next(plan, j, Confirm(position)); Laden(t, n) && (Arrives(plan, t) <==> forall k :: RowLaden(j.src, t, n, k))
  {
    var t := Next(plan, j, Confirm(position));
    hide Arrives, Laden, RowLaden;
    if position > j.confirmed {
      LadenConfirmed(j, t, n, position);
    }
    LadenExactly(plan, t, n);
  }

  /** From where the rows have to recover while no event is left over from before. */
  function RecoveryPoint(j: Job): (r: nat)
    requires if j.mode.Reading? then Flowing(j) else j.slot <= |j.src.log|
    ensures r <= |j.src.log|
  {
    if j.mode.Reading? then Furthest(j) else ResumesAt(j, ResumeLsn(j))
  }

  /** In a job that has lost nothing before, it is the retried row alone that decides. */
  lemma RetriedRowDecides(plan: Plan, j: Job, e: ChangeEvent)
    requires Inv(plan, j) && !j.mode.Snapshotting? && Enabled(plan, j, Retry(e))
    ensures if j.mode.Reading? then Flowing(j) else j.slot <= |j.src.log|
    ensures Arrives(plan, Next(plan, j, Retry(e))) <==>
            RecoversRow(j.src, Apply(j.buffers.docs, e), RecoveryPoint(j), e.key)
  {
    InvResumes(plan, j);
    var docs, after := j.buffers.docs, Apply(j.buffers.docs, e);
    if j.mode.Reading? {
      InvFlows(plan, j);
      TimelyFlows(j);
      hide Inv, Flowing, InTime, Arrives, Recovers, Apply, FirstFrom, Oldest, Enabled, Next;
      RetryingExactly(plan, j, e);
    } else {
      InvCloses(plan, j);
      hide Inv, Closed, Arrives, Recovers, Apply, FirstFrom, Enabled, Next;
      RetryingClosedExactly(plan, j, e);
      AppliedNone(after);
    }
    hide Arrives, Apply;
    var r := RecoveryPoint(j);
    assert r <= j.lo;
    InvRecovers(plan, j, r);
    hide RecoveryPoint;
    forall k | k != e.key ensures RecoversRow(j.src, after, r, k) {
      assert RecoversRow(j.src, docs, r, k);
      LookupApplied(docs, e, k);
    }
  }

  lemma InvCloses(plan: Plan, j: Job)
    requires Inv(plan, j) && !j.mode.Snapshotting? && !j.mode.Reading?
    ensures Closed(j) && Carried(j.buffers) == [] && Bound(j) == ResumeLsn(j)
  {
    hide SinkHolds, Ordered, KeysStay, CheckpointSafe, Stretch;
  }

  function Retries(events: seq<ChangeEvent>): (steps: seq<Step>)
    ensures |steps| == |events| && forall i | 0 <= i < |events| :: steps[i] == Retry(events[i])
  {
    seq(|events|, i requires 0 <= i < |events| => Retry(events[i]))
  }

  lemma {:induction false} RetriesApply(plan: Plan, j: Job, events: seq<ChangeEvent>, t: Job)
    requires Leads(plan, j, Retries(events), t, Failures)
    ensures t == j.(buffers := j.buffers.(docs := ApplyAll(j.buffers.docs, events)))
    decreases |events|
  {
    if events != [] {
      var e, steps := events[0], Retries(events);
      var m := Next(plan, j, Retry(e));
      assert steps[1..] == Retries(events[1..]) && steps[0] == Retry(e);
      hide Apply, Enabled, Clean;
      RetriesApply(plan, m, events[1..], t);
      AppliedOne(j.buffers.docs, e);
      AppliedInTwo(j.buffers.docs, [e], events[1..]);
      assert events == [e] + events[1..];
    }
  }

  predicate AllIn(some: seq<ChangeEvent>, events: seq<ChangeEvent>) {
    forall e <- some :: e in events
  }

  /** Dead-lettered events can be retried. */
  lemma {:induction false} RetriesLead(plan: Plan, j: Job, events: seq<ChangeEvent>) returns (t: Job)
    requires AllIn(events, j.buffers.ledger.deadLettered)
    ensures Leads(plan, j, Retries(events), t, Failures)
    decreases |events|
  {
    t := j;
    if events != [] {
      var m := Next(plan, j, Retry(events[0]));
      assert Retries(events)[1..] == Retries(events[1..]) && Retries(events)[0] == Retry(events[0]);
      t := RetriesLead(plan, m, events[1..]);
      hide Apply;
    }
  }

  predicate OnlyWrites(steps: seq<Step>) {
    forall i | 0 <= i < |steps| :: steps[i].Write?
  }

  /** What the source does meanwhile changes nothing in the condition of a row, seen from the end. */
  lemma {:induction false} WritesKeep(plan: Plan, j: Job, writes: seq<Step>, w: Job, k: Key)
    requires Flowing(j) && Leads(plan, j, writes, w, Nothing) && OnlyWrites(writes)
    ensures w == j.(src := w.src) && GrownTo(j.src, w.src) && Flowing(w) && (RowSteady(w.src, w, k) <==> RowSteady(w.src, j, k))
    decreases |writes|
  {
    hide Flowing, RowSteady, Enabled, Clean;
    if writes != [] {
      var m := Next(plan, j, writes[0]);
      RunGrows(plan, m, writes[1..], w, Nothing);
      SteadyWrite(plan, j, writes[0].entry, w.src, k);
      WritesKeep(plan, m, writes[1..], w, k);
    }
  }

  lemma StepKeepsDead(plan: Plan, j: Job, step: Step, events: seq<ChangeEvent>)
    requires Enabled(plan, j, step) && AllIn(events, j.buffers.ledger.deadLettered)
    ensures AllIn(events, Next(plan, j, step).buffers.ledger.deadLettered)
  {
    hide Sifted, Filed, Transformed, ApplyAll, Fits, Smooth;
  }

  lemma {:induction false} RunKeepsDead(plan: Plan, j: Job, steps: seq<Step>, t: Job, events: seq<ChangeEvent>, excuse: Excuse)
    requires Leads(plan, j, steps, t, excuse) && AllIn(events, j.buffers.ledger.deadLettered)
    ensures AllIn(events, t.buffers.ledger.deadLettered)
    decreases |steps|
  {
    hide Next, Enabled, Clean, AllIn;
    if steps != [] {
      StepKeepsDead(plan, j, steps[0], events);
      RunKeepsDead(plan, Next(plan, j, steps[0]), steps[1..], t, events, excuse);
    }
  }

  /** The job goes on cleanly, with any number of restarts, until it has caught up with this source, and then the events are retried. */
  ghost predicate RetriedRun(plan: Plan, j: Job, s: Source, events: seq<ChangeEvent>, steps: seq<Step>, m: Job, t: Job) {
    Leads(plan, j, steps, m, Nothing) && CaughtUp(m) && m.src == s && Leads(plan, m, Retries(events), t, Failures)
  }

  /** Every such run ends at the source's table. */
  ghost predicate Restored(plan: Plan, j: Job, s: Source, events: seq<ChangeEvent>) {
    forall steps, m, t :: RetriedRun(plan, j, s, events, steps, m, t) ==> t.buffers.docs == TableAt(s, |s.log|)
  }

  /** A retried row is at the end of the log as the last event retried for it leaves it. */
  predicate Settles(s: Source, events: seq<ChangeEvent>, k: Key) {
    Lookup(ApplyAll(map[], events), k) == ValueAt(s, |s.log|, k)
  }

  lemma RowAfterRetries(plan: Plan, j: Job, s: Source, events: seq<ChangeEvent>, steps: seq<Step>, m: Job, t: Job, k: Key)
    requires RetriedRun(plan, j, s, events, steps, m, t)
    ensures Lookup(t.buffers.docs, k) == ValueAt(s, |s.log|, k) <==> if Touches(events, k) then Settles(s, events, k) else RowRight(m, k)
  {
    RetriesApply(plan, m, events, t);
    hide Leads, TableAt, ApplyAll, Touches, Lookup;
    if Touches(events, k) {
      Overwritten(m.buffers.docs, map[], events, k);
    } else {
      Untouched(m.buffers.docs, events, k);
    }
  }

  /** A row that every retried run has right and no retry touches is right before the retries. */
  lemma RestoredRow(plan: Plan, j: Job, s: Source, events: seq<ChangeEvent>, k: Key)
    requires Restored(plan, j, s, events) && AllIn(events, j.buffers.ledger.deadLettered) && !Touches(events, k)
    ensures RowArrives(plan, j, s, k)
  {
    hide Leads, TableAt, CaughtUp, Touches, Lookup;
    forall steps, m | Leads(plan, j, steps, m, Nothing) && CaughtUp(m) && m.src == s ensures RowRight(m, k) {
      RunKeepsDead(plan, j, steps, m, events, Nothing);
      var t := RetriesLead(plan, m, events);
      assert RetriedRun(plan, j, s, events, steps, m, t);
      RowAfterRetries(plan, j, s, events, steps, m, t, k);
    }
  }

  /**
   * What is retried after the job has caught up, judged row by row: a retried row has to be at the
   * end of the log as the last event retried for it leaves it, any other has to recover without.
   */
  lemma RetriedExactly(plan: Plan, j: Job, writes: seq<Step>, w: Job, events: seq<ChangeEvent>)
    requires InTime(j) && Leads(plan, j, writes, w, Nothing) && OnlyWrites(writes)
    requires AllIn(events, j.buffers.ledger.deadLettered)
    ensures GrownTo(j.src, w.src)
    ensures Restored(plan, j, w.src, events) <==>
            forall k :: if Touches(events, k) then Settles(w.src, events, k) else RecoversRow(w.src, j.buffers.docs, Furthest(j), k)
  {
    TimelyFlows(j);
    RunKeysStay(plan, j, writes, w);
    RunGrows(plan, j, writes, w, Nothing);
    hide InTime, Flowing, Leads, RecoversRow, KeysStay, Touches, Settles, OnlyWrites, AllIn, Furthest;
    if Restored(plan, j, w.src, events) {
      forall k ensures if Touches(events, k) then Settles(w.src, events, k) else RecoversRow(w.src, j.buffers.docs, Furthest(j), k) {
        RetriedNeeds(plan, j, writes, w, events, k);
      }
    }
    if forall k :: if Touches(events, k) then Settles(w.src, events, k) else RecoversRow(w.src, j.buffers.docs, Furthest(j), k) {
      hide TableAt, CaughtUp;
      forall steps, m, t | RetriedRun(plan, j, w.src, events, steps, m, t) ensures t.buffers.docs == TableAt(w.src, |w.src.log|) {
        RetriedSuffices(plan, j, w.src, events, steps, m, t);
      }
    }
  }

  lemma RetriedNeeds(plan: Plan, j: Job, writes: seq<Step>, w: Job, events: seq<ChangeEvent>, k: Key)
    requires InTime(j) && Leads(plan, j, writes, w, Nothing) && OnlyWrites(writes) && KeysStay(w.src.log)
    requires AllIn(events, j.buffers.ledger.deadLettered) && Restored(plan, j, w.src, events)
    ensures GrownTo(j.src, w.src)
    ensures if Touches(events, k) then Settles(w.src, events, k) else RecoversRow(w.src, j.buffers.docs, Furthest(j), k)
  {
    TimelyFlows(j);
    hide InTime, Leads, RecoversRow, KeysStay, OnlyWrites, AllIn, RowSteady, Flowing, Restored, RowArrives, Touches, Settles;
    WritesKeep(plan, j, writes, w, k);
    if Touches(events, k) {
      RetriedSettles(plan, j, writes, w, events, k);
    } else {
      RestoredRow(plan, j, w.src, events, k);
      RowArrivesLater(plan, j, writes, w, w.src, k);
      OpenRowExactly(plan, w, k);
      SteadyInTime(j, w.src, k);
    }
  }

  lemma RetriedSettles(plan: Plan, j: Job, writes: seq<Step>, w: Job, events: seq<ChangeEvent>, k: Key)
    requires Flowing(w) && Leads(plan, j, writes, w, Nothing) && Touches(events, k)
    requires AllIn(events, j.buffers.ledger.deadLettered) && Restored(plan, j, w.src, events)
    ensures Settles(w.src, events, k)
  {
    hide Leads, KeysStay, AllIn, Ordered, RecoversRow;
    var steps, m := CatchesUp(plan, w, k);
    hide Flowing;
    LeadsOn(plan, j, writes, w, steps, m, Nothing);
    RunKeepsDead(plan, j, writes + steps, m, events, Nothing);
    var t := RetriesLead(plan, m, events);
    hide CaughtUp, Touches, Settles, Lookup;
    assert RetriedRun(plan, j, w.src, events, writes + steps, m, t);
    RowAfterRetries(plan, j, w.src, events, writes + steps, m, t, k);
  }

  lemma RetriedSuffices(plan: Plan, j: Job, s: Source, events: seq<ChangeEvent>, steps: seq<Step>, m: Job, t: Job)
    requires InTime(j) && GrownTo(j.src, s) && KeysStay(s.log) && RetriedRun(plan, j, s, events, steps, m, t)
    requires forall k :: if Touches(events, k) then Settles(s, events, k) else RecoversRow(s, j.buffers.docs, Furthest(j), k)
    ensures t.buffers.docs == TableAt(s, |s.log|)
  {
    TimelyFlows(j);
    hide InTime, Flowing, Leads, RecoversRow, KeysStay, Touches, Settles, Furthest, CaughtUp, TableAt, Lookup, RowSteady;
    forall k ensures Lookup(t.buffers.docs, k) == Lookup(TableAt(s, |s.log|), k) {
      if !Touches(events, k) {
        SteadyInTime(j, s, k);
        OnCourseArrives(plan, j, s, k);
      }
      RowAfterRetries(plan, j, s, events, steps, m, t, k);
    }
    SameTable(t.buffers.docs, TableAt(s, |s.log|));
  }

  // ---------------------------------------------------------------- retrying what is left of a failed batch

  /** The failed batch and what it left behind of a job that had lost nothing before. */
  ghost predicate FailedAt(plan: Plan, j: Job, step: Step, o: Outcome) {
    && Inv(plan, j) && j.mode.Reading? && Enabled(plan, j, step) && (step == Tick(o) || step == PutNext(o))
    && (step.PutNext? ==> |j.buffers.batch| + 1 >= BATCH_SIZE)
    && var batch := FlushedBatch(j.buffers, step);
      && batch != [] && o.results == PassThrough(batch) && o.reply.Failed? && AllIn(o.reply.landed, batch)
      && o.deadLetters.Some?
  }

  /** The events of the failed batch that the dead-letter queue stores: the first of each identity without a live item. */
  function Stored(b: Buffers, step: Step, o: Outcome): seq<ChangeEvent> {
    var batch := FlushedBatch(b, step);
    if o.deadLetters.Some? then Filed(batch, PassThrough(batch), o.deadLetters.value, true) else []
  }

  lemma {:induction false} SameKind(live: LiveItems, results: seq<Option<ChangeEvent>>)
    ensures LiveAfter(live, results).positioned == live.positioned
    decreases |results|
  {
    if results != [] {
      SameKind(live, results[..|results| - 1]);
    }
  }

  lemma {:induction false} LiveWith(live: LiveItems, results: seq<Option<ChangeEvent>>, i: nat)
    requires i < |results| && results[i].Some?
    ensures IsLive(LiveAfter(live, results), results[i].value)
    decreases |results|
  {
    SameKind(live, results);
    SameKind(live, results[..|results| - 1]);
    if i < |results| - 1 {
      LiveWith(live, results[..|results| - 1], i);
    }
  }

  /** Only events of the batch are stored, each identity at most once: for PostgreSQL one change of a row. */
  lemma {:induction false} FiledOnce(batch: seq<ChangeEvent>, live: LiveItems)
    ensures var stored := Filed(batch, PassThrough(batch), live, true);
            && AllIn(stored, batch)
            && (forall i, n | 0 <= i < n < |stored| :: IdentityOf(live, stored[i]) != IdentityOf(live, stored[n]))
            && (!live.positioned ==> forall i, n | 0 <= i < n < |stored| :: stored[i].key != stored[n].key)
    decreases |batch|
  {
    if batch != [] {
      var n := |batch| - 1;
      var before := batch[..n];
      assert PassThrough(batch)[..n] == PassThrough(before);
      FiledOnce(before, live);
      var later := LiveAfter(live, PassThrough(before));
      SameKind(live, PassThrough(before));
      var stored := Filed(before, PassThrough(before), live, true);
      forall e | e in stored ensures e in batch && IdentityOf(live, e) in later.ids {
        var i :| 0 <= i < n && before[i] == e;
        LiveWith(live, PassThrough(before), i);
      }
    }
  }

  lemma NoneTouches(batch: seq<ChangeEvent>, some: seq<ChangeEvent>, k: Key)
    requires !Touches(batch, k) && AllIn(some, batch)
    ensures !Touches(some, k)
  {
    forall i | 0 <= i < |some| ensures some[i].key != k || some[i].op == Other {
      assert some[i] in batch;
      var n :| 0 <= n < |batch| && batch[n] == some[i];
    }
  }

  lemma SameRowRecovers(src: Source, docs: Table, docs': Table, r: nat, k: Key)
    requires r <= |src.log| && Lookup(docs, k) == Lookup(docs', k)
    ensures RecoversRow(src, docs, r, k) <==> RecoversRow(src, docs', r, k)
  {
  }

  /** A row that neither the batch nor what has landed of it changed recovers if it did before the batch. */
  lemma OtherRow(src: Source, docs: Table, a: nat, batch: seq<ChangeEvent>, landed: seq<ChangeEvent>, k: Key)
    requires KeysStay(src.log) && Stretch(src.log, a, batch) && a + |batch| <= |src.log|
    requires !Touches(batch, k) && AllIn(landed, batch) && RecoversRow(src, docs, a, k)
    ensures RecoversRow(src, ApplyAll(docs, landed), a + |batch|, k)
  {
    NoneTouches(batch, landed, k);
    hide *;
    Untouched(docs, landed, k);
    Untouched(docs, batch, k);
    RowRecoversAcross(src, docs, a, batch, k);
    SameRowRecovers(src, ApplyAll(docs, batch), ApplyAll(docs, landed), a + |batch|, k);
  }

  /** From where the rows have to recover behind a flush of the whole batch that leaves the checkpoint as it is. */
  function Behind(j: Job): (r: nat)
    requires |j.buffers.queue| <= j.pos <= |j.src.log| && j.slot <= |j.src.log|
    ensures r <= |j.src.log|
  {
    Max(j.pos - |j.buffers.queue|, ResumesAt(j, ResumeLsn(j)))
  }

  /** What a failed flush leaves of the buffers. */
  lemma FailedStep(plan: Plan, j: Job, step: Step, o: Outcome)
    requires FailedAt(plan, j, step, o)
    ensures var f, b := Next(plan, j, step), j.buffers;
            && f == j.(buffers := f.buffers, lo := f.lo) && f.buffers.hand.None? && Pending(f.buffers) == b.queue
            && f.buffers.docs == ApplyAll(b.docs, o.reply.landed) && f.buffers.checkpoint == b.checkpoint
            && AllIn(Stored(b, step, o), f.buffers.ledger.deadLettered)
            && Pending(b) == FlushedBatch(b, step) + Pending(f.buffers)
  {
    hide Inv, ApplyAll, Filed;
    FlushShapes(plan, j, step);
    FailedShape(if step.Tick? then j.buffers else Append(j.buffers), o);
    hide Flush;
  }

  lemma FailedSays(plan: Plan, j: Job, step: Step, o: Outcome)
    requires FailedAt(plan, j, step, o)
    ensures var f, b, batch := Next(plan, j, step), j.buffers, FlushedBatch(j.buffers, step);
            && InTime(f) && KeysStay(j.src.log) && |b.queue| + |batch| <= j.pos <= |j.src.log| && j.slot <= |j.src.log|
            && Furthest(f) == Behind(j) && f.src == j.src && f.buffers.docs == ApplyAll(b.docs, o.reply.landed)
            && AllIn(Stored(b, step, o), f.buffers.ledger.deadLettered)
            && Stretch(j.src.log, j.pos - |b.queue| - |batch|, batch) && j.pos - |b.queue| - |batch| <= j.lo
  {
    hide Inv, InTime, ApplyAll, FirstFrom, KeysStay, Stretch, Next, Pending, Flowing, Enabled, FlushedBatch, AllIn;
    FailedStep(plan, j, step, o);
    InvFlows(plan, j);
    hide FailedAt, Stored;
    FrontGone(j, Next(plan, j, step), FlushedBatch(j.buffers, step));
    TimelyFlows(Next(plan, j, step));
    TimelyFlows(j);
    WithinLog(j);
    BatchStretch(j, FlushedBatch(j.buffers, step));
  }

  lemma BatchStretch(j: Job, batch: seq<ChangeEvent>)
    requires Flowing(j) && Pending(j.buffers) == batch + j.buffers.queue
    ensures Stretch(j.src.log, j.pos - |j.buffers.queue| - |batch|, batch)
  {
    hide Pending, Ordered, KeysStay;
    StretchSplit(j.src.log, Oldest(j), batch, j.buffers.queue);
  }

  /** A row that neither the batch nor what has landed of it changes recovers from behind the batch. */
  lemma SafeRow(plan: Plan, j: Job, batch: seq<ChangeEvent>, landed: seq<ChangeEvent>, k: Key)
    requires Inv(plan, j) && j.mode.Reading? && AllIn(landed, batch) && !Touches(batch, k)
    requires |j.buffers.queue| + |batch| <= j.pos <= |j.src.log| && j.pos - |j.buffers.queue| - |batch| <= j.lo
    requires KeysStay(j.src.log) && Stretch(j.src.log, j.pos - |j.buffers.queue| - |batch|, batch)
    ensures j.slot <= |j.src.log|
    ensures RecoversRow(j.src, ApplyAll(j.buffers.docs, landed), Behind(j), k)
  {
    var docs := j.buffers.docs;
    var n, a := j.pos - |j.buffers.queue|, j.pos - |j.buffers.queue| - |batch|;
    hide Inv, ApplyAll, FirstFrom, KeysStay, Stretch, RecoversRow, Touches, Lookup, AllIn;
    InvResumes(plan, j);
    var r := ResumesAt(j, ResumeLsn(j));
    if r <= n {
      InvRecovers(plan, j, a);
      assert RecoversRow(j.src, docs, a, k);
      OtherRow(j.src, docs, a, batch, landed, k);
    } else {
      InvRecovers(plan, j, r);
      assert RecoversRow(j.src, docs, r, k);
      NoneTouches(batch, landed, k);
      Untouched(docs, landed, k);
      SameRowRecovers(j.src, docs, ApplyAll(docs, landed), r, k);
    }
  }

  lemma SafeRows(plan: Plan, j: Job, step: Step, o: Outcome, s: Source)
    requires FailedAt(plan, j, step, o) && GrownTo(j.src, s)
    ensures |j.buffers.queue| <= j.pos <= |j.src.log| && j.slot <= |j.src.log|
    ensures forall k | !Touches(FlushedBatch(j.buffers, step), k) ::
              RecoversRow(s, ApplyAll(j.buffers.docs, o.reply.landed), Behind(j), k)
  {
    hide AllIn, Inv, InTime, FlushedBatch, Stored, Next, Furthest, KeysStay, Stretch, ApplyAll, FirstFrom, Behind, RecoversRow, Touches;
    FailedSays(plan, j, step, o);
    var batch, landed, after := FlushedBatch(j.buffers, step), o.reply.landed, ApplyAll(j.buffers.docs, o.reply.landed);
    assert AllIn(landed, batch) && Inv(plan, j) && j.mode.Reading?;
    hide FailedAt;
    forall k | !Touches(batch, k) ensures RecoversRow(s, after, Behind(j), k) {
      SafeRow(plan, j, batch, landed, k);
      RowRecoversGrown(j.src, s, after, Behind(j), k);
    }
  }

  /**
   * A batch of a job that had lost nothing fails, and after the job has caught up what the
   * dead-letter queue has stored of it is retried in order: the sink is then the source's table
   * exactly when every retried row is at the end of the log as its last stored change leaves it, and
   * every row of which the batch held changes but none is retried recovers without them.
   */
  lemma RetriedInOrderExactly(plan: Plan, j: Job, step: Step, o: Outcome, writes: seq<Step>, w: Job)
    requires FailedAt(plan, j, step, o)
    requires Leads(plan, Next(plan, j, step), writes, w, Nothing) && OnlyWrites(writes)
    ensures |j.buffers.queue| <= j.pos <= |j.src.log| && j.slot <= |j.src.log| && GrownTo(j.src, w.src)
    ensures var stored := Stored(j.buffers, step, o);
            Restored(plan, Next(plan, j, step), w.src, stored) <==>
            forall k | Touches(FlushedBatch(j.buffers, step), k) ::
              if Touches(stored, k) then Settles(w.src, stored, k)
              else RecoversRow(w.src, ApplyAll(j.buffers.docs, o.reply.landed), Behind(j), k)
  {
    FailedSays(plan, j, step, o);
    var f, batch, stored := Next(plan, j, step), FlushedBatch(j.buffers, step), Stored(j.buffers, step, o);
    hide InTime, Leads, Next, Furthest, Restored, KeysStay, Stretch, ApplyAll, FirstFrom, RecoversRow, Behind, Touches, Settles, FlushedBatch;
    RetriedExactly(plan, f, writes, w, stored);
    FiledOnce(batch, o.deadLetters.value);
    hide OnlyWrites, Filed;
    SafeRows(plan, j, step, o, w.src);
    hide FailedAt;
    forall k | !Touches(batch, k) ensures !Touches(stored, k) {
      NoneTouches(batch, stored, k);
    }
  }
}
