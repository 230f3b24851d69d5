/**
 * When the sink arrives at the source, exactly: every clean run from a state, with any number of
 * restarts, ends at the source's table exactly when every row is on course there. Where one is not,
 * some clean run is given that ends without it.
 */
module HandoffExact {
  import opened Wrappers
  import opened Pipeline
  import opened Replay
  import opened Handoff
  import opened HandoffRuns
  import opened HandoffCourse

  // ---------------------------------------------------------------- runs that lose a row: closed

  /** The stream is opened again at the furthest index, and the job catches up. */
  lemma Reopened(plan: Plan, j: Job, k: Key)
    requires Closed(j) && j.mode.Waiting? && RowArrives(plan, j, j.src, k)
    ensures j.slot <= |j.src.log|
    ensures RecoversRow(j.src, ApplyAll(j.buffers.docs, Carried(j.buffers)), ResumesAt(j, ResumeLsn(j)), k)
  {
    hide Leads, RowArrives, ApplyAll, RecoversRow;
    var r := ResumesAt(j, ResumeLsn(j));
    ResumesFurthest(j, r);
    hide Resumable, Ordered, FirstFrom, ResumesAt, RowRight;
    var t := Later(plan, j, StartReading(r), j.src, k);
    assert Pending(t.buffers) == Carried(j.buffers);
    EndsRight(plan, t, k);
  }

  /** What a job that has a row right at the end of every run comes to by one more step. */
  lemma Later(plan: Plan, j: Job, step: Step, s: Source, k: Key) returns (t: Job)
    requires RowArrives(plan, j, s, k) && Enabled(plan, j, step) && Clean(j, step)
    ensures RowArrives(plan, t, s, k) && t == Next(plan, j, step)
  {
    hide Enabled, Clean, Next, RowArrives;
    t := Next(plan, j, step);
    assert [step][1..] == [];
    RowArrivesLater(plan, j, [step], t, s, k);
  }

  lemma EndsRight(plan: Plan, j: Job, k: Key)
    requires Streaming(j) && RowArrives(plan, j, j.src, k)
    ensures RecoversRow(j.src, Due(j.buffers), j.pos, k)
  {
    hide Leads, CaughtUp, RecoversRow, RowRight, Due;
    var steps, t := CatchesUp(plan, j, k);
  }

  lemma Emptied(plan: Plan, j: Job, k: Key) returns (t: Job)
    requires Closed(j) && RowArrives(plan, j, j.src, k)
    ensures RowArrives(plan, t, j.src, k) && Closed(t) && t.mode.Waiting? && t == j.(mode := Waiting, buffers := t.buffers)
    ensures t.buffers == j.buffers.(queue := [], ledger := t.buffers.ledger)
  {
    hide Leads, RowArrives;
    if j.mode.Waiting? {
      t := j;
    } else {
      var steps;
      steps, t := ResetInSteps(plan, j);
      RowArrivesLater(plan, j, steps, t, j.src, k);
      StillClosed(j, t);
    }
  }

  /** The event in hand is put into the batch, where that fills no batch. */
  lemma PutAway(plan: Plan, j: Job, k: Key) returns (t: Job)
    requires Closed(j) && !MustFlush(j.buffers) && RowArrives(plan, j, j.src, k)
    ensures RowArrives(plan, t, j.src, k) && Closed(t) && t.buffers.hand.None?
    ensures t == j.(buffers := t.buffers) && Carried(t.buffers) == Carried(j.buffers)
    ensures t.buffers == j.buffers.(batch := t.buffers.batch, hand := None)
  {
    hide RowArrives, Flush, KeysStay, Ordered, Known;
    t := j;
    if t.buffers.hand.Some? {
      var o := Smoothly(t.buffers.batch + [t.buffers.hand.value]);
      ClosedPut(plan, j, o);
      t := Later(plan, j, PutNext(o), j.src, k);
    }
  }

  /** The events left over are flushed, and the LSN of the last one becomes the checkpoint. */
  lemma Settled(plan: Plan, j: Job, k: Key) returns (t: Job)
    requires Closed(j) && j.mode.Waiting? && RowArrives(plan, j, j.src, k)
    requires Bound(j) > ResumeLsn(j)
    ensures RowArrives(plan, t, j.src, k) && Closed(t) && t.mode.Waiting?
    ensures t == j.(buffers := t.buffers, lo := t.lo) && Carried(t.buffers) == []
    ensures t.buffers.docs == ApplyAll(j.buffers.docs, Carried(j.buffers)) && ResumeLsn(t) == Bound(j)
  {
    hide RowArrives, Flush, KeysStay, Ordered, ApplyAll, Closed;
    if MustFlush(j.buffers) {
      var o := Smoothly(j.buffers.batch + [j.buffers.hand.value]);
      ClosedPut(plan, j, o);
      t := Later(plan, j, PutNext(o), j.src, k);
      assert Bound(j.(buffers := Append(j.buffers))) == Bound(j);
    } else {
      var m := PutAway(plan, j, k);
      assert Bound(m) == Bound(j) && ResumeLsn(m) == ResumeLsn(j);
      var o := Smoothly(m.buffers.batch);
      ClosedTick(plan, m, o);
      t := Later(plan, m, Tick(o), j.src, k);
    }
  }

  /** The stream is opened again with the events left over in the batch, and ends at once. */
  lemma ClearedAgain(plan: Plan, j: Job, k: Key) returns (t: Job)
    requires Closed(j) && j.mode.Waiting? && !MustFlush(j.buffers) && RowArrives(plan, j, j.src, k)
    ensures RowArrives(plan, t, j.src, k) && Closed(t) && t.mode.Waiting?
    ensures t.src == j.src && t.slot == j.slot && t.buffers.docs == j.buffers.docs && ResumeLsn(t) == ResumeLsn(j)
    ensures Carried(t.buffers) == []
  {
    hide RowArrives, KeysStay, FirstFrom, Known;
    var m := PutAway(plan, j, k);
    var r := ResumesAt(m, ResumeLsn(m));
    ResumesFurthest(m, r);
    hide Resumable, Ordered;
    t := Later(plan, m, StartReading(r), j.src, k);
    t := Later(plan, t, BreakOff, j.src, k);
    t := Later(plan, t, FoundEmpty, j.src, k);
    SameOrder(j, t);
  }

  lemma ClosedRowNeeds(plan: Plan, j: Job, k: Key)
    requires Closed(j) && RowArrives(plan, j, j.src, k)
    ensures j.slot <= |j.src.log| && RowRegained(j.src, j, k)
  {
    ClosedSays(j);
    hide RowArrives, Closed, RecoversRow, ApplyAll, FirstFrom;
    var m := Emptied(plan, j, k);
    assert Bound(m) == Bound(j) && ResumeLsn(m) == ResumeLsn(j) && Carried(m.buffers) == Carried(j.buffers);
    var t := m;
    if Bound(m) > ResumeLsn(m) {
      t := Settled(plan, m, k);
      AppliedNone(t.buffers.docs);
    }
    Reopened(plan, t, k);
    if !MustFlush(j.buffers) {
      var u := ClearedAgain(plan, m, k);
      AppliedNone(u.buffers.docs);
      Reopened(plan, u, k);
    }
  }

  /** With the stream closed, a row is right at the end of every clean run exactly when it is regained. */
  lemma ClosedRowExactly(plan: Plan, j: Job, k: Key)
    requires Closed(j)
    ensures j.slot <= |j.src.log| && (RowArrives(plan, j, j.src, k) <==> RowRegained(j.src, j, k))
  {
    ClosedSays(j);
    assert KeysStay(j.src.log);
    hide Closed, RowArrives, RowRegained, KeysStay;
    if RowArrives(plan, j, j.src, k) {
      ClosedRowNeeds(plan, j, k);
    }
    if RowRegained(j.src, j, k) {
      OnCourseArrives(plan, j, j.src, k);
    }
  }

  // ---------------------------------------------------------------- runs that lose a row: open

  lemma EndedNeeds(plan: Plan, j: Job, k: Key)
    requires Flowing(j) && j.buffers.hand.None? && RowArrives(plan, j, j.src, k)
    ensures j.slot <= |j.src.log| && RecoversRow(j.src, j.buffers.docs, ResumesAt(j, ResumeLsn(j)), k)
  {
    WithinLog(j);
    hide RowArrives, RecoversRow, FirstFrom;
    var t := Later(plan, j, BreakOff, j.src, k);
    assert Closed(t) && Carried(t.buffers) == [] by {
      hide KeysStay, Stretch, Pending;
      SameOrder(j, t);
    }
    hide Flowing, Closed;
    ClosedRowNeeds(plan, t, k);
  }

  /** The event in hand is put into the batch, where that fills no batch. */
  lemma PutDown(plan: Plan, j: Job, s: Source, k: Key) returns (t: Job)
    requires Flowing(j) && !MustFlush(j.buffers) && RowArrives(plan, j, s, k)
    ensures RowArrives(plan, t, s, k) && Flowing(t) && t.buffers.hand.None? && t == j.(buffers := t.buffers)
    ensures t.buffers == j.buffers.(batch := Carried(j.buffers), hand := None)
  {
    hide RowArrives, KeysStay, Ordered, Stretch;
    t := j;
    if j.buffers.hand.Some? {
      var o := Smoothly(j.buffers.batch + [j.buffers.hand.value]);
      AppendPending(j.buffers);
      t := Later(plan, j, PutNext(o), s, k);
      SameOrder(j, t);
      hide Pending, Carried;
    }
  }

  /** The next step towards a flush that ends in front of index `n`. */
  function FlushStep(j: Job, n: nat): Step {
    if j.buffers.hand.Some? then PutNext(Smoothly(j.buffers.batch + [j.buffers.hand.value]))
    else if Oldest(j) + |j.buffers.batch| == n then Tick(Smoothly(j.buffers.batch))
    else if j.buffers.queue != [] then TakeNext
    else OfferNext
  }

  function FlushWork(j: Job, n: nat): int {
    4 * (n - Oldest(j) - |Carried(j.buffers)|) + (if j.buffers.hand.Some? then 2 else 0) +
    (if j.buffers.batch != [] then 1 else 0) + if j.buffers.queue == [] then 1 else 0
  }

  /** A flush may end in front of the index, or one just has. */
  predicate Nears(j: Job, n: nat) {
    && Flowing(j) && Oldest(j) + |Carried(j.buffers)| <= n <= |j.src.log|
    && (Oldest(j) == n ==> Carried(j.buffers) == [])
  }

  /** What one step towards the flush does. */
  predicate Nearer(j: Job, t: Job, n: nat)
    requires Nears(j, n)
  {
    && Nears(t, n) && t.src == j.src && t.slot == j.slot && t.confirmed == j.confirmed
    && UpTo(t, n) == UpTo(j, n) && FlushWork(t, n) < FlushWork(j, n)
    && (Oldest(t) == n > 0 ==> t.buffers.checkpoint == Some(j.src.log[n - 1].event.lsn))
  }

  lemma NearsSays(j: Job, n: nat)
    requires Nears(j, n) && Oldest(j) < n
    ensures j.mode.Reading? && |Pending(j.buffers)| <= j.pos && Oldest(j) + |Carried(j.buffers)| <= n <= |j.src.log| && j.slot <= Oldest(j)
    ensures Flowing(j) && Ordered(j)
  {
    hide KeysStay, Stretch, Ordered;
  }

  lemma NearerStill(j: Job, t: Job, n: nat)
    requires Nears(j, n) && Oldest(j) < n && Flowing(t) && Oldest(t) == Oldest(j) && Oldest(t) + |Carried(t.buffers)| <= n
    requires t == j.(buffers := t.buffers, pos := t.pos, far := t.far, lo := t.lo) && t.buffers.docs == j.buffers.docs
    requires FlushWork(t, n) < FlushWork(j, n)
    ensures Nearer(j, t, n)
  {
    hide Flowing, Oldest, Carried, FlushWork, ApplyAll, EventsFrom;
  }

  lemma NearerFlushed(j: Job, t: Job, n: nat)
    requires Nears(j, n) && Oldest(j) < n && j.buffers.hand.None? && FlushedTo(j, t) && t.buffers.hand.None? && t.buffers.batch == []
    ensures Nearer(j, t, n)
  {
    NearsSays(j, n);
    hide Flowing, ApplyAll, FirstFrom;
    assert Carried(j.buffers) == j.buffers.batch && Carried(t.buffers) == [];
    FlushFlows(j, t);
    UpToOn(j, t, n);
    LastOf(j);
    SameQueue(j, t);
    hide Stretch, Pending, UpTo, Carried;
  }

  lemma LastOf(j: Job)
    requires Stretch(j.src.log, Oldest(j), j.buffers.batch) && j.buffers.batch != []
    ensures var b := j.buffers.batch; 0 <= Oldest(j) + |b| - 1 < |j.src.log| && b[|b| - 1] == j.src.log[Oldest(j) + |b| - 1].event
  {
  }

  lemma SameQueue(j: Job, t: Job)
    requires j.buffers.hand.None? && t.buffers.hand.None? && t.buffers.batch == []
    requires Pending(j.buffers) == j.buffers.batch + Pending(t.buffers)
    ensures t.buffers.queue == j.buffers.queue
  {
    var b := j.buffers.batch;
    assert Pending(j.buffers) == b + j.buffers.queue && Pending(t.buffers) == t.buffers.queue;
    assert (b + j.buffers.queue)[|b|..] == j.buffers.queue && (b + t.buffers.queue)[|b|..] == t.buffers.queue;
  }

  lemma NearerPut(plan: Plan, j: Job, n: nat)
    requires Nears(j, n) && Oldest(j) < n && j.buffers.hand.Some?
    ensures var step := FlushStep(j, n); Enabled(plan, j, step) && Clean(j, step) && Nearer(j, Next(plan, j, step), n)
  {
    var step := FlushStep(j, n);
    NearsSays(j, n);
    hide Flowing, Stretch, ApplyAll, FirstFrom, Pending;
    var o, m, t := Smoothly(j.buffers.batch + [j.buffers.hand.value]), j.(buffers := Append(j.buffers)), Next(plan, j, step);
    AppendPending(j.buffers);
    PutShape(plan, j, o);
    AppendFlows(j);
    hide Enabled, Clean, Next;
    assert FlushWork(m, n) < FlushWork(j, n);
    NearerStill(j, m, n);
    if MustFlush(j.buffers) {
      NearerFlushed(m, t, n);
    }
  }

  lemma AppendFlows(j: Job)
    requires Flowing(j) && j.buffers.hand.Some?
    ensures var m := j.(buffers := Append(j.buffers)); Flowing(m) && Oldest(m) == Oldest(j)
  {
    AppendPending(j.buffers);
    SameOrder(j, j.(buffers := Append(j.buffers)));
    hide Pending, Ordered, Stretch;
  }

  lemma NearerStep(plan: Plan, j: Job, n: nat)
    requires Nears(j, n) && Oldest(j) < n && j.buffers.hand.None?
    ensures var step := FlushStep(j, n); Enabled(plan, j, step) && Clean(j, step) && Nearer(j, Next(plan, j, step), n)
  {
    var step := FlushStep(j, n);
    NearsSays(j, n);
    assert Carried(j.buffers) == j.buffers.batch;
    if step.Tick? {
      hide Flowing, Stretch, ApplyAll, FirstFrom, Pending, Nears, Nearer;
      TickShape(plan, j, step.outcome);
      hide Enabled, Clean, Next;
      NearerFlushed(j, Next(plan, j, step), n);
    } else if step.TakeNext? {
      hide Flowing, Stretch, ApplyAll, FirstFrom, Nears, Nearer;
      TakeFlows(plan, j);
      TakePending(j.buffers);
      NearerStill(j, Next(plan, j, step), n);
    } else {
      assert j.pos < |j.src.log|;
      hide Flowing, Stretch, ApplyAll, FirstFrom, Nears, Nearer;
      OfferFlows(plan, j);
      NearerStill(j, Next(plan, j, step), n);
    }
  }

  /** Clean steps lead to where everything in front of the index has just been flushed. */
  lemma {:induction false} FlushesUpTo(plan: Plan, j: Job, n: nat, s: Source, k: Key) returns (t: Job)
    requires Nears(j, n) && RowArrives(plan, j, s, k)
    ensures Nears(t, n) && Oldest(t) == n && RowArrives(plan, t, s, k)
    ensures t.src == j.src && t.slot == j.slot && t.confirmed == j.confirmed && t.buffers.docs == UpTo(j, n)
    ensures if Oldest(j) < n then t.buffers.checkpoint == Some(j.src.log[n - 1].event.lsn) else t == j
    decreases FlushWork(j, n)
  {
    if Oldest(j) == n {
      t := j;
      assert EventsFrom(j.src.log[..n], n) == [];
    } else {
      if j.buffers.hand.Some? {
        NearerPut(plan, j, n);
      } else {
        NearerStep(plan, j, n);
      }
      var step := FlushStep(j, n);
      hide Enabled, Clean, Next, RowArrives, UpTo, FlushStep;
      var m := Later(plan, j, step, s, k);
      t := FlushesUpTo(plan, m, n, s, k);
    }
  }

  lemma FlushedNeeds(plan: Plan, j: Job, n: nat, k: Key)
    requires Flowing(j) && Flushable(j, n) && RowArrives(plan, j, j.src, k) && n < ResumesAt(j, j.confirmed)
    ensures RecoversRow(j.src, UpTo(j, n), ResumesAt(j, j.confirmed), k)
  {
    hide RowArrives, Flowing, RecoversRow, FirstFrom, UpTo;
    var t := FlushesUpTo(plan, j, n, j.src, k);
    WithinLog(t);
    WithinLog(j);
    assert t.buffers.hand.None? && t.slot < n;
    assert Ordered(t) by {
      NearsOrdered(t, n);
    }
    EndedNeeds(plan, t, k);
    ResumesFurther(t, t.buffers.checkpoint.value, t.confirmed);
    ResumesByEvent(t, n - 1);
  }

  lemma NearsOrdered(j: Job, n: nat)
    requires Nears(j, n)
    ensures Ordered(j)
  {
  }

  lemma OldestNeeds(plan: Plan, j: Job, k: Key)
    requires Flowing(j) && RowArrives(plan, j, j.src, k)
    ensures RecoversRow(j.src, j.buffers.docs, Oldest(j), k)
  {
    hide RowArrives, RecoversRow, Ordered, KeysStay, Stretch, Pending, ApplyAll;
    EndsRight(plan, j, k);
    RowRecoversAcross(j.src, j.buffers.docs, Oldest(j), Pending(j.buffers), k);
  }

  lemma OpenRowNeeds(plan: Plan, j: Job, k: Key)
    requires Flowing(j) && RowArrives(plan, j, j.src, k)
    ensures RowSteady(j.src, j, k)
  {
    WithinLog(j);
    hide RowArrives, Flowing, RecoversRow, FirstFrom, UpTo, Oldest, Carried;
    OldestNeeds(plan, j, k);
    if !MustFlush(j.buffers) {
      var t := PutDown(plan, j, j.src, k);
      EndedNeeds(plan, t, k);
    }
    hide MustFlush;
    forall n | Flushable(j, n) && n < ResumesAt(j, j.confirmed) ensures RecoversRow(j.src, UpTo(j, n), ResumesAt(j, j.confirmed), k) {
      FlushedNeeds(plan, j, n, k);
    }
  }

  /** With the stream open, a row is right at the end of every clean run exactly when it is steady. */
  lemma OpenRowExactly(plan: Plan, j: Job, k: Key)
    requires Flowing(j)
    ensures RowArrives(plan, j, j.src, k) <==> RowSteady(j.src, j, k)
  {
    assert KeysStay(j.src.log);
    hide Flowing, RowArrives, RowSteady, KeysStay;
    if RowArrives(plan, j, j.src, k) {
      OpenRowNeeds(plan, j, k);
    }
    if RowSteady(j.src, j, k) {
      OnCourseArrives(plan, j, j.src, k);
    }
  }

  // ---------------------------------------------------------------- runs that lose a row: open, with events left over

  /** Everything beside the channel is flushed at once. */
  lemma FlushNow(plan: Plan, j: Job, n: nat, s: Source, k: Key) returns (m: Job, t: Job)
    requires Laden(j, n) && RowArrives(plan, j, s, k)
    ensures RowArrives(plan, t, s, k) && Laden(m, n) && m.buffers.hand.None?
    ensures m == j.(buffers := m.buffers) && m.buffers == j.buffers.(batch := Carried(j.buffers), hand := None)
    ensures FlushedTo(m, t) && t.buffers.hand.None? && t.buffers.batch == []
  {
    hide RowArrives, FirstFrom, Pending, ApplyAll, Laden, FlushedTo;
    if j.buffers.hand.Some? {
      t := PutNow(plan, j, n, s, k);
      m := j.(buffers := Append(j.buffers));
      if !MustFlush(j.buffers) {
        t := TickNow(plan, m, n, s, k);
      }
    } else {
      m := j;
      t := TickNow(plan, m, n, s, k);
    }
  }

  lemma PutNow(plan: Plan, j: Job, n: nat, s: Source, k: Key) returns (t: Job)
    requires Laden(j, n) && j.buffers.hand.Some? && RowArrives(plan, j, s, k)
    ensures var m := j.(buffers := Append(j.buffers));
            && RowArrives(plan, t, s, k) && Laden(m, n) && m.buffers.batch == Carried(j.buffers)
            && if MustFlush(j.buffers) then FlushedTo(m, t) && t.buffers.hand.None? && t.buffers.batch == [] else t == m
  {
    var o := Smoothly(j.buffers.batch + [j.buffers.hand.value]);
    hide RowArrives, FirstFrom, Pending, ApplyAll, Laden, FlushedTo, Flowing, Oldest, Past;
    LadenSays(j, n);
    StillLadenPut(j, n);
    assert Enabled(plan, j, PutNext(o)) && Clean(j, PutNext(o));
    hide Enabled, Clean, Next;
    PutShape(plan, j, o);
    t := Later(plan, j, PutNext(o), s, k);
  }

  lemma TickNow(plan: Plan, j: Job, n: nat, s: Source, k: Key) returns (t: Job)
    requires Laden(j, n) && j.buffers.hand.None? && RowArrives(plan, j, s, k)
    ensures RowArrives(plan, t, s, k) && FlushedTo(j, t) && t.buffers.hand.None? && t.buffers.batch == []
    ensures j.buffers.batch == Carried(j.buffers)
  {
    var o := Smoothly(j.buffers.batch);
    hide RowArrives, FirstFrom, Pending, ApplyAll, Laden, FlushedTo, Flowing;
    LadenSays(j, n);
    TickShape(plan, j, o);
    t := Later(plan, j, Tick(o), s, k);
  }

  lemma StillLadenPut(j: Job, n: nat)
    requires Laden(j, n) && j.buffers.hand.Some?
    ensures var m := j.(buffers := Append(j.buffers)); Laden(m, n) && Carried(m.buffers) == Carried(j.buffers) == m.buffers.batch
  {
    var v, m := Past(j, n), j.(buffers := Append(j.buffers));
    PastAppend(j, n);
    if v.buffers.hand.Some? {
      FlowsAppend(v);
    }
    assert Flowing(Past(m, n)) && Oldest(Past(m, n)) == Oldest(v) && Carried(m.buffers) == Carried(j.buffers);
    hide Flowing, FirstFrom, ApplyAll, Known, Oldest;
  }

  /** Seen from behind the events left over, the sink after the flush is as it was foreseen. */
  lemma FlushedPast(m: Job, t: Job, n: nat, end: nat)
    requires Laden(m, n) && m.buffers.hand.None? && FlushedTo(m, t) && t.buffers.hand.None? && t.buffers.batch == []
    ensures Flowing(Past(m, n)) && Flowing(t) && Oldest(t) == Oldest(Past(m, n)) + |m.buffers.batch| - n
    ensures Carried(m.buffers) == m.buffers.batch
    ensures Oldest(t) <= end <= |m.src.log| ==> UpTo(t, end) == UpTo(Past(m, n), end)
  {
    var v := Past(m, n);
    LadenFlushed(m, t, n);
    LadenSays(m, n);
    PastFlushed(m, t, n);
    if Oldest(t) <= end <= |m.src.log| {
      if n < |m.buffers.batch| {
        FlushFlows(v, t);
        hide Flowing, Laden, FirstFrom, ApplyAll, Pending, Oldest;
        UpToOn(v, t, end);
      } else {
        hide Flowing, Laden, FirstFrom, ApplyAll, Pending, FlushedTo, Oldest;
      }
    }
  }

  /** Putting the event in hand into the batch changes nothing behind the events left over. */
  lemma SamePast(j: Job, m: Job, n: nat)
    requires n <= |Carried(j.buffers)| && m == j.(buffers := m.buffers)
    requires m.buffers == j.buffers.(batch := Carried(j.buffers), hand := None)
    ensures Carried(m.buffers) == Carried(j.buffers) && Carried(Past(m, n).buffers) == Carried(Past(j, n).buffers)
    ensures Past(m, n).buffers.docs == Past(j, n).buffers.docs && Oldest(Past(m, n)) == Oldest(Past(j, n))
    ensures Past(m, n) == Past(j, n).(buffers := Past(m, n).buffers)
  {
    assert Carried(m.buffers) == Carried(j.buffers);
    PastPending(j, n);
    PastPending(m, n);
    hide Pending, ApplyAll;
  }

  lemma DuePast(j: Job, n: nat)
    requires n <= |Carried(j.buffers)|
    ensures Due(j.buffers) == Due(Past(j, n).buffers)
  {
    PastPending(j, n);
    var pending := Pending(j.buffers);
    assert pending[..n] == Carried(j.buffers)[..n];
    assert pending == pending[..n] + pending[n..];
    hide Pending, Carried;
    AppliedInTwo(j.buffers.docs, pending[..n], pending[n..]);
  }

  lemma LadenStreams(j: Job, n: nat)
    requires Laden(j, n)
    ensures Streaming(j) && KeysStay(j.src.log) && 0 <= Oldest(Past(j, n))
    ensures Stretch(j.src.log, Oldest(Past(j, n)), Pending(Past(j, n).buffers))
  {
    hide KeysStay, Ordered, Stretch, Pending, Carried, Known, FirstFrom, ApplyAll;
  }

  lemma LadenOldestNeeds(plan: Plan, j: Job, n: nat, k: Key)
    requires Laden(j, n) && RowArrives(plan, j, j.src, k)
    ensures Flowing(Past(j, n)) && RecoversRow(j.src, Past(j, n).buffers.docs, Oldest(Past(j, n)), k)
  {
    var v := Past(j, n);
    hide RowArrives, RecoversRow, Flowing, Laden, KeysStay, Stretch, Pending, ApplyAll, Carried, FirstFrom;
    LadenSays(j, n);
    LadenStreams(j, n);
    DuePast(j, n);
    EndsRight(plan, j, k);
    RowRecoversAcross(j.src, v.buffers.docs, Oldest(v), Pending(v.buffers), k);
  }

  /** The flush that takes exactly the events left over. */
  lemma LadenAloneNeeds(plan: Plan, j: Job, n: nat, k: Key)
    requires Laden(j, n) && RowArrives(plan, j, j.src, k) && |Carried(j.buffers)| == n
    ensures j.slot <= |j.src.log| && RecoversRow(j.src, Past(j, n).buffers.docs, ResumesAt(j, LsnPast(j, n)), k)
  {
    LadenSays(j, n);
    hide RowArrives, RecoversRow, Flowing, Laden, ApplyAll, FirstFrom;
    var m, t := FlushNow(plan, j, n, j.src, k);
    FlushedPast(m, t, n, 0);
    PastFlushed(m, t, n);
    SamePast(j, m, n);
    assert ResumeLsn(t) == LsnPast(j, n);
    hide FlushedTo, Carried, Pending, Past, Oldest;
    EndedNeeds(plan, t, k);
  }

  lemma LadenFlushedNeeds(plan: Plan, j: Job, n: nat, end: nat, k: Key)
    requires Laden(j, n) && RowArrives(plan, j, j.src, k)
    requires Flowing(Past(j, n)) && Flushable(Past(j, n), end) && end < ResumesAt(j, j.confirmed)
    ensures RecoversRow(j.src, UpTo(Past(j, n), end), ResumesAt(j, j.confirmed), k)
  {
    LadenSays(j, n);
    hide RowArrives, RecoversRow, Flowing, Laden, ApplyAll, FirstFrom;
    var m, t := FlushNow(plan, j, n, j.src, k);
    FlushedPast(m, t, n, end);
    SamePast(j, m, n);
    PastPending(j, n);
    PastPending(m, n);
    assert Oldest(t) <= end;
    assert UpTo(t, end) == UpTo(Past(j, n), end);
    if Oldest(t) == end {
      LastPast(m, t, n);
      hide FlushedTo;
      AtEnd(plan, t, end, k);
    } else {
      hide FlushedTo, Past, Oldest, Pending;
      FlushedNeeds(plan, t, end, k);
    }
  }

  /** A flush that takes more than the events left over ends with the event in front of its end. */
  lemma LastPast(m: Job, t: Job, n: nat)
    requires Laden(m, n) && m.buffers.hand.None? && FlushedTo(m, t) && t.buffers.hand.None? && t.buffers.batch == []
    requires Oldest(Past(m, n)) < Oldest(t)
    ensures Flowing(t) && 0 < Oldest(t) <= |t.src.log| && t.buffers.checkpoint == Some(t.src.log[Oldest(t) - 1].event.lsn)
  {
    var v := Past(m, n);
    LadenFlushed(m, t, n);
    LadenSays(m, n);
    PastFlushed(m, t, n);
    FlushFlows(v, t);
    WithinLog(t);
    hide Flowing, Laden, FirstFrom, ApplyAll, Pending;
    LastOf(v);
  }

  lemma AtEnd(plan: Plan, t: Job, end: nat, k: Key)
    requires Flowing(t) && Oldest(t) == end && t.buffers.hand.None? && RowArrives(plan, t, t.src, k)
    requires t.slot < end <= |t.src.log| && end < ResumesAt(t, t.confirmed) && t.buffers.checkpoint == Some(t.src.log[end - 1].event.lsn)
    ensures RecoversRow(t.src, UpTo(t, end), ResumesAt(t, t.confirmed), k)
  {
    assert UpTo(t, end) == t.buffers.docs by {
      assert EventsFrom(t.src.log[..end], end) == [];
    }
    assert Ordered(t);
    hide Flowing, RowArrives, RecoversRow, UpTo, FirstFrom;
    EndedNeeds(plan, t, k);
    ResumesFurther(t, t.buffers.checkpoint.value, t.confirmed);
    ResumesByEvent(t, end - 1);
  }

  /** The event in hand is put into the batch, and the stream ends. */
  lemma LadenEndedNeeds(plan: Plan, j: Job, n: nat, k: Key)
    requires Laden(j, n) && !MustFlush(j.buffers) && RowArrives(plan, j, j.src, k)
    ensures j.slot <= |j.src.log| && RecoversRow(j.src, j.buffers.docs, ResumesAt(j, ResumeLsn(j)), k)
  {
    hide RowArrives, RecoversRow, FirstFrom, ApplyAll, Laden, Flowing;
    LadenSays(j, n);
    var m := j;
    if j.buffers.hand.Some? {
      m := PutNow(plan, j, n, j.src, k);
    }
    LadenSays(m, n);
    LadenCloses(plan, m, n);
    var t := Later(plan, m, BreakOff, j.src, k);
    hide Closed, Past, Carried;
    ClosedRowNeeds(plan, t, k);
  }

  lemma LadenCloses(plan: Plan, j: Job, n: nat)
    requires Laden(j, n) && j.buffers.hand.None? && Enabled(plan, j, BreakOff)
    ensures var t := Next(plan, j, BreakOff); Closed(t) && Carried(t.buffers) == []
  {
    hide KeysStay, Stretch, Pending, Known, FirstFrom, ApplyAll;
    LadenSays(j, n);
    SameOrder(Past(j, n), Next(plan, j, BreakOff));
  }

  lemma LadenRowNeeds(plan: Plan, j: Job, n: nat, k: Key)
    requires Laden(j, n) && RowArrives(plan, j, j.src, k)
    ensures RowLaden(j.src, j, n, k)
  {
    var v := Past(j, n);
    LadenSays(j, n);
    hide RowArrives, RecoversRow, Laden, Flowing, FirstFrom, UpTo, Flushable, ApplyAll, Carried, MustFlush;
    LadenOldestNeeds(plan, j, n, k);
    forall end | Flushable(v, end) && end < ResumesAt(v, v.confirmed) ensures RecoversRow(j.src, UpTo(v, end), ResumesAt(v, v.confirmed), k) {
      LadenFlushedNeeds(plan, j, n, end, k);
    }
    if |Carried(j.buffers)| == n {
      LadenAloneNeeds(plan, j, n, k);
    }
    if !MustFlush(j.buffers) {
      LadenEndedNeeds(plan, j, n, k);
    }
  }

  // ---------------------------------------------------------------- the exact conditions

  lemma SteadyGrown(j: Job, s: Source, k: Key)
    requires Flowing(j) && GrownTo(j.src, s) && RowSteady(j.src, j, k)
    ensures RowSteady(s, j, k)
  {
    WithinLog(j);
    hide Flowing, RecoversRow, RowFlows, FirstFrom;
    FlowsGrown(j, s, k);
    if !MustFlush(j.buffers) {
      RowRecoversGrown(j.src, s, j.buffers.docs, ResumesAt(j, ResumeLsn(j)), k);
    }
  }

  lemma RegainedGrown(j: Job, s: Source, k: Key)
    requires j.slot <= |j.src.log| && GrownTo(j.src, s) && RowRegained(j.src, j, k)
    ensures RowRegained(s, j, k)
  {
    hide RecoversRow, FirstFrom;
    RowRecoversGrown(j.src, s, ApplyAll(j.buffers.docs, Carried(j.buffers)), ResumesAt(j, Bound(j)), k);
    if !MustFlush(j.buffers) {
      RowRecoversGrown(j.src, s, j.buffers.docs, ResumesAt(j, ResumeLsn(j)), k);
    }
  }

  /** The sink arrives if every row does, whatever becomes of the source. */
  lemma RowsArrive(plan: Plan, j: Job)
    requires forall s, k | GrownTo(j.src, s) :: RowArrives(plan, j, s, k)
    ensures Arrives(plan, j)
  {
    hide CaughtUp, TableAt;
    forall steps, t | Leads(plan, j, steps, t, Nothing) && CaughtUp(t) ensures t.buffers.docs == TableAt(t.src, |t.src.log|) {
      RunGrows(plan, j, steps, t, Nothing);
      hide Lookup;
      forall k ensures Lookup(t.buffers.docs, k) == Lookup(TableAt(t.src, |t.src.log|), k) {
        assert RowArrives(plan, j, t.src, k);
        assert RowRight(t, k);
      }
      SameTable(t.buffers.docs, TableAt(t.src, |t.src.log|));
    }
  }

  lemma ArrivesInRow(plan: Plan, j: Job, s: Source, k: Key)
    requires Arrives(plan, j)
    ensures RowArrives(plan, j, s, k)
  {
    hide Leads, CaughtUp, TableAt;
  }

  /**
   * With the stream open, whatever position has been confirmed: the clean runs from here arrive
   * exactly when every row is steady.
   */
  lemma OpenExactly(plan: Plan, j: Job)
    requires Flowing(j)
    ensures Arrives(plan, j) <==> forall k :: RowSteady(j.src, j, k)
  {
    assert KeysStay(j.src.log);
    hide Flowing, RowArrives, RowSteady, Arrives, KeysStay;
    if Arrives(plan, j) {
      forall k ensures RowSteady(j.src, j, k) {
        ArrivesInRow(plan, j, j.src, k);
        OpenRowExactly(plan, j, k);
      }
    }
    if forall k :: RowSteady(j.src, j, k) {
      forall s, k | GrownTo(j.src, s) ensures RowArrives(plan, j, s, k) {
        SteadyGrown(j, s, k);
        OnCourseArrives(plan, j, s, k);
      }
      RowsArrive(plan, j);
    }
  }

  lemma FlowsGrown(j: Job, s: Source, k: Key)
    requires Flowing(j) && GrownTo(j.src, s) && RowFlows(j.src, j, k)
    ensures RowFlows(s, j, k)
  {
    WithinLog(j);
    hide Flowing, RecoversRow, Flushable, UpTo, FirstFrom;
    var confirmed := ResumesAt(j, j.confirmed);
    RowRecoversGrown(j.src, s, j.buffers.docs, Oldest(j), k);
    forall n | Flushable(j, n) && n < confirmed ensures RecoversRow(s, UpTo(j, n), confirmed, k) {
      RowRecoversGrown(j.src, s, UpTo(j, n), confirmed, k);
    }
  }

  lemma LadenGrown(j: Job, n: nat, s: Source, k: Key)
    requires Laden(j, n) && GrownTo(j.src, s) && RowLaden(j.src, j, n, k)
    ensures RowLaden(s, j, n, k)
  {
    LadenSays(j, n);
    hide Flowing, Laden, RecoversRow, RowFlows, FirstFrom, ApplyAll;
    FlowsGrown(Past(j, n), s, k);
    if |Carried(j.buffers)| == n {
      RowRecoversGrown(j.src, s, Past(j, n).buffers.docs, ResumesAt(j, LsnPast(j, n)), k);
    }
    if !MustFlush(j.buffers) {
      RowRecoversGrown(j.src, s, j.buffers.docs, ResumesAt(j, ResumeLsn(j)), k);
    }
  }

  /**
   * With the stream opened again while events are left over from before: the clean runs from here
   * arrive exactly when every row is steady as if these events had reached the sink, recovers from
   * where the server resumes if they are flushed alone, and without them from where it resumes if
   * they are cleared.
   */
  lemma LadenExactly(plan: Plan, j: Job, n: nat)
    requires Laden(j, n)
    ensures Arrives(plan, j) <==> forall k :: RowLaden(j.src, j, n, k)
  {
    LadenSays(j, n);
    assert KeysStay(j.src.log);
    hide Laden, Flowing, RowArrives, RowLaden, Arrives, KeysStay;
    if Arrives(plan, j) {
      forall k ensures RowLaden(j.src, j, n, k) {
        ArrivesInRow(plan, j, j.src, k);
        LadenRowNeeds(plan, j, n, k);
      }
    }
    if forall k :: RowLaden(j.src, j, n, k) {
      forall s, k | GrownTo(j.src, s) ensures RowArrives(plan, j, s, k) {
        LadenGrown(j, n, s, k);
        OnCourseArrives(plan, j, s, k);
      }
      RowsArrive(plan, j);
    }
  }

  /** From where the rows of an open stream have to recover: the oldest entry on its way, or where the server resumes, if further. */
  function Furthest(j: Job): (r: nat)
    requires Flowing(j)
    ensures Oldest(j) <= r <= |j.src.log|
  {
    if MustFlush(j.buffers) then Oldest(j) else Max(Oldest(j), ResumesAt(j, ResumeLsn(j)))
  }

  /** No confirmed position lies behind an entry that is on its way. */
  predicate InTime(j: Job) {
    Flowing(j) && Precedes(j, j.confirmed, Oldest(j))
  }

  lemma SteadyInTime(j: Job, s: Source, k: Key)
    requires InTime(j) && GrownTo(j.src, s) && KeysStay(s.log)
    ensures RowSteady(s, j, k) <==> RecoversRow(s, j.buffers.docs, Furthest(j), k)
  {
    WithinLog(j);
    ResumesBefore(j, j.confirmed, Oldest(j));
    hide Flowing, RecoversRow, FirstFrom, KeysStay, UpTo, Precedes, Oldest;
    var docs, a := j.buffers.docs, Oldest(j);
    if RecoversRow(s, docs, Furthest(j), k) {
      RowRecoversSooner(s, docs, a, Furthest(j), k);
      if !MustFlush(j.buffers) {
        RowRecoversSooner(s, docs, ResumesAt(j, ResumeLsn(j)), Furthest(j), k);
      }
    }
  }

  /**
   * With the stream open and no position confirmed too early: the clean runs from here arrive
   * exactly when every row that the log leaves alone, from the oldest entry on its way or from where
   * the server resumes if that is further, is in the sink as the source had it there.
   */
  lemma StreamingExactly(plan: Plan, j: Job)
    requires InTime(j)
    ensures Arrives(plan, j) <==> Recovers(j.src, j.buffers.docs, Furthest(j))
  {
    assert KeysStay(j.src.log);
    OpenExactly(plan, j);
    hide InTime, RecoversRow, Arrives, KeysStay, RowSteady, Furthest;
    forall k ensures RowSteady(j.src, j, k) <==> RecoversRow(j.src, j.buffers.docs, Furthest(j), k) {
      SteadyInTime(j, j.src, k);
    }
  }

  /**
   * With the stream closed, the clean runs from here arrive exactly when the rows recover from the
   * furthest index that the server may resume at, with the events left over already in the sink, and,
   * unless the processor has to flush them, also from where the server resumes now without these
   * events, which a further reset may clear.
   */
  lemma ClosedExactly(plan: Plan, j: Job)
    requires Closed(j)
    ensures j.slot <= |j.src.log|
    ensures Arrives(plan, j) <==>
            && Recovers(j.src, ApplyAll(j.buffers.docs, Carried(j.buffers)), ResumesAt(j, Bound(j)))
            && (!MustFlush(j.buffers) ==> Recovers(j.src, j.buffers.docs, ResumesAt(j, ResumeLsn(j))))
  {
    ClosedSays(j);
    assert KeysStay(j.src.log);
    hide Closed, RowArrives, RowRegained, Arrives, KeysStay, RecoversRow, FirstFrom, ApplyAll;
    RegainedRows(j);
    if Arrives(plan, j) {
      forall k ensures RowRegained(j.src, j, k) {
        ArrivesInRow(plan, j, j.src, k);
        ClosedRowExactly(plan, j, k);
      }
    } else if forall k :: RowRegained(j.src, j, k) {
      forall s, k | GrownTo(j.src, s) ensures RowArrives(plan, j, s, k) {
        RegainedGrown(j, s, k);
        OnCourseArrives(plan, j, s, k);
      }
      RowsArrive(plan, j);
    }
  }

  lemma RegainedRows(j: Job)
    requires j.slot <= |j.src.log|
    ensures (forall k :: RowRegained(j.src, j, k)) <==>
            && Recovers(j.src, ApplyAll(j.buffers.docs, Carried(j.buffers)), ResumesAt(j, Bound(j)))
            && (!MustFlush(j.buffers) ==> Recovers(j.src, j.buffers.docs, ResumesAt(j, ResumeLsn(j))))
  {
    hide RecoversRow, FirstFrom, ApplyAll, Carried, Bound, ResumesAt, ResumeLsn, MustFlush;
    if forall k :: RowRegained(j.src, j, k) {
      forall k ensures RecoversRow(j.src, ApplyAll(j.buffers.docs, Carried(j.buffers)), ResumesAt(j, Bound(j)), k)
                    && (!MustFlush(j.buffers) ==> RecoversRow(j.src, j.buffers.docs, ResumesAt(j, ResumeLsn(j)), k))
      {
        assert RowRegained(j.src, j, k);
      }
    }
  }
}
