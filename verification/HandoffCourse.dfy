/**
 * What a clean run makes of a row. Nothing is asked of how a job has come to its state: what its
 * sink holds, what is on its way there and where the log may be read on from say whether a row is on
 * course to what it is in the source. Every clean step keeps the course, so that the row is right
 * whenever the job has caught up, after any number of restarts.
 */
module HandoffCourse {
  import opened Wrappers
  import opened Pipeline
  import opened Replay
  import opened Handoff
  import opened HandoffRuns

  // ---------------------------------------------------------------- arriving

  /** However the run goes on, as long as it is clean: whenever it has caught up with the log, the sink is the source's table. */
  ghost predicate Arrives(plan: Plan, j: Job) {
    forall steps, t :: Leads(plan, j, steps, t, Nothing) && CaughtUp(t) ==> t.buffers.docs == TableAt(t.src, |t.src.log|)
  }

  /** The row is as in the source. */
  predicate RowRight(j: Job, k: Key) {
    Lookup(j.buffers.docs, k) == ValueAt(j.src, |j.src.log|, k)
  }

  /** Every clean run that has caught up with this source has this row right. */
  ghost predicate RowArrives(plan: Plan, j: Job, s: Source, k: Key) {
    forall steps, t :: Leads(plan, j, steps, t, Nothing) && CaughtUp(t) && t.src == s ==> RowRight(t, k)
  }

  /** The invariant is enough to arrive. */
  lemma InvArrives(plan: Plan, j: Job)
    requires Inv(plan, j)
    ensures Arrives(plan, j)
  {
    hide Inv, CaughtUp, TableAt;
    forall steps, t | Leads(plan, j, steps, t, Nothing) && CaughtUp(t) ensures t.buffers.docs == TableAt(t.src, |t.src.log|) {
      RunKeeps(plan, j, steps, t);
      CaughtUpAgrees(plan, t);
    }
  }

  lemma {:induction false} LeadsOn(plan: Plan, j: Job, steps: seq<Step>, m: Job, rest: seq<Step>, t: Job, excuse: Excuse)
    requires Leads(plan, j, steps, m, excuse) && Leads(plan, m, rest, t, excuse)
    ensures Leads(plan, j, steps + rest, t, excuse)
    decreases |steps|
  {
    hide Enabled, Clean, Next, Excused;
    var all := steps + rest;
    if steps == [] {
      assert all == rest;
    } else {
      assert all[0] == steps[0] && all[1..] == steps[1..] + rest;
      LeadsOn(plan, Next(plan, j, steps[0]), steps[1..], m, rest, t, excuse);
    }
  }

  lemma RowArrivesLater(plan: Plan, j: Job, steps: seq<Step>, t: Job, s: Source, k: Key)
    requires RowArrives(plan, j, s, k) && Leads(plan, j, steps, t, Nothing)
    ensures RowArrives(plan, t, s, k)
  {
    hide CaughtUp, RowRight;
    forall rest, end | Leads(plan, t, rest, end, Nothing) && CaughtUp(end) && end.src == s ensures RowRight(end, k) {
      LeadsOn(plan, j, steps, t, rest, end, Nothing);
    }
  }

  // ---------------------------------------------------------------- where the log may be read on from

  /** The first index from `a` on whose entry was committed at the position or behind it. */
  function FirstFrom(log: seq<Entry>, a: nat, lsn: nat): (r: nat)
    requires a <= |log|
    ensures a <= r <= |log|
    ensures forall i | a <= i < r :: log[i].commitLsn < lsn
    ensures r < |log| ==> lsn <= log[r].commitLsn
    decreases |log| - a
  {
    if a < |log| && log[a].commitLsn < lsn then FirstFrom(log, a + 1, lsn) else a
  }

  /** The furthest index that the server begins at when it is sent to this position. */
  function ResumesAt(j: Job, lsn: nat): (r: nat)
    requires j.slot <= |j.src.log|
    ensures r <= |j.src.log|
  {
    FirstFrom(j.src.log, j.slot, lsn)
  }

  lemma {:induction false} FirstFromFurther(log: seq<Entry>, a: nat, lsn: nat, lsn': nat)
    requires a <= |log| && lsn <= lsn'
    ensures FirstFrom(log, a, lsn) <= FirstFrom(log, a, lsn')
    decreases |log| - a
  {
    if a < |log| && log[a].commitLsn < lsn {
      FirstFromFurther(log, a + 1, lsn, lsn');
    }
  }

  lemma {:induction false} FirstFromKept(log: seq<Entry>, e: Entry, a: nat, lsn: nat)
    requires a <= |log| && lsn <= e.commitLsn
    ensures FirstFrom(log + [e], a, lsn) == FirstFrom(log, a, lsn)
    decreases |log| - a
  {
    if a < |log| && log[a].commitLsn < lsn {
      FirstFromKept(log, e, a + 1, lsn);
    }
  }

  lemma ResumesFurther(j: Job, lsn: nat, lsn': nat)
    requires j.slot <= |j.src.log|
    ensures ResumesAt(j, Max(lsn, lsn')) == Max(ResumesAt(j, lsn), ResumesAt(j, lsn'))
  {
    if lsn <= lsn' {
      FirstFromFurther(j.src.log, j.slot, lsn, lsn');
    } else {
      FirstFromFurther(j.src.log, j.slot, lsn', lsn);
    }
  }

  lemma ResumesBefore(j: Job, lsn: nat, a: nat)
    requires j.slot <= a <= |j.src.log| && Precedes(j, lsn, a)
    ensures ResumesAt(j, lsn) <= a
  {
    if a < |j.src.log| {
      assert lsn <= j.src.log[a].commitLsn;
    }
  }

  /** An event's own LSN makes the server begin at its entry or before. */
  lemma ResumesByEvent(j: Job, i: nat)
    requires Ordered(j) && j.slot <= i < |j.src.log|
    ensures ResumesAt(j, j.src.log[i].event.lsn) <= i
  {
  }

  lemma ResumesFurthest(j: Job, r: nat)
    requires Ordered(j) && j.slot <= |j.src.log| && r == ResumesAt(j, ResumeLsn(j))
    ensures Resumable(j, r)
  {
  }

  // ---------------------------------------------------------------- catching up

  /** The source has gone on from `a` to `b`. */
  predicate GrownTo(a: Source, b: Source) {
    a.base == b.base && a.log <= b.log
  }

  lemma {:induction false} RowRecoversGrown(a: Source, b: Source, docs: Table, r: nat, k: Key)
    requires GrownTo(a, b) && r <= |a.log| && RecoversRow(a, docs, r, k)
    ensures RecoversRow(b, docs, r, k)
    decreases |b.log| - |a.log|
  {
    hide RecoversRow;
    if a.log == b.log {
    } else {
      var n := |b.log| - 1;
      var before := b.(log := b.log[..n]);
      assert b == before.(log := before.log + [b.log[n]]);
      RowRecoversGrown(a, before, docs, r, k);
      RowRecoversKept(before, b.log[n], docs, r, k);
    }
  }

  /** What the sink comes to once everything on its way has reached it. */
  function Due(b: Buffers): Table {
    ApplyAll(b.docs, Pending(b))
  }

  predicate Streaming(j: Job) {
    j.mode.Reading? && KeysStay(j.src.log) && j.pos <= |j.src.log|
  }

  lemma DueOffered(b: Buffers, e: ChangeEvent)
    ensures Due(Offer(b, e)) == Apply(Due(b), e)
  {
    var all := Pending(b) + [e];
    assert Pending(Offer(b, e)) == all && all[..|all| - 1] == Pending(b);
    hide Apply, Pending;
  }

  lemma DueTaken(b: Buffers)
    requires b.queue != [] && b.hand.None?
    ensures Due(Take(b)) == Due(b)
  {
    assert b.queue == [b.queue[0]] + b.queue[1..];
    assert Pending(Take(b)) == Pending(b);
    hide ApplyAll;
  }

  lemma DueFlushed(b: Buffers, o: Outcome)
    requires Fits(o, b.batch) && (b.batch != [] ==> Smooth(o, b.batch))
    ensures Due(Flush(b, o)) == Due(b)
  {
    if b.batch != [] {
      SmoothFlush(b, o);
      var rest := (if b.hand.Some? then [b.hand.value] else []) + b.queue;
      assert Pending(b) == b.batch + rest && Pending(Flush(b, o)) == rest;
      AppliedInTwo(b.docs, b.batch, rest);
      hide Flush;
    }
  }

  lemma DuePut(b: Buffers, o: Outcome)
    requires b.hand.Some? && Fits(o, b.batch + [b.hand.value]) && (|b.batch| + 1 >= BATCH_SIZE ==> Smooth(o, b.batch + [b.hand.value]))
    ensures Due(Put(b, o)) == Due(b)
  {
    assert Pending(Append(b)) == Pending(b);
    hide Flush, Pending, ApplyAll;
    if IsFull(Append(b)) {
      DueFlushed(Append(b), o);
    }
  }

  /** A step towards catching up settles for no row whether it recovers. */
  lemma TowardsRecovers(plan: Plan, j: Job, k: Key)
    requires Streaming(j) && Backlog(j) > 0 && Enabled(plan, j, NextTowards(j))
    ensures var t := Next(plan, j, NextTowards(j));
            && Streaming(t) && t.src == j.src
            && (RecoversRow(j.src, Due(t.buffers), t.pos, k) <==> RecoversRow(j.src, Due(j.buffers), j.pos, k))
  {
    hide Due, Pending, RecoversRow, Flush, Put, Fits, Smooth;
    match NextTowards(j)
    case OfferNext =>
      DueOffered(j.buffers, j.src.log[j.pos].event);
      RowRecoversOn(j.src, Due(j.buffers), j.pos, k);
    case TakeNext => DueTaken(j.buffers);
    case PutNext(o) => DuePut(j.buffers, o);
    case Tick(o) => DueFlushed(j.buffers, o);
  }

  lemma RowAtEnd(j: Job, k: Key)
    requires CaughtUp(j)
    ensures RecoversRow(j.src, Due(j.buffers), j.pos, k) <==> RowRight(j, k)
  {
    assert EventsFrom(j.src.log, j.pos) == [];
    assert Due(j.buffers) == j.buffers.docs;
  }

  /** Clean steps of the job alone catch up, and then have a row right exactly when it recovers. */
  lemma {:induction false} CatchesUp(plan: Plan, j: Job, k: Key) returns (steps: seq<Step>, t: Job)
    requires Streaming(j)
    ensures Leads(plan, j, steps, t, Nothing) && CaughtUp(t) && t.src == j.src
    ensures RowRight(t, k) <==> RecoversRow(j.src, Due(j.buffers), j.pos, k)
    decreases Backlog(j)
  {
    hide RecoversRow, Due, RowRight;
    if Backlog(j) == 0 {
      steps, t := [], j;
      RowAtEnd(j, k);
    } else {
      StepTowards(plan, j);
      TowardsRecovers(plan, j, k);
      var step, rest := NextTowards(j), [];
      hide Next, Enabled, Clean, NextTowards, Backlog, CaughtUp;
      rest, t := CatchesUp(plan, Next(plan, j, step), k);
      steps := [step] + rest;
      assert steps[1..] == rest;
    }
  }

  // ---------------------------------------------------------------- three kinds of states

  /** What a reset does not reach, or only clears: the batch and the event in the processor's hand. */
  function Carried(b: Buffers): seq<ChangeEvent> {
    b.batch + if b.hand.Some? then [b.hand.value] else []
  }

  function Oldest(j: Job): int {
    j.pos - |Pending(j.buffers)|
  }

  /** The stream is open, and what is on its way is a stretch of the log that ends at the reader's position. */
  predicate Flowing(j: Job) {
    && Streaming(j) && Ordered(j) && j.slot <= Oldest(j)
    && Stretch(j.src.log, Oldest(j), Pending(j.buffers))
  }

  /** An event that has been read from the log is stamped no later than the last commit. */
  predicate Known(log: seq<Entry>, e: ChangeEvent) {
    log != [] && e.lsn <= log[|log| - 1].commitLsn
  }

  predicate AllKnown(log: seq<Entry>, events: seq<ChangeEvent>) {
    forall e <- events :: Known(log, e)
  }

  /** The stream is closed; a processor that overlaps with the reset may have left any number of events beside the channel. */
  predicate Closed(j: Job) {
    && (j.mode.Draining? || (j.mode.Waiting? && j.buffers.queue == []))
    && KeysStay(j.src.log) && Ordered(j) && j.slot <= |j.src.log|
    && AllKnown(j.src.log, Carried(j.buffers))
  }

  /** The job as if the first `n` events beside the channel had reached the sink. */
  function Past(j: Job, n: nat): Job
    requires n <= |Carried(j.buffers)|
  {
    var b := j.buffers;
    j.(buffers := b.(docs := ApplyAll(b.docs, Carried(b)[..n]),
                     batch := if n <= |b.batch| then b.batch[n..] else [],
                     hand := if n <= |b.batch| then b.hand else None))
  }

  /** The stream has been opened again, and the first `n` events on their way are left over from before. */
  predicate Laden(j: Job, n: nat) {
    && 0 < n <= |Carried(j.buffers)| && AllKnown(j.src.log, Carried(j.buffers)[..n])
    && Flowing(Past(j, n)) && Oldest(Past(j, n)) <= ResumesAt(j, ResumeLsn(j))
  }

  /** The next event fills the batch: the processor cannot let go of it without a flush. */
  predicate MustFlush(b: Buffers) {
    b.hand.Some? && |b.batch| + 1 >= BATCH_SIZE
  }

  /** A flush may end in front of this index. */
  predicate Flushable(j: Job, n: int) {
    Oldest(j) < n && Oldest(j) + |Carried(j.buffers)| <= n <= |j.src.log|
  }

  /** The sink once everything in front of this index has been flushed. */
  function UpTo(j: Job, n: nat): Table
    requires Flowing(j) && Oldest(j) <= n <= |j.src.log|
  {
    ApplyAll(j.buffers.docs, EventsFrom(j.src.log[..n], Oldest(j)))
  }

  /**
   * The row recovers from the oldest entry on its way, and, where a confirmed position lies behind
   * entries on their way, from there after each flush that may come before it.
   */
  ghost predicate RowFlows(s: Source, j: Job, k: Key)
    requires Flowing(j) && GrownTo(j.src, s)
  {
    var confirmed := ResumesAt(j, j.confirmed);
    && RecoversRow(s, j.buffers.docs, Oldest(j), k)
    && forall n | Flushable(j, n) && n < confirmed :: RecoversRow(s, UpTo(j, n), confirmed, k)
  }

  /** With the stream open: besides, the row recovers from where the server resumes if the stream ends now. */
  ghost predicate RowSteady(s: Source, j: Job, k: Key)
    requires Flowing(j) && GrownTo(j.src, s)
  {
    RowFlows(s, j, k) && (!MustFlush(j.buffers) ==> RecoversRow(s, j.buffers.docs, ResumesAt(j, ResumeLsn(j)), k))
  }

  /** The position that the server resumes by once exactly the first `n` events have been flushed. */
  function LsnPast(j: Job, n: nat): nat
    requires 0 < n <= |Carried(j.buffers)|
  {
    Max(Carried(j.buffers)[n - 1].lsn, j.confirmed)
  }

  /**
   * With the stream opened again and events left over: the row is steady as if these had reached
   * the sink; besides it recovers from where the server resumes if they are flushed alone, and
   * without them from where it resumes if they are cleared by a further reset.
   */
  ghost predicate RowLaden(s: Source, j: Job, n: nat, k: Key)
    requires Laden(j, n) && GrownTo(j.src, s)
  {
    && RowFlows(s, Past(j, n), k)
    && (|Carried(j.buffers)| == n ==> RecoversRow(s, Past(j, n).buffers.docs, ResumesAt(j, LsnPast(j, n)), k))
    && (!MustFlush(j.buffers) ==> RecoversRow(s, j.buffers.docs, ResumesAt(j, ResumeLsn(j)), k))
  }

  /** The furthest position that the server may be made to begin at: asked for now, or once the events left over are flushed. */
  function Bound(j: Job): nat {
    var carried := Carried(j.buffers);
    Max(ResumeLsn(j), if carried == [] then 0 else carried[|carried| - 1].lsn)
  }

  /**
   * With the stream closed: the row recovers from the furthest index that the server may resume at,
   * the events left over having reached the sink, and without them from where it resumes now if a
   * further reset may clear them.
   */
  predicate RowRegained(s: Source, j: Job, k: Key)
    requires j.slot <= |j.src.log| && GrownTo(j.src, s)
  {
    && RecoversRow(s, ApplyAll(j.buffers.docs, Carried(j.buffers)), ResumesAt(j, Bound(j)), k)
    && (!MustFlush(j.buffers) ==> RecoversRow(s, j.buffers.docs, ResumesAt(j, ResumeLsn(j)), k))
  }

  /** The row is on course to what it is at the end of this source. */
  ghost predicate OnCourse(s: Source, j: Job, k: Key) {
    GrownTo(j.src, s) &&
    ((Flowing(j) && RowSteady(s, j, k)) || (Closed(j) && RowRegained(s, j, k)) || exists n :: Laden(j, n) && RowLaden(s, j, n, k))
  }

  // ---------------------------------------------------------------- every clean step keeps the course: open

  /** Nothing has changed that the condition of an open stream speaks of. */
  lemma StillFlows(s: Source, j: Job, t: Job, k: Key)
    requires Flowing(j) && Flowing(t) && GrownTo(j.src, s) && RowFlows(s, j, k)
    requires t == j.(buffers := t.buffers, pos := t.pos, far := t.far, lo := t.lo)
    requires t.buffers.docs == j.buffers.docs && Oldest(t) == Oldest(j) && |Carried(j.buffers)| <= |Carried(t.buffers)|
    ensures RowFlows(s, t, k)
  {
    WithinLog(j);
    hide RecoversRow, Flowing, Oldest, FirstFrom, Carried, ApplyAll, EventsFrom;
    var confirmed := ResumesAt(t, t.confirmed);
    forall n | Flushable(t, n) && n < confirmed ensures RecoversRow(s, UpTo(t, n), confirmed, k) {
      assert Flushable(j, n) && UpTo(t, n) == UpTo(j, n);
    }
  }

  lemma StillSteady(s: Source, j: Job, t: Job, k: Key)
    requires Flowing(j) && Flowing(t) && GrownTo(j.src, s) && RowSteady(s, j, k)
    requires t == j.(buffers := t.buffers, pos := t.pos, far := t.far, lo := t.lo)
    requires t.buffers.docs == j.buffers.docs && t.buffers.checkpoint == j.buffers.checkpoint && Oldest(t) == Oldest(j)
    requires |Carried(j.buffers)| <= |Carried(t.buffers)| && !MustFlush(j.buffers)
    ensures RowSteady(s, t, k)
  {
    hide RecoversRow, Flowing, Oldest, FirstFrom, Carried, RowFlows, MustFlush;
    StillFlows(s, j, t, k);
  }

  lemma OfferFlows(plan: Plan, j: Job)
    requires Flowing(j) && Enabled(plan, j, OfferNext)
    ensures var t := Next(plan, j, OfferNext); Flowing(t) && Oldest(t) == Oldest(j) && Carried(t.buffers) == Carried(j.buffers)
  {
    assert Pending(Next(plan, j, OfferNext).buffers) == Pending(j.buffers) + [j.src.log[j.pos].event];
    hide KeysStay, Ordered, Pending;
  }

  lemma SteadyOffer(plan: Plan, j: Job, s: Source, k: Key)
    requires Flowing(j) && Enabled(plan, j, OfferNext) && GrownTo(j.src, s) && RowSteady(s, j, k)
    ensures OnCourse(s, Next(plan, j, OfferNext), k)
  {
    var t := Next(plan, j, OfferNext);
    OfferFlows(plan, j);
    hide Flowing, RecoversRow, FirstFrom, Oldest, Carried;
    StillFlows(s, j, t, k);
    hide RowFlows;
  }

  lemma TakeFlows(plan: Plan, j: Job)
    requires Flowing(j) && Enabled(plan, j, TakeNext)
    ensures var t := Next(plan, j, TakeNext); Flowing(t) && Oldest(t) == Oldest(j) && |Carried(j.buffers)| <= |Carried(t.buffers)|
  {
    assert Pending(Take(j.buffers)) == Pending(j.buffers) by {
      assert j.buffers.queue == [j.buffers.queue[0]] + j.buffers.queue[1..];
    }
    hide KeysStay, Ordered, Pending, Stretch;
  }

  lemma SteadyTake(plan: Plan, j: Job, s: Source, k: Key)
    requires Flowing(j) && Enabled(plan, j, TakeNext) && GrownTo(j.src, s) && RowSteady(s, j, k)
    ensures OnCourse(s, Next(plan, j, TakeNext), k)
  {
    TakeFlows(plan, j);
    hide Flowing, RecoversRow, FirstFrom, Oldest, Carried, RowSteady;
    StillSteady(s, j, Next(plan, j, TakeNext), k);
  }

  lemma SteadyConfirm(plan: Plan, j: Job, position: nat, s: Source, k: Key)
    requires Flowing(j) && Enabled(plan, j, Confirm(position)) && Clean(j, Confirm(position))
    requires GrownTo(j.src, s) && RowSteady(s, j, k) && KeysStay(s.log)
    ensures OnCourse(s, Next(plan, j, Confirm(position)), k)
  {
    var t := Next(plan, j, Confirm(position));
    assert Flowing(t) && Oldest(t) == Oldest(j) && Precedes(j, position, Oldest(j)) by {
      hide KeysStay, Stretch, RowSteady;
    }
    assert j.slot <= Oldest(j) <= |j.src.log| && KeysStay(j.src.log);
    hide Flowing, RecoversRow, FirstFrom, Oldest, KeysStay, Precedes, ApplyAll, EventsFrom, Enabled, Clean;
    if position > j.confirmed {
      ResumesBefore(j, position, Oldest(j));
      ResumesFurther(j, Requested(j), position);
      ConfirmFlows(s, j, t, k);
      if !MustFlush(j.buffers) {
        ConfirmResumes(s, j, t, position, k);
      }
    } else {
      assert t == j;
    }
  }

  lemma ConfirmFlows(s: Source, j: Job, t: Job, k: Key)
    requires Flowing(j) && Flowing(t) && t == j.(confirmed := t.confirmed) && Oldest(t) == Oldest(j)
    requires GrownTo(j.src, s) && RowFlows(s, j, k) && ResumesAt(t, t.confirmed) <= Oldest(t)
    ensures RowFlows(s, t, k)
  {
    hide Flowing, RecoversRow, FirstFrom, ResumesAt;
  }

  /** A position that precedes everything on its way takes the server no further than the oldest entry. */
  lemma ConfirmResumes(s: Source, j: Job, t: Job, position: nat, k: Key)
    requires Flowing(j) && t == j.(confirmed := position) && position > j.confirmed && GrownTo(j.src, s)
    requires RecoversRow(s, j.buffers.docs, Oldest(j), k) && RecoversRow(s, j.buffers.docs, ResumesAt(j, ResumeLsn(j)), k)
    requires ResumesAt(j, position) <= Oldest(j) && KeysStay(s.log) && Oldest(j) <= |j.src.log|
    ensures RecoversRow(s, j.buffers.docs, ResumesAt(t, ResumeLsn(t)), k)
  {
    assert j.slot <= |j.src.log|;
    hide Flowing, RecoversRow, FirstFrom, Oldest, KeysStay;
    var docs, r := j.buffers.docs, ResumesAt(j, Max(Requested(j), position));
    ResumesFurther(j, Requested(j), position);
    assert r == ResumesAt(t, ResumeLsn(t));
    if r == ResumesAt(j, position) {
      RowRecoversSooner(s, docs, r, Oldest(j), k);
    } else {
      ResumesFurther(j, Requested(j), j.confirmed);
      RowRecoversSooner(s, docs, r, ResumesAt(j, ResumeLsn(j)), k);
    }
  }

  lemma WriteFlows(plan: Plan, j: Job, entry: Entry)
    requires Flowing(j) && Enabled(plan, j, Write(entry)) && Clean(j, Write(entry))
    ensures var t := Next(plan, j, Write(entry));
            && Flowing(t) && Oldest(t) == Oldest(j) && GrownTo(j.src, t.src)
            && ResumesAt(t, ResumeLsn(t)) == ResumesAt(j, ResumeLsn(j)) && ResumesAt(t, t.confirmed) == ResumesAt(j, j.confirmed)
  {
    var t := Next(plan, j, Write(entry));
    StretchKept(j.src.log, entry, Oldest(j), Pending(j.buffers));
    assert Ordered(t) && KeysStay(t.src.log) by {
      hide Stretch, Pending;
    }
    WithinLog(j);
    hide Stretch, Pending, KeysStay, Ordered;
    assert Flowing(t) && Oldest(t) == Oldest(j);
    hide Flowing, Oldest, FirstFrom;
    FirstFromKept(j.src.log, entry, j.slot, ResumeLsn(j));
    FirstFromKept(j.src.log, entry, j.slot, j.confirmed);
  }

  lemma UpToKept(j: Job, t: Job, n: nat)
    requires Flowing(j) && Flowing(t) && Oldest(t) == Oldest(j) <= n <= |j.src.log| && GrownTo(j.src, t.src) && t.buffers == j.buffers
    ensures UpTo(t, n) == UpTo(j, n)
  {
    hide Flowing, Oldest;
    assert t.src.log[..n] == j.src.log[..n];
  }

  lemma FlowsWrite(plan: Plan, j: Job, entry: Entry, s: Source, k: Key)
    requires Flowing(j) && Enabled(plan, j, Write(entry)) && Clean(j, Write(entry)) && GrownTo(Next(plan, j, Write(entry)).src, s)
    ensures Flowing(Next(plan, j, Write(entry))) && GrownTo(j.src, s)
    ensures RowFlows(s, Next(plan, j, Write(entry)), k) <==> RowFlows(s, j, k)
  {
    var t := Next(plan, j, Write(entry));
    WriteFlows(plan, j, entry);
    WithinLog(j);
    assert ResumesAt(j, j.confirmed) <= |j.src.log| && Carried(t.buffers) == Carried(j.buffers);
    hide Flowing, RecoversRow, FirstFrom, ResumesAt, UpTo, Carried, Oldest, Enabled, Clean;
    var c := ResumesAt(j, j.confirmed);
    forall n | n < c && (Flushable(j, n) || Flushable(t, n)) ensures Flushable(j, n) && Flushable(t, n) && UpTo(t, n) == UpTo(j, n) {
      UpToKept(j, t, n);
    }
  }

  lemma SteadyWrite(plan: Plan, j: Job, entry: Entry, s: Source, k: Key)
    requires Flowing(j) && Enabled(plan, j, Write(entry)) && Clean(j, Write(entry)) && GrownTo(Next(plan, j, Write(entry)).src, s)
    ensures Flowing(Next(plan, j, Write(entry))) && GrownTo(j.src, s)
    ensures RowSteady(s, Next(plan, j, Write(entry)), k) <==> RowSteady(s, j, k)
  {
    WriteFlows(plan, j, entry);
    FlowsWrite(plan, j, entry, s, k);
    WithinLog(j);
    hide Flowing, RowFlows, RecoversRow, FirstFrom, ResumesAt, Enabled, Clean;
  }

  lemma SteadyBreakOff(plan: Plan, j: Job, s: Source, k: Key)
    requires Flowing(j) && Enabled(plan, j, BreakOff) && Clean(j, BreakOff) && GrownTo(j.src, s)
    requires RecoversRow(s, j.buffers.docs, ResumesAt(j, ResumeLsn(j)), k)
    ensures var t := Next(plan, j, BreakOff); Closed(t) && Carried(t.buffers) == [] && RowRegained(s, t, k)
  {
    hide RecoversRow, FirstFrom, Stretch, KeysStay, Pending;
    var t := Next(plan, j, BreakOff);
    assert ApplyAll(t.buffers.docs, []) == t.buffers.docs;
  }

  /** What a flush from an open stream makes of the rest. */
  lemma FlushFlows(j: Job, t: Job)
    requires Flowing(j) && j.buffers.hand.None? && FlushedTo(j, t)
    ensures var n := Oldest(j) + |j.buffers.batch|;
            && Flowing(t) && Oldest(t) == n && Stretch(j.src.log, Oldest(j), j.buffers.batch)
            && ResumesAt(j, j.buffers.batch[|j.buffers.batch| - 1].lsn) < n
  {
    var a, b := Oldest(j), j.buffers.batch;
    StretchSplit(j.src.log, a, b, Pending(t.buffers));
    assert b[|b| - 1] == j.src.log[a + |b| - 1].event;
    hide Pending, ApplyAll, FirstFrom, ResumesAt;
    ResumesByEvent(j, a + |b| - 1);
    hide Stretch, KeysStay;
  }

  lemma UpToOn(j: Job, t: Job, n: nat)
    requires Flowing(j) && Flowing(t) && j.buffers.hand.None? && FlushedTo(j, t) && Stretch(j.src.log, Oldest(j), j.buffers.batch)
    requires Oldest(t) == Oldest(j) + |j.buffers.batch| <= n <= |j.src.log|
    ensures UpTo(t, n) == UpTo(j, n)
  {
    var log, a, b := j.src.log[..n], Oldest(j), j.buffers.batch;
    assert EventsFrom(log, a) == b + EventsFrom(log, Oldest(t));
    hide Flowing, Oldest, Stretch, ApplyAll, EventsFrom;
    AppliedInTwo(j.buffers.docs, b, EventsFrom(log, Oldest(t)));
  }

  lemma StretchGrown(a: Source, b: Source, at: int, events: seq<ChangeEvent>)
    requires GrownTo(a, b) && Stretch(a.log, at, events)
    ensures Stretch(b.log, at, events) && at + |events| <= |a.log| <= |b.log|
  {
  }

  lemma FlushableOn(j: Job, t: Job, m: int)
    requires Flowing(j) && j.buffers.hand.None? && FlushedTo(j, t) && Oldest(t) == Oldest(j) + |j.buffers.batch|
    ensures Flushable(t, m) ==> Flushable(j, m)
    ensures Oldest(t) <= |j.src.log| ==> Flushable(j, Oldest(t))
  {
    hide Flowing, Oldest;
  }

  /** After a flush the sink is as it was foreseen for this index. */
  lemma AtFlush(j: Job, t: Job)
    requires Flowing(j) && Flowing(t) && j.buffers.hand.None? && FlushedTo(j, t) && Stretch(j.src.log, Oldest(j), j.buffers.batch)
    requires Oldest(t) == Oldest(j) + |j.buffers.batch|
    ensures Oldest(t) <= |j.src.log| && UpTo(j, Oldest(t)) == t.buffers.docs
  {
    UpToOn(j, t, Oldest(t));
    assert EventsFrom(j.src.log[..Oldest(t)], Oldest(t)) == [];
  }

  lemma FlushRecovers(j: Job, t: Job, s: Source, k: Key)
    requires Flowing(j) && j.buffers.hand.None? && FlushedTo(j, t) && Flowing(t) && Oldest(t) == Oldest(j) + |j.buffers.batch|
    requires Stretch(j.src.log, Oldest(j), j.buffers.batch)
    requires GrownTo(j.src, s) && KeysStay(s.log) && RecoversRow(s, j.buffers.docs, Oldest(j), k)
    ensures RecoversRow(s, t.buffers.docs, Oldest(t), k)
  {
    StretchGrown(j.src, s, Oldest(j), j.buffers.batch);
    assert 0 <= Oldest(j);
    hide Flowing, Oldest, RecoversRow, ApplyAll, Stretch, KeysStay;
    RowRecoversAcross(s, j.buffers.docs, Oldest(j), j.buffers.batch, k);
  }

  /** What held of the flushes that might have come holds of the ones that may still come. */
  lemma FlushesOn(j: Job, t: Job, s: Source, k: Key)
    requires Flowing(j) && j.buffers.hand.None? && FlushedTo(j, t) && Flowing(t) && Oldest(t) == Oldest(j) + |j.buffers.batch|
    requires Stretch(j.src.log, Oldest(j), j.buffers.batch) && ResumesAt(t, t.confirmed) == ResumesAt(j, j.confirmed)
    requires GrownTo(j.src, s) && KeysStay(s.log) && RowFlows(s, j, k)
    ensures RowFlows(s, t, k)
    ensures Oldest(t) < ResumesAt(j, j.confirmed) ==> RecoversRow(s, t.buffers.docs, ResumesAt(j, j.confirmed), k)
  {
    var c := ResumesAt(j, j.confirmed);
    hide Oldest, ResumesAt, Stretch, KeysStay, ApplyAll, EventsFrom, RecoversRow;
    FlushRecovers(j, t, s, k);
    AtFlush(j, t);
    FlushableOn(j, t, Oldest(t));
    forall m | Flushable(t, m) && m < c ensures RecoversRow(s, UpTo(t, m), c, k) {
      FlushableOn(j, t, m);
      UpToOn(j, t, m);
    }
  }

  lemma SteadyFlush(j: Job, t: Job, s: Source, k: Key)
    requires Flowing(j) && j.buffers.hand.None? && FlushedTo(j, t) && t.buffers.hand.None?
    requires GrownTo(j.src, s) && KeysStay(s.log) && RowFlows(s, j, k)
    ensures Flowing(t) && RowSteady(s, t, k)
  {
    FlushFlows(j, t);
    hide Flowing, RecoversRow, FirstFrom, KeysStay, Oldest, ApplyAll, Stretch;
    FlushesOn(j, t, s, k);
    assert t.slot <= |t.src.log| && Oldest(t) <= |t.src.log| by {
      WithinLog(t);
    }
    FlushResumes(j, t, s, Oldest(t), k);
  }

  lemma WithinLog(j: Job)
    requires Flowing(j)
    ensures j.slot <= Oldest(j) <= |j.src.log|
  {
  }

  lemma FlushResumes(j: Job, t: Job, s: Source, n: nat, k: Key)
    requires Flowing(j) && FlushedTo(j, t) && GrownTo(j.src, s) && KeysStay(s.log) && n <= |j.src.log|
    requires ResumesAt(j, j.buffers.batch[|j.buffers.batch| - 1].lsn) < n && RecoversRow(s, t.buffers.docs, n, k)
    requires n < ResumesAt(j, j.confirmed) ==> RecoversRow(s, t.buffers.docs, ResumesAt(j, j.confirmed), k)
    ensures j.slot <= |j.src.log| && RecoversRow(s, t.buffers.docs, ResumesAt(t, ResumeLsn(t)), k)
  {
    var last := j.buffers.batch[|j.buffers.batch| - 1].lsn;
    assert j.slot <= |j.src.log|;
    ResumesFurther(j, last, j.confirmed);
    hide Flowing, RecoversRow, KeysStay, FirstFrom;
    var r := ResumesAt(t, ResumeLsn(t));
    assert r == ResumesAt(j, Max(last, j.confirmed));
    if r <= n {
      RowRecoversSooner(s, t.buffers.docs, r, n, k);
    }
  }

  lemma SteadyPut(plan: Plan, j: Job, o: Outcome, s: Source, k: Key)
    requires Flowing(j) && Enabled(plan, j, PutNext(o)) && Clean(j, PutNext(o))
    requires GrownTo(j.src, s) && KeysStay(s.log) && RowSteady(s, j, k)
    ensures OnCourse(s, Next(plan, j, PutNext(o)), k)
  {
    var m := j.(buffers := Append(j.buffers));
    assert Flowing(m) && Oldest(m) == Oldest(j) && Carried(m.buffers) == Carried(j.buffers) by {
      assert Pending(m.buffers) == Pending(j.buffers);
      hide RowSteady, Stretch, KeysStay, Ordered;
    }
    hide Flowing, RecoversRow, FirstFrom, Carried, KeysStay;
    PutShape(plan, j, o);
    hide Enabled, Clean, Next;
    if MustFlush(j.buffers) {
      StillFlows(s, j, m, k);
      SteadyFlush(m, Next(plan, j, PutNext(o)), s, k);
    } else {
      hide Oldest, RowSteady;
      StillSteady(s, j, m, k);
    }
  }

  /** The processor appends the event in its hand, and flushes a full batch. */
  lemma PutShape(plan: Plan, j: Job, o: Outcome)
    requires Enabled(plan, j, PutNext(o)) && Clean(j, PutNext(o)) && |Pending(j.buffers)| <= j.pos + |Carried(j.buffers)|
    ensures var m, t := j.(buffers := Append(j.buffers)), Next(plan, j, PutNext(o));
            m.buffers.hand.None? && t.buffers.hand.None? && if MustFlush(j.buffers) then FlushedTo(m, t) && t.buffers.batch == [] else t == m
  {
    var m := j.(buffers := Append(j.buffers));
    assert Pending(m.buffers) == Pending(j.buffers) && |m.buffers.batch| > 0;
    if MustFlush(j.buffers) {
      FlushShape(m, o);
      SmoothFlush(m.buffers, o);
      assert Next(plan, j, PutNext(o)) == After(m, Flush(m.buffers, o), m.buffers.batch, o) by {
        hide Flush, Smooth, FlushedTo;
      }
      hide Flush, FlushedTo, Smooth, After, Pending, ApplyAll;
    } else {
      hide Flush, Pending;
    }
  }

  lemma TickShape(plan: Plan, j: Job, o: Outcome)
    requires Enabled(plan, j, Tick(o)) && Clean(j, Tick(o)) && |Pending(j.buffers)| <= j.pos + |Carried(j.buffers)|
    ensures var t := Next(plan, j, Tick(o));
            j.buffers.hand.None? && t.buffers.hand.None? && if j.buffers.batch != [] then FlushedTo(j, t) && t.buffers.batch == [] else t == j
  {
    if j.buffers.batch != [] {
      FlushShape(j, o);
      SmoothFlush(j.buffers, o);
      hide Flush, FlushedTo, Smooth, Pending, ApplyAll;
    }
  }

  lemma SteadyTick(plan: Plan, j: Job, o: Outcome, s: Source, k: Key)
    requires Flowing(j) && Enabled(plan, j, Tick(o)) && Clean(j, Tick(o))
    requires GrownTo(j.src, s) && KeysStay(s.log) && RowSteady(s, j, k)
    ensures OnCourse(s, Next(plan, j, Tick(o)), k)
  {
    hide RecoversRow, FirstFrom, KeysStay;
    TickShape(plan, j, o);
    hide Flowing, Enabled, Clean, Next, Oldest;
    if j.buffers.batch != [] {
      SteadyFlush(j, Next(plan, j, Tick(o)), s, k);
    }
  }

  lemma SteadyStep(plan: Plan, j: Job, step: Step, s: Source, k: Key)
    requires Flowing(j) && Enabled(plan, j, step) && Clean(j, step)
    requires GrownTo(Next(plan, j, step).src, s) && KeysStay(s.log) && GrownTo(j.src, s) && RowSteady(s, j, k)
    ensures OnCourse(s, Next(plan, j, step), k)
  {
    assert j.mode.Reading?;
    assert j.slot <= |j.src.log| by {
      WithinLog(j);
    }
    hide Flowing, GrownTo, KeysStay, RecoversRow, ResumesAt, RowFlows;
    match step
    case Write(entry) =>
      hide Enabled, Clean, Next, RowSteady;
      SteadyWrite(plan, j, entry, s, k);
    case OfferNext =>
      hide Enabled, Clean, Next, RowSteady, OnCourse;
      SteadyOffer(plan, j, s, k);
    case Confirm(position) =>
      hide Enabled, Clean, Next, RowSteady, OnCourse;
      SteadyConfirm(plan, j, position, s, k);
    case TakeNext =>
      hide Enabled, Clean, Next, RowSteady, OnCourse;
      SteadyTake(plan, j, s, k);
    case PutNext(o) =>
      hide Enabled, Clean, Next, RowSteady, OnCourse;
      SteadyPut(plan, j, o, s, k);
    case Tick(o) =>
      hide Enabled, Clean, Next, RowSteady, OnCourse;
      SteadyTick(plan, j, o, s, k);
    case BreakOff =>
      assert !MustFlush(j.buffers);
      hide MustFlush;
      SteadyBreakOff(plan, j, s, k);
    case _ =>
  }

  // ---------------------------------------------------------------- every clean step keeps the course: open, with events left over

  lemma AppliedNone(docs: Table)
    ensures ApplyAll(docs, []) == docs
  {
  }

  lemma TakePending(b: Buffers)
    requires b.queue != [] && b.hand.None?
    ensures Pending(Take(b)) == Pending(b) && Carried(Take(b)) == Carried(b) + [b.queue[0]]
  {
    assert b.queue == [b.queue[0]] + b.queue[1..];
  }

  lemma AppendPending(b: Buffers)
    requires b.hand.Some?
    ensures Pending(Append(b)) == Pending(b) && Carried(Append(b)) == Carried(b)
  {
  }

  /** What is on its way behind the first events. */
  lemma PastPending(j: Job, n: nat)
    requires n <= |Carried(j.buffers)|
    ensures Pending(j.buffers) == Carried(j.buffers) + j.buffers.queue
    ensures Pending(Past(j, n).buffers) == Pending(j.buffers)[n..] && Carried(Past(j, n).buffers) == Carried(j.buffers)[n..]
    ensures Oldest(Past(j, n)) == Oldest(j) + n
  {
    var b := j.buffers;
    assert Pending(b) == Carried(b) + b.queue;
    var c := Past(j, n).buffers;
    assert Carried(c) == Carried(b)[n..];
    assert Pending(c) == Carried(c) + c.queue;
    hide Carried, ApplyAll;
  }

  lemma LadenSays(j: Job, n: nat)
    requires Laden(j, n)
    ensures j.mode.Reading? && 0 < n <= |Carried(j.buffers)| && j.slot <= |j.src.log| && j.pos <= |j.src.log|
    ensures Flowing(Past(j, n)) && |Pending(j.buffers)| <= j.pos + n
  {
    WithinLog(Past(j, n));
    PastPending(j, n);
    hide Ordered, KeysStay, Stretch, Known, FirstFrom, Pending, Carried;
  }

  /** What the condition speaks of beside the buffers. */
  predicate SameAround(j: Job, t: Job) {
    t == j.(buffers := t.buffers, pos := t.pos, far := t.far, lo := t.lo)
  }

  /** The events left over are still the first on their way. */
  lemma StillLaden(s: Source, j: Job, t: Job, n: nat, k: Key)
    requires Laden(j, n) && GrownTo(j.src, s) && RowLaden(s, j, n, k) && SameAround(j, t)
    requires t.buffers.docs == j.buffers.docs && t.buffers.checkpoint == j.buffers.checkpoint
    requires Carried(j.buffers) <= Carried(t.buffers) && !MustFlush(j.buffers)
    requires Flowing(Past(t, n)) && Oldest(Past(t, n)) == Oldest(Past(j, n))
    ensures Laden(t, n) && RowLaden(s, t, n, k)
  {
    LadenSays(j, n);
    PastPending(j, n);
    PastPending(t, n);
    assert Carried(t.buffers)[..n] == Carried(j.buffers)[..n];
    assert Laden(t, n) by {
      hide Flowing, FirstFrom, RowLaden, ApplyAll, Known;
    }
    hide Flowing, RecoversRow, FirstFrom, Oldest, Carried, Known, ApplyAll, RowFlows, Pending, MustFlush;
    StillFlows(s, Past(j, n), Past(t, n), k);
  }

  /** Offering, and taking where there is room in hand, are the same before and behind the events left over. */
  lemma PastOffer(plan: Plan, j: Job, n: nat)
    requires n <= |Carried(j.buffers)| && Enabled(plan, j, OfferNext)
    ensures Enabled(plan, Past(j, n), OfferNext)
    ensures var t := Next(plan, j, OfferNext);
            Carried(t.buffers) == Carried(j.buffers) && Past(t, n) == Next(plan, Past(j, n), OfferNext)
  {
    hide ApplyAll;
  }

  lemma PastTake(plan: Plan, j: Job, n: nat)
    requires n <= |Carried(j.buffers)| && Enabled(plan, j, TakeNext)
    ensures Enabled(plan, Past(j, n), TakeNext)
    ensures var t := Next(plan, j, TakeNext);
            && Carried(t.buffers) == Carried(j.buffers) + [j.buffers.queue[0]]
            && Past(t, n) == Next(plan, Past(j, n), TakeNext)
  {
    var t := Next(plan, j, TakeNext);
    TakePending(j.buffers);
    assert Carried(t.buffers)[..n] == Carried(j.buffers)[..n];
    hide ApplyAll;
  }

  lemma PastAppend(j: Job, n: nat)
    requires n <= |Carried(j.buffers)| && j.buffers.hand.Some?
    ensures var m, v := j.(buffers := Append(j.buffers)), Past(j, n);
            && Carried(m.buffers) == Carried(j.buffers)
            && Past(m, n) == if v.buffers.hand.Some? then v.(buffers := Append(v.buffers)) else v
  {
    var m := j.(buffers := Append(j.buffers));
    AppendPending(j.buffers);
    if n <= |j.buffers.batch| {
      assert m.buffers.batch[n..] == j.buffers.batch[n..] + [j.buffers.hand.value];
    }
    hide ApplyAll;
  }

  lemma LadenOffer(plan: Plan, j: Job, n: nat, s: Source, k: Key)
    requires Laden(j, n) && Enabled(plan, j, OfferNext) && GrownTo(j.src, s) && RowLaden(s, j, n, k)
    ensures var t := Next(plan, j, OfferNext); Laden(t, n) && RowLaden(s, t, n, k)
  {
    var v, t := Past(j, n), Next(plan, j, OfferNext);
    LadenSays(j, n);
    PastOffer(plan, j, n);
    OfferFlows(plan, v);
    assert Carried(Past(t, n).buffers) == Carried(v.buffers);
    PastPending(j, n);
    LadenOffered(s, j, t, n, k);
  }

  /** An offer changes nothing that the condition speaks of, even with a full batch ahead. */
  lemma LadenOffered(s: Source, j: Job, t: Job, n: nat, k: Key)
    requires Laden(j, n) && GrownTo(j.src, s) && RowLaden(s, j, n, k) && SameAround(j, t)
    requires t.buffers.docs == j.buffers.docs && t.buffers.checkpoint == j.buffers.checkpoint
    requires t.buffers.batch == j.buffers.batch && t.buffers.hand == j.buffers.hand
    requires Flowing(Past(t, n)) && Oldest(Past(t, n)) == Oldest(Past(j, n))
    ensures Laden(t, n) && RowLaden(s, t, n, k)
  {
    LadenSays(j, n);
    PastPending(j, n);
    PastPending(t, n);
    assert Laden(t, n) by {
      hide Flowing, FirstFrom, RowLaden, ApplyAll, Known;
    }
    hide Flowing, RecoversRow, FirstFrom, Oldest, Known, ApplyAll, RowFlows, Pending;
    StillFlows(s, Past(j, n), Past(t, n), k);
  }

  lemma LadenTake(plan: Plan, j: Job, n: nat, s: Source, k: Key)
    requires Laden(j, n) && Enabled(plan, j, TakeNext) && GrownTo(j.src, s) && RowLaden(s, j, n, k)
    ensures var t := Next(plan, j, TakeNext); Laden(t, n) && RowLaden(s, t, n, k)
  {
    var t := Next(plan, j, TakeNext);
    LadenSays(j, n);
    PastTake(plan, j, n);
    TakeFlows(plan, Past(j, n));
    hide Laden, RowLaden, Flowing, Oldest, Past, Carried, Pending;
    StillLaden(s, j, t, n, k);
  }

  lemma FlowsAppend(j: Job)
    requires Flowing(j) && j.buffers.hand.Some?
    ensures var m := j.(buffers := Append(j.buffers)); Flowing(m) && Oldest(m) == Oldest(j)
  {
    AppendPending(j.buffers);
    hide Pending, Stretch, KeysStay, Carried;
  }

  /** Appending the event in hand; the condition is the same but for a reset that the append makes possible. */
  lemma LadenAppend(j: Job, n: nat, s: Source, k: Key)
    requires Laden(j, n) && j.buffers.hand.Some? && GrownTo(j.src, s) && RowLaden(s, j, n, k)
    ensures var m := j.(buffers := Append(j.buffers));
            && Laden(m, n) && RowFlows(s, Past(m, n), k) && |Carried(m.buffers)| == |Carried(j.buffers)|
            && (|Carried(m.buffers)| == n ==> RecoversRow(s, Past(m, n).buffers.docs, ResumesAt(m, LsnPast(m, n)), k))
            && (!MustFlush(j.buffers) ==> RowLaden(s, m, n, k))
  {
    var v, m := Past(j, n), j.(buffers := Append(j.buffers));
    LadenSays(j, n);
    PastAppend(j, n);
    if v.buffers.hand.Some? {
      FlowsAppend(v);
    }
    assert Flowing(Past(m, n)) && Oldest(Past(m, n)) == Oldest(v) && Carried(m.buffers) == Carried(j.buffers);
    assert Laden(m, n) by {
      hide Flowing, FirstFrom, RowLaden, ApplyAll, Known, Oldest;
    }
    PastPending(j, n);
    PastPending(m, n);
    hide Flowing, RecoversRow, FirstFrom, Oldest, Known, ApplyAll, RowFlows, Pending, Carried, Laden;
    StillFlows(s, v, Past(m, n), k);
  }

  lemma LadenConfirm(plan: Plan, j: Job, n: nat, position: nat, s: Source, k: Key)
    requires Laden(j, n) && Enabled(plan, j, Confirm(position)) && Clean(j, Confirm(position))
    requires GrownTo(j.src, s) && KeysStay(s.log) && RowLaden(s, j, n, k)
    ensures var t := Next(plan, j, Confirm(position)); Laden(t, n) && RowLaden(s, t, n, k)
  {
    var t, v := Next(plan, j, Confirm(position)), Past(j, n);
    ConfirmBehind(plan, j, n, position);
    if position <= j.confirmed {
      assert t == j;
    } else {
      hide Enabled, Clean, Next;
      assert t == j.(confirmed := position);
      LadenConfirmed(j, t, n, position);
      hide Laden, Flowing, Carried;
      ConfirmedRow(s, j, t, n, position, k);
    }
  }

  /** A clean confirmation takes the server no further than the stream was opened again. */
  lemma ConfirmBehind(plan: Plan, j: Job, n: nat, position: nat)
    requires Laden(j, n) && Enabled(plan, j, Confirm(position)) && Clean(j, Confirm(position))
    ensures j.slot <= Oldest(Past(j, n)) <= |j.src.log| && ResumesAt(j, position) <= Oldest(Past(j, n))
    ensures ResumesAt(j, position) <= ResumesAt(j, ResumeLsn(j)) && Next(plan, j, Confirm(position)) == j.(confirmed := Max(j.confirmed, position))
  {
    WithinLog(Past(j, n));
    PastPending(j, n);
    assert Precedes(j, position, Oldest(Past(j, n))) by {
      hide Flowing, FirstFrom, Known, Carried, Pending;
    }
    hide Flowing, Known, Carried, FirstFrom, Precedes;
    ResumesBefore(j, position, Oldest(Past(j, n)));
  }

  lemma LadenConfirmed(j: Job, t: Job, n: nat, position: nat)
    requires Laden(j, n) && position > j.confirmed && t == j.(confirmed := position)
    ensures Laden(t, n) && Past(t, n) == Past(j, n).(confirmed := position) && Oldest(Past(t, n)) == Oldest(Past(j, n))
  {
    LadenSays(j, n);
    FirstFromFurther(j.src.log, j.slot, ResumeLsn(j), ResumeLsn(t));
    hide FirstFrom, Carried, ApplyAll, Known, Pending;
    FlowsConfirmed(Past(j, n), position);
    hide Flowing, Oldest;
  }

  lemma FlowsConfirmed(j: Job, position: nat)
    requires Flowing(j)
    ensures var t := j.(confirmed := position); Flowing(t) && Oldest(t) == Oldest(j)
  {
    SameOrder(j, j.(confirmed := position));
    hide Stretch, KeysStay, Pending, Ordered;
  }

  lemma ConfirmedRow(s: Source, j: Job, t: Job, n: nat, position: nat, k: Key)
    requires Laden(j, n) && Laden(t, n) && position > j.confirmed && t == j.(confirmed := position)
    requires Past(t, n) == Past(j, n).(confirmed := position) && Oldest(Past(t, n)) == Oldest(Past(j, n))
    requires j.slot <= Oldest(Past(j, n)) <= |j.src.log| && ResumesAt(j, position) <= Oldest(Past(j, n))
    requires ResumesAt(j, position) <= ResumesAt(j, ResumeLsn(j))
    requires GrownTo(j.src, s) && KeysStay(s.log) && RowLaden(s, j, n, k)
    ensures RowLaden(s, t, n, k)
  {
    var v, a := Past(j, n), Oldest(Past(j, n));
    LadenSays(j, n);
    hide Flowing, FirstFrom, Carried, ApplyAll, Oldest, RecoversRow, KeysStay, Known, EventsFrom;
    ConfirmFlows(s, v, Past(t, n), k);
    ResumesFurther(j, ResumeLsn(j), position);
    assert ResumesAt(t, ResumeLsn(t)) == ResumesAt(j, Max(ResumeLsn(j), position)) == ResumesAt(j, ResumeLsn(j));
    if |Carried(j.buffers)| == n {
      var last := Carried(j.buffers)[n - 1].lsn;
      ResumesFurther(j, last, j.confirmed);
      ResumesFurther(j, last, position);
      var r := ResumesAt(t, LsnPast(t, n));
      assert r == ResumesAt(j, Max(last, position));
      assert RecoversRow(s, v.buffers.docs, a, k) && RecoversRow(s, v.buffers.docs, ResumesAt(j, LsnPast(j, n)), k);
      hide RowFlows, ResumesAt;
      if r <= a {
        RowRecoversSooner(s, v.buffers.docs, r, a, k);
      } else {
        RowRecoversSooner(s, v.buffers.docs, r, ResumesAt(j, LsnPast(j, n)), k);
      }
    }
  }

  lemma LadenWrite(plan: Plan, j: Job, n: nat, entry: Entry, s: Source, k: Key)
    requires Laden(j, n) && Enabled(plan, j, Write(entry)) && Clean(j, Write(entry))
    requires GrownTo(Next(plan, j, Write(entry)).src, s) && GrownTo(j.src, s)
    ensures var t := Next(plan, j, Write(entry)); Laden(t, n) && (RowLaden(s, t, n, k) <==> RowLaden(s, j, n, k))
  {
    var v, t := Past(j, n), Next(plan, j, Write(entry));
    LadenSays(j, n);
    assert Enabled(plan, v, Write(entry)) && Clean(v, Write(entry)) && Past(t, n) == Next(plan, v, Write(entry)) by {
      hide Flowing, ApplyAll;
    }
    WriteFlows(plan, v, entry);
    FlowsWrite(plan, v, entry, s, k);
    LsnsWithin(plan, j, n, entry);
    hide Flowing, RecoversRow, RowFlows, ApplyAll, Oldest;
    FirstFromKept(j.src.log, entry, j.slot, ResumeLsn(j));
    FirstFromKept(j.src.log, entry, j.slot, LsnPast(j, n));
    hide FirstFrom, Enabled, Clean, Follows;
  }

  lemma LsnsWithin(plan: Plan, j: Job, n: nat, entry: Entry)
    requires Laden(j, n) && Enabled(plan, j, Write(entry))
    ensures LsnPast(j, n) <= entry.commitLsn && ResumeLsn(j) <= entry.commitLsn
    ensures AllKnown(j.src.log + [entry], Carried(j.buffers)[..n])
  {
    var front := Carried(j.buffers)[..n];
    assert Carried(j.buffers)[n - 1] == front[n - 1] && front[n - 1] in front;
    assert forall e <- Carried(j.buffers)[..n] :: Known(j.src.log, e);
    hide Flowing, FirstFrom, Carried;
  }

  /** A flush that begins with the events left over. */
  lemma LadenFlush(j: Job, t: Job, n: nat, s: Source, k: Key)
    requires Laden(j, n) && j.buffers.hand.None? && FlushedTo(j, t) && t.buffers.hand.None? && t.buffers.batch == []
    requires GrownTo(j.src, s) && KeysStay(s.log) && RowFlows(s, Past(j, n), k)
    requires |Carried(j.buffers)| == n ==> RecoversRow(s, Past(j, n).buffers.docs, ResumesAt(j, LsnPast(j, n)), k)
    ensures Flowing(t) && RowSteady(s, t, k)
  {
    var v, b := Past(j, n), j.buffers.batch;
    LadenSays(j, n);
    PastFlushed(j, t, n);
    if n < |b| {
      hide Flowing, FlushedTo, RecoversRow, FirstFrom, KeysStay;
      SteadyFlush(v, t, s, k);
    } else {
      LadenFlushed(j, t, n);
      assert ResumeLsn(t) == LsnPast(j, n);
      hide Flowing, FlushedTo, RecoversRow, FirstFrom, KeysStay, RowFlows, Carried, Pending, Oldest;
      StillFlows(s, v, t, k);
    }
  }

  lemma LadenFlushed(j: Job, t: Job, n: nat)
    requires Laden(j, n) && j.buffers.hand.None? && FlushedTo(j, t) && t.buffers.hand.None? && t.buffers.batch == []
    ensures Carried(j.buffers) == j.buffers.batch
    ensures Flowing(t) && Oldest(t) == Oldest(Past(j, n)) + |j.buffers.batch| - n
  {
    var v := Past(j, n);
    LadenSays(j, n);
    PastFlushed(j, t, n);
    if n < |j.buffers.batch| {
      hide Flowing, FlushedTo, FirstFrom, Pending;
      FlushFlows(v, t);
    } else {
      hide Laden, FirstFrom, FlushedTo, Pending;
      SamePlace(v, t);
    }
  }

  lemma SamePlace(j: Job, t: Job)
    requires Flowing(j) && t == j.(buffers := t.buffers, lo := t.lo) && Pending(t.buffers) == Pending(j.buffers)
    ensures Flowing(t) && Oldest(t) == Oldest(j)
  {
    hide Pending;
  }

  /** What a flush of everything beside the channel does, seen from behind the events left over. */
  lemma PastFlushed(j: Job, t: Job, n: nat)
    requires Laden(j, n) && j.buffers.hand.None? && FlushedTo(j, t) && t.buffers.hand.None? && t.buffers.batch == []
    ensures Carried(j.buffers) == j.buffers.batch && Carried(t.buffers) == []
    ensures var v := Past(j, n);
            && v.buffers.hand.None? && v.buffers.batch == j.buffers.batch[n..]
            && t == v.(buffers := t.buffers, lo := t.lo)
            && (n < |j.buffers.batch| ==> FlushedTo(v, t))
            && (n == |j.buffers.batch| ==>
                  && t.buffers.docs == v.buffers.docs && Pending(t.buffers) == Pending(v.buffers)
                  && t.buffers.checkpoint == Some(j.buffers.batch[n - 1].lsn))
  {
    hide Laden, Flowing, ApplyAll, Pending;
    LadenSays(j, n);
    var b := j.buffers.batch;
    assert Carried(j.buffers) == b && Carried(t.buffers) == [];
    PastBatch(j, n);
    PastPending(j, n);
    PendingPast(b, Pending(t.buffers), n);
    InTwo(j.buffers.docs, b, n);
    hide Past, Carried, Oldest;
  }

  lemma PastBatch(j: Job, n: nat)
    requires j.buffers.hand.None? && n <= |j.buffers.batch|
    ensures Carried(j.buffers) == j.buffers.batch
    ensures Past(j, n) == j.(buffers := j.buffers.(docs := ApplyAll(j.buffers.docs, j.buffers.batch[..n]), batch := j.buffers.batch[n..]))
  {
    hide ApplyAll;
  }

  lemma PendingPast(b: seq<ChangeEvent>, rest: seq<ChangeEvent>, n: nat)
    requires n <= |b|
    ensures (b + rest)[n..] == b[n..] + rest && (n == |b| ==> b[n..] + rest == rest)
  {
  }

  lemma InTwo(docs: Table, b: seq<ChangeEvent>, n: nat)
    requires n <= |b|
    ensures ApplyAll(docs, b) == ApplyAll(ApplyAll(docs, b[..n]), b[n..]) && (n == |b| ==> b[..n] == b)
  {
    assert b == b[..n] + b[n..];
    AppliedInTwo(docs, b[..n], b[n..]);
  }

  lemma LadenPut(plan: Plan, j: Job, n: nat, o: Outcome, s: Source, k: Key)
    requires Laden(j, n) && Enabled(plan, j, PutNext(o)) && Clean(j, PutNext(o))
    requires GrownTo(j.src, s) && KeysStay(s.log) && RowLaden(s, j, n, k)
    ensures var t := Next(plan, j, PutNext(o)); (Flowing(t) && RowSteady(s, t, k)) || (Laden(t, n) && RowLaden(s, t, n, k))
  {
    hide Laden, RowLaden, Flowing, FirstFrom, Carried, RowSteady, RowFlows, RecoversRow;
    LadenSays(j, n);
    LadenAppend(j, n, s, k);
    PutShape(plan, j, o);
    hide Enabled, Clean, Next, Pending;
    if MustFlush(j.buffers) {
      LadenFlush(j.(buffers := Append(j.buffers)), Next(plan, j, PutNext(o)), n, s, k);
    }
  }

  lemma LadenTick(plan: Plan, j: Job, n: nat, o: Outcome, s: Source, k: Key)
    requires Laden(j, n) && Enabled(plan, j, Tick(o)) && Clean(j, Tick(o))
    requires GrownTo(j.src, s) && KeysStay(s.log) && RowLaden(s, j, n, k)
    ensures var t := Next(plan, j, Tick(o)); Flowing(t) && RowSteady(s, t, k)
  {
    LadenSays(j, n);
    hide Laden, Flowing, FirstFrom, RowSteady, RowFlows, RecoversRow;
    TickShape(plan, j, o);
    assert j.buffers.batch != [];
    hide Enabled, Clean, Next, Pending;
    LadenFlush(j, Next(plan, j, Tick(o)), n, s, k);
  }

  lemma LadenBreakOff(plan: Plan, j: Job, n: nat, s: Source, k: Key)
    requires Laden(j, n) && Enabled(plan, j, BreakOff) && Clean(j, BreakOff) && GrownTo(j.src, s) && RowLaden(s, j, n, k)
    ensures var t := Next(plan, j, BreakOff); Closed(t) && RowRegained(s, t, k)
  {
    var t := Next(plan, j, BreakOff);
    LadenSays(j, n);
    assert Carried(t.buffers) == [];
    assert Closed(t) by {
      hide Stretch, FirstFrom, RowLaden, Known, KeysStay;
      SameOrder(j, t);
    }
    assert Bound(t) == ResumeLsn(t) == ResumeLsn(j);
    AppliedNone(t.buffers.docs);
    hide Laden, Closed, RecoversRow, FirstFrom, ApplyAll, RowFlows, Flowing, Carried;
  }

  lemma SameOrder(j: Job, t: Job)
    requires Ordered(j) && t.src == j.src && t.slot == j.slot && t.slotLsn == j.slotLsn
    ensures Ordered(t)
  {
  }

  lemma LadenStep(plan: Plan, j: Job, n: nat, step: Step, s: Source, k: Key)
    requires Laden(j, n) && Enabled(plan, j, step) && Clean(j, step)
    requires GrownTo(Next(plan, j, step).src, s) && KeysStay(s.log) && GrownTo(j.src, s) && RowLaden(s, j, n, k)
    ensures OnCourse(s, Next(plan, j, step), k)
  {
    LadenKinds(plan, j, n, step);
    hide Laden, Flowing, Closed, GrownTo, KeysStay, RowLaden, RowSteady, RowRegained, Enabled, Clean, Next;
    match step
    case Write(entry) => LadenWrite(plan, j, n, entry, s, k);
    case OfferNext => LadenOffer(plan, j, n, s, k);
    case Confirm(position) => LadenConfirm(plan, j, n, position, s, k);
    case TakeNext => LadenTake(plan, j, n, s, k);
    case PutNext(o) => LadenPut(plan, j, n, o, s, k);
    case Tick(o) => LadenTick(plan, j, n, o, s, k);
    case BreakOff => LadenBreakOff(plan, j, n, s, k);
  }

  lemma LadenKinds(plan: Plan, j: Job, n: nat, step: Step)
    requires Laden(j, n) && Enabled(plan, j, step) && Clean(j, step)
    ensures step.Write? || step.OfferNext? || step.Confirm? || step.TakeNext? || step.PutNext? || step.Tick? || step.BreakOff?
  {
    LadenSays(j, n);
    hide Laden;
  }

  // ---------------------------------------------------------------- every clean step keeps the course: closed

  /** Nothing has changed that the condition of a closed stream speaks of. */
  lemma StillRegained(s: Source, j: Job, t: Job, k: Key)
    requires j.slot <= |j.src.log| && GrownTo(j.src, s) && RowRegained(s, j, k)
    requires t.src == j.src && t.slot == j.slot && t.slotLsn == j.slotLsn && t.confirmed == j.confirmed
    requires t.buffers.docs == j.buffers.docs && t.buffers.checkpoint == j.buffers.checkpoint
    requires Carried(t.buffers) == Carried(j.buffers) && (MustFlush(j.buffers) ==> MustFlush(t.buffers))
    ensures RowRegained(s, t, k)
  {
    hide RecoversRow, FirstFrom, Carried, ApplyAll;
  }

  lemma ClosedSays(j: Job)
    requires Closed(j)
    ensures j.slot <= |j.src.log| && (j.mode.Draining? || (j.mode.Waiting? && j.buffers.queue == []))
  {
    hide KeysStay, Ordered, Known;
  }

  lemma StillClosed(j: Job, t: Job)
    requires Closed(j) && t == j.(mode := t.mode, buffers := t.buffers, lo := t.lo)
    requires t.mode.Draining? || (t.mode.Waiting? && t.buffers.queue == [])
    requires Carried(t.buffers) == Carried(j.buffers) || Carried(t.buffers) == []
    ensures Closed(t)
  {
    hide Carried, KeysStay, Known;
  }

  lemma ClosedWrite(plan: Plan, j: Job, entry: Entry, s: Source, k: Key)
    requires Closed(j) && Enabled(plan, j, Write(entry)) && Clean(j, Write(entry))
    requires GrownTo(Next(plan, j, Write(entry)).src, s) && GrownTo(j.src, s) && RowRegained(s, j, k)
    ensures var t := Next(plan, j, Write(entry)); Closed(t) && RowRegained(s, t, k)
  {
    WriteClosed(plan, j, entry);
    ClosedSays(j);
    hide Closed, RecoversRow, ApplyAll, Carried, Follows;
    FirstFromKept(j.src.log, entry, j.slot, ResumeLsn(j));
    FirstFromKept(j.src.log, entry, j.slot, Bound(j));
    hide FirstFrom;
  }

  lemma WriteClosed(plan: Plan, j: Job, entry: Entry)
    requires Closed(j) && Enabled(plan, j, Write(entry)) && Clean(j, Write(entry))
    ensures Closed(Next(plan, j, Write(entry))) && ResumeLsn(j) <= Bound(j) <= entry.commitLsn
  {
    var t := Next(plan, j, Write(entry));
    assert Ordered(t) && KeysStay(t.src.log) by {
      hide Carried, Known;
    }
    var carried := Carried(j.buffers);
    assert carried != [] ==> carried[|carried| - 1] in carried;
    assert forall e <- carried :: Known(j.src.log, e);
    hide Carried, Ordered, KeysStay;
  }

  /** What a flush does while the stream is closed: everything beside the channel reaches the sink. */
  predicate AllFlushed(j: Job, t: Job) {
    && t == j.(buffers := t.buffers, lo := t.lo) && Closed(t) && Carried(t.buffers) == [] && t.buffers.hand.None?
    && t.buffers.queue == j.buffers.queue && t.buffers.docs == ApplyAll(j.buffers.docs, Carried(j.buffers))
    && ResumeLsn(t) <= Bound(j) && (Bound(j) > ResumeLsn(j) ==> ResumeLsn(t) == Bound(j))
  }

  lemma ClosedFlush(j: Job, o: Outcome)
    requires Closed(j) && j.buffers.hand.None? && j.buffers.batch != [] && Smooth(o, j.buffers.batch)
    ensures AllFlushed(j, After(j, Flush(j.buffers, o), j.buffers.batch, o))
  {
    hide Closed, Flush, ApplyAll, Pending;
    SmoothFlush(j.buffers, o);
    ClosedSays(j);
    var t := After(j, Flush(j.buffers, o), j.buffers.batch, o);
    assert Carried(j.buffers) == j.buffers.batch && Carried(t.buffers) == [];
    hide Carried;
    StillClosed(j, t);
  }

  /** The processor appends the event in its hand, and flushes a full batch. */
  lemma ClosedPut(plan: Plan, j: Job, o: Outcome)
    requires Closed(j) && Enabled(plan, j, PutNext(o)) && Clean(j, PutNext(o))
    ensures var m, t := j.(buffers := Append(j.buffers)), Next(plan, j, PutNext(o));
            && Closed(m) && Carried(m.buffers) == Carried(j.buffers) && if MustFlush(j.buffers) then AllFlushed(m, t) else t == m
  {
    var m := j.(buffers := Append(j.buffers));
    AppendPending(j.buffers);
    StillClosed(j, m);
    hide Closed, Carried, Pending;
    if MustFlush(j.buffers) {
      ClosedFlush(m, o);
      assert Next(plan, j, PutNext(o)) == After(m, Flush(m.buffers, o), m.buffers.batch, o) by {
        hide Flush, Smooth, AllFlushed;
      }
    } else {
      hide Flush;
    }
  }

  lemma ClosedTick(plan: Plan, j: Job, o: Outcome)
    requires Closed(j) && Enabled(plan, j, Tick(o)) && Clean(j, Tick(o))
    ensures var t := Next(plan, j, Tick(o)); j.buffers.hand.None? && if j.buffers.batch != [] then AllFlushed(j, t) else t == j
  {
    hide Closed, AllFlushed;
    if j.buffers.batch != [] {
      hide Flush;
      ClosedFlush(j, o);
    }
  }

  lemma FlushRegains(j: Job, t: Job, s: Source, k: Key)
    requires Closed(j) && j.buffers.hand.None? && AllFlushed(j, t) && GrownTo(j.src, s) && KeysStay(s.log)
    requires RecoversRow(s, ApplyAll(j.buffers.docs, Carried(j.buffers)), ResumesAt(j, Bound(j)), k)
    ensures Closed(t) && RowRegained(s, t, k)
  {
    ClosedSays(j);
    AppliedNone(t.buffers.docs);
    FirstFromFurther(j.src.log, j.slot, ResumeLsn(t), Bound(j));
    assert Bound(t) == ResumeLsn(t);
    hide Closed, Carried, KeysStay, RecoversRow, FirstFrom, ApplyAll, ResumeLsn, Bound;
    RowRecoversSooner(s, t.buffers.docs, ResumesAt(t, ResumeLsn(t)), ResumesAt(j, Bound(j)), k);
  }

  lemma ClosedPutOn(plan: Plan, j: Job, o: Outcome, s: Source, k: Key)
    requires Closed(j) && Enabled(plan, j, PutNext(o)) && Clean(j, PutNext(o))
    requires GrownTo(j.src, s) && KeysStay(s.log) && RowRegained(s, j, k)
    ensures var t := Next(plan, j, PutNext(o)); Closed(t) && RowRegained(s, t, k)
  {
    var m, t := j.(buffers := Append(j.buffers)), Next(plan, j, PutNext(o));
    ClosedPut(plan, j, o);
    ClosedSays(j);
    assert Bound(m) == Bound(j);
    hide Closed, Carried, KeysStay, RecoversRow, FirstFrom, ApplyAll, Enabled, Clean, Next, AllFlushed;
    if MustFlush(j.buffers) {
      FlushRegains(m, t, s, k);
    } else {
      StillRegained(s, j, m, k);
    }
  }

  lemma ClosedTickOn(plan: Plan, j: Job, o: Outcome, s: Source, k: Key)
    requires Closed(j) && Enabled(plan, j, Tick(o)) && Clean(j, Tick(o))
    requires GrownTo(j.src, s) && KeysStay(s.log) && RowRegained(s, j, k)
    ensures var t := Next(plan, j, Tick(o)); Closed(t) && RowRegained(s, t, k)
  {
    ClosedTick(plan, j, o);
    ClosedSays(j);
    hide Closed, Carried, KeysStay, RecoversRow, FirstFrom, ApplyAll, Enabled, Clean, Next, AllFlushed;
    if j.buffers.batch != [] {
      FlushRegains(j, Next(plan, j, Tick(o)), s, k);
    }
  }

  /** Opening the stream again, with or without events left over. */
  lemma ClosedStart(plan: Plan, j: Job, r: nat, s: Source, k: Key)
    requires Closed(j) && Enabled(plan, j, StartReading(r)) && GrownTo(j.src, s) && KeysStay(s.log) && RowRegained(s, j, k)
    ensures OnCourse(s, Next(plan, j, StartReading(r)), k)
  {
    var t, n := Next(plan, j, StartReading(r)), |Carried(j.buffers)|;
    ClosedSays(j);
    ResumableWithin(j, r);
    hide KeysStay, FirstFrom, RowRegained, Resumable, Max;
    StartShape(j, t, r);
    hide Closed, Flowing, Laden, Enabled, Next;
    if n == 0 {
      StraightStart(j, t, r, s, k);
    } else {
      LadenStart(j, t, r, s, k);
    }
  }

  /** What is on its way when the stream has just been opened again. */
  lemma StartShape(j: Job, t: Job, r: nat)
    requires Closed(j) && j.mode.Waiting? && t == j.(mode := Reading, pos := r, far := t.far) && j.slot <= |j.src.log|
    requires j.slot <= r <= ResumesAt(j, ResumeLsn(j))
    ensures var n := |Carried(j.buffers)|;
            && Carried(t.buffers) == Carried(j.buffers)
            && Flowing(Past(t, n)) && Oldest(Past(t, n)) == r && Carried(Past(t, n).buffers) == []
            && Past(t, n).buffers.docs == ApplyAll(j.buffers.docs, Carried(j.buffers))
            && if n == 0 then Flowing(t) && Oldest(t) == r else Laden(t, n)
  {
    var n := |Carried(j.buffers)|;
    SameOrder(j, t);
    PastPending(t, n);
    assert Carried(t.buffers)[..n] == Carried(t.buffers) && Pending(t.buffers)[n..] == [];
    AppliedNone(t.buffers.docs);
    hide KeysStay, Ordered, FirstFrom, ApplyAll, Known;
  }

  lemma LadenStart(j: Job, t: Job, r: nat, s: Source, k: Key)
    requires Closed(j) && t == j.(mode := Reading, pos := r, far := t.far) && Carried(t.buffers) == Carried(j.buffers) != []
    requires Laden(t, |Carried(j.buffers)|)
    requires var v := Past(t, |Carried(j.buffers)|);
             Oldest(v) == r && Carried(v.buffers) == [] && v.buffers.docs == ApplyAll(j.buffers.docs, Carried(j.buffers))
    requires j.slot <= |j.src.log| && r <= ResumesAt(j, ResumeLsn(j)) && ResumesAt(j, j.confirmed) <= r
    requires GrownTo(j.src, s) && KeysStay(s.log) && RowRegained(s, j, k)
    ensures RowLaden(s, t, |Carried(j.buffers)|, k)
  {
    var n, bound := |Carried(j.buffers)|, ResumesAt(j, Bound(j));
    var v := Past(t, n);
    FirstFromFurther(j.src.log, j.slot, ResumeLsn(j), Bound(j));
    FirstFromFurther(j.src.log, j.slot, LsnPast(j, n), Bound(j));
    hide Flowing, Closed, RecoversRow, FirstFrom, KeysStay, ApplyAll, Oldest, Carried, Pending, Known;
    RowRecoversSooner(s, v.buffers.docs, r, bound, k);
    RowRecoversSooner(s, v.buffers.docs, ResumesAt(t, LsnPast(t, n)), bound, k);
    assert RowFlows(s, v, k) by {
      hide Flushable, UpTo;
      Unreached(v);
    }
  }

  /** A confirmed position that lies behind nothing on its way is passed by no flush. */
  lemma Unreached(j: Job)
    requires Flowing(j) && ResumesAt(j, j.confirmed) <= Oldest(j)
    ensures forall n | Flushable(j, n) :: ResumesAt(j, j.confirmed) < n
  {
    hide Flowing, Oldest, FirstFrom;
  }

  lemma ResumableWithin(j: Job, r: nat)
    requires j.slot <= |j.src.log| && Resumable(j, r)
    ensures j.slot <= r <= ResumesAt(j, ResumeLsn(j)) && ResumesAt(j, j.confirmed) <= r
  {
    ResumesBefore(j, j.confirmed, r);
    var end := ResumesAt(j, ResumeLsn(j));
    hide FirstFrom, Precedes;
    assert end < |j.src.log| ==> ResumeLsn(j) <= j.src.log[end].commitLsn by {
      Reached(j, ResumeLsn(j));
    }
  }

  lemma Reached(j: Job, lsn: nat)
    requires j.slot <= |j.src.log|
    ensures var end := ResumesAt(j, lsn); j.slot <= end && (end < |j.src.log| ==> lsn <= j.src.log[end].commitLsn)
  {
  }

  lemma StraightStart(j: Job, t: Job, r: nat, s: Source, k: Key)
    requires Closed(j) && Carried(j.buffers) == [] && t == j.(mode := Reading, pos := r, far := t.far) && Flowing(t) && Oldest(t) == r
    requires GrownTo(j.src, s) && KeysStay(s.log) && RowRegained(s, j, k)
    requires r <= ResumesAt(j, ResumeLsn(j)) && ResumesAt(j, j.confirmed) <= r
    ensures RowSteady(s, t, k)
  {
    ClosedSays(j);
    hide Flowing, RecoversRow, FirstFrom, Closed, KeysStay, Oldest;
    RowRecoversSooner(s, t.buffers.docs, r, ResumesAt(j, ResumeLsn(j)), k);
  }

  lemma ClosedKinds(plan: Plan, j: Job, step: Step)
    requires Closed(j) && Enabled(plan, j, step) && Clean(j, step)
    ensures step.Write? || step.StartReading? || step.PutNext? || step.Tick? || step.DropOne? || step.FoundEmpty?
    ensures j.slot <= |j.src.log|
  {
    ClosedSays(j);
    hide Closed;
  }

  lemma ClosedStep(plan: Plan, j: Job, step: Step, s: Source, k: Key)
    requires Closed(j) && Enabled(plan, j, step) && Clean(j, step)
    requires GrownTo(Next(plan, j, step).src, s) && KeysStay(s.log) && GrownTo(j.src, s) && RowRegained(s, j, k)
    ensures OnCourse(s, Next(plan, j, step), k)
  {
    hide Closed, GrownTo, KeysStay, RowRegained, Carried, OnCourse, Enabled, Clean, Next;
    ClosedKinds(plan, j, step);
    match step
    case Write(entry) =>
      ClosedWrite(plan, j, entry, s, k);
      CourseClosed(s, Next(plan, j, step), k);
    case StartReading(r) =>
      ClosedStart(plan, j, r, s, k);
    case PutNext(o) =>
      ClosedPutOn(plan, j, o, s, k);
      CourseClosed(s, Next(plan, j, step), k);
    case Tick(o) =>
      ClosedTickOn(plan, j, o, s, k);
      CourseClosed(s, Next(plan, j, step), k);
    case _ =>
      ClosedDrop(plan, j, step, s, k);
  }

  lemma CourseClosed(s: Source, j: Job, k: Key)
    requires Closed(j) && GrownTo(j.src, s) && RowRegained(s, j, k)
    ensures OnCourse(s, j, k)
  {
  }

  lemma ClosedDrop(plan: Plan, j: Job, step: Step, s: Source, k: Key)
    requires Closed(j) && Enabled(plan, j, step) && (step.DropOne? || step.FoundEmpty?)
    requires GrownTo(j.src, s) && RowRegained(s, j, k)
    ensures OnCourse(s, Next(plan, j, step), k)
  {
    hide Closed, RowRegained, OnCourse, FirstFrom;
    ClosedOn(j, Next(plan, j, step), s, k);
  }

  lemma ClosedOn(j: Job, t: Job, s: Source, k: Key)
    requires Closed(j) && GrownTo(j.src, s) && RowRegained(s, j, k) && t == j.(mode := t.mode, buffers := t.buffers)
    requires t.mode.Draining? || (t.mode.Waiting? && t.buffers.queue == [])
    requires t.buffers == j.buffers.(queue := t.buffers.queue, ledger := t.buffers.ledger)
    ensures OnCourse(s, t, k)
  {
    StillClosed(j, t);
    ClosedSays(j);
    hide Closed, RowRegained;
    StillRegained(s, j, t, k);
  }

  // ---------------------------------------------------------------- whole runs

  lemma CourseStep(plan: Plan, j: Job, step: Step, s: Source, k: Key)
    requires OnCourse(s, j, k) && Enabled(plan, j, step) && Clean(j, step)
    requires GrownTo(Next(plan, j, step).src, s) && KeysStay(s.log)
    ensures OnCourse(s, Next(plan, j, step), k)
  {
    hide Enabled, Clean, Next, Flowing, Closed, Laden, RowSteady, RowLaden, RowRegained, KeysStay;
    if Closed(j) {
      ClosedSays(j);
    }
    if Flowing(j) && RowSteady(s, j, k) {
      SteadyStep(plan, j, step, s, k);
    } else if Closed(j) && RowRegained(s, j, k) {
      ClosedStep(plan, j, step, s, k);
    } else {
      var n :| Laden(j, n) && RowLaden(s, j, n, k);
      LadenStep(plan, j, n, step, s, k);
    }
  }

  lemma StepGrows(plan: Plan, j: Job, step: Step)
    requires Enabled(plan, j, step)
    ensures GrownTo(j.src, Next(plan, j, step).src)
  {
    hide Flush, Put, Fits, Smooth, Pending;
  }

  lemma {:induction false} RunGrows(plan: Plan, j: Job, steps: seq<Step>, t: Job, excuse: Excuse)
    requires Leads(plan, j, steps, t, excuse)
    ensures GrownTo(j.src, t.src)
    decreases |steps|
  {
    hide Next, Enabled, Clean;
    if steps != [] {
      StepGrows(plan, j, steps[0]);
      RunGrows(plan, Next(plan, j, steps[0]), steps[1..], t, excuse);
    }
  }

  lemma KeysStayed(plan: Plan, j: Job, step: Step)
    requires Enabled(plan, j, step) && Clean(j, step) && KeysStay(j.src.log)
    ensures KeysStay(Next(plan, j, step).src.log)
  {
    hide Flush, Put, Fits, Smooth, Pending;
  }

  lemma {:induction false} RunKeysStay(plan: Plan, j: Job, steps: seq<Step>, t: Job)
    requires Leads(plan, j, steps, t, Nothing) && KeysStay(j.src.log)
    ensures KeysStay(t.src.log)
    decreases |steps|
  {
    hide Next, Enabled, Clean, KeysStay;
    if steps != [] {
      KeysStayed(plan, j, steps[0]);
      RunKeysStay(plan, Next(plan, j, steps[0]), steps[1..], t);
    }
  }

  lemma {:induction false} RunCourse(plan: Plan, j: Job, steps: seq<Step>, t: Job, k: Key)
    requires Leads(plan, j, steps, t, Nothing) && OnCourse(t.src, j, k) && KeysStay(t.src.log)
    ensures OnCourse(t.src, t, k)
    decreases |steps|
  {
    hide Next, Enabled, Clean, OnCourse, KeysStay;
    if steps != [] {
      RunGrows(plan, Next(plan, j, steps[0]), steps[1..], t, Nothing);
      CourseStep(plan, j, steps[0], t.src, k);
      RunCourse(plan, Next(plan, j, steps[0]), steps[1..], t, k);
    }
  }

  lemma CourseEnds(t: Job, k: Key)
    requires OnCourse(t.src, t, k) && CaughtUp(t)
    ensures RowRight(t, k)
  {
    hide RecoversRow, KeysStay, Ordered, FirstFrom, Stretch;
    assert Carried(t.buffers) == [] by {
      assert Pending(t.buffers) == Carried(t.buffers) + t.buffers.queue;
    }
    RowAtEnd(t, k);
    AppliedNone(t.buffers.docs);
  }

  /** A row that is on course is right at the end of every clean run. */
  lemma OnCourseArrives(plan: Plan, j: Job, s: Source, k: Key)
    requires OnCourse(s, j, k)
    requires KeysStay(j.src.log)
    ensures RowArrives(plan, j, s, k)
  {
    hide OnCourse, KeysStay, CaughtUp, RowRight;
    forall steps, t | Leads(plan, j, steps, t, Nothing) && CaughtUp(t) && t.src == s ensures RowRight(t, k) {
      RunKeysStay(plan, j, steps, t);
      RunCourse(plan, j, steps, t, k);
      CourseEnds(t, k);
    }
  }
}
