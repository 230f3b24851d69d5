/**
 * From snapshot to change capture, and through restarts.
 *
 * The replication slot is created first; then the table is read chunk by chunk while the source
 * keeps changing; then the log is replayed from the slot, and from the last checkpoint after each
 * failure. The protocol is a state machine over the source's log, the reader's position, the
 * buffers of the job, the sink and the checkpoint. A run is any sequence of enabled steps.
 */
module Handoff {
  import opened Wrappers
  import opened Pipeline
  import opened Replay

  // ---------------------------------------------------------------- states and steps

  /** How the table is cut: which of the `count` chunks a key falls into, if any. */
  datatype Plan = Plan(count: nat, owner: Key -> Option<nat>)

  /** A chunk that has been read when the log had `at` entries; `rows` are still to be written to the sink. */
  datatype ChunkRead = ChunkRead(at: nat, rows: Table)

  /**
   * Snapshotting: chunks are read and written. Reading: the replication stream is open.
   * Draining: it has ended, the batch is cleared and the channel is being emptied.
   * Waiting: the channel was found empty and the stream is to be opened again.
   */
  datatype Mode = Snapshotting | Reading | Draining | Waiting

  datatype Job = Job(
    src: Source, slot: nat, slotLsn: nat,
    mode: Mode, inFlight: map<nat, ChunkRead>, done: set<nat>,
    pos: nat, confirmed: nat, buffers: Buffers,
    lo: nat, far: nat)
  // `confirmed` is the position that the server has last been told to be flushed.
  // `lo` and `far` record history only: no row of the sink is older than `lo`, and nothing
  // beyond `far` has been read from the source.

  datatype Step =
    | Write(entry: Entry)
    | ReadChunk(chunk: nat, rows: Table)
    | SinkRows(chunk: nat, keys: set<Key>)
    | StartReading(from: nat)
    | OfferNext
    | Confirm(position: nat)
    | TakeNext
    | PutNext(outcome: Outcome)
    | Tick(outcome: Outcome)
    | BreakOff
    | DropOne
    | FoundEmpty
    | Retry(event: ChangeEvent)

  /** The LSN that the replication stream is asked to start from: the checkpoint, or the slot's. */
  function Requested(j: Job): nat {
    if j.buffers.checkpoint.Some? then j.buffers.checkpoint.value else j.slotLsn
  }

  /** The server begins at the requested position, or at the confirmed one if that is further. */
  function ResumeLsn(j: Job): nat {
    Max(Requested(j), j.confirmed)
  }

  /** No entry from index `a` on was committed before the position. */
  predicate Precedes(j: Job, position: nat, a: int) {
    forall i | 0 <= i < |j.src.log| && a <= i :: position <= j.src.log[i].commitLsn
  }

  /**
   * The server skips no transaction that was committed at or behind the position it begins at. It
   * may begin earlier, but not with transactions from before the confirmed position.
   */
  predicate Resumable(j: Job, r: nat) {
    && j.slot <= r <= |j.src.log| && Precedes(j, j.confirmed, r)
    && forall i | j.slot <= i < r :: j.src.log[i].commitLsn < ResumeLsn(j)
  }

  /**
   * Transactions arrive in the order of their commits; the changes inside carry LSNs from before
   * the commit, which go back where transactions overlap. A new commit lies behind every position
   * that the server has been asked for or told of.
   */
  predicate Follows(j: Job, e: Entry) {
    && j.slotLsn <= e.commitLsn && e.event.lsn <= e.commitLsn && ResumeLsn(j) <= e.commitLsn
    && (j.src.log != [] ==> j.src.log[|j.src.log| - 1].commitLsn <= e.commitLsn)
  }

  ghost predicate Rows(plan: Plan, j: Job, chunk: nat, rows: Table) {
    forall k :: Lookup(rows, k) == if plan.owner(k) == Some(chunk) then ValueAt(j.src, |j.src.log|, k) else None
  }

  predicate AllDone(plan: Plan, j: Job) {
    forall c | 0 <= c < plan.count :: c in j.done
  }

  /** The records of a chunk that go to the sink in one message. */
  function Part(rows: Table, keys: set<Key>): Table {
    map k | k in rows && k in keys :: rows[k]
  }

  ghost predicate Enabled(plan: Plan, j: Job, step: Step) {
    match step
    case Write(entry) => Follows(j, entry)
    case ReadChunk(chunk, rows) => j.mode.Snapshotting? && chunk < plan.count && Rows(plan, j, chunk, rows)
    case SinkRows(chunk, keys) => j.mode.Snapshotting? && chunk in j.inFlight && Part(j.inFlight[chunk].rows, keys) != map[]
    case StartReading(from) =>
      Resumable(j, from) && (j.mode.Waiting? || (j.mode.Snapshotting? && AllDone(plan, j)))
    case OfferNext => j.mode.Reading? && j.pos < |j.src.log| && HasRoom(j.buffers)
    case Confirm(position) => j.mode.Reading? && Precedes(j, position, j.pos)
    case TakeNext => j.buffers.queue != [] && j.buffers.hand.None?
    case PutNext(outcome) => j.buffers.hand.Some? && Fits(outcome, j.buffers.batch + [j.buffers.hand.value])
    case Tick(outcome) => j.buffers.hand.None? && Fits(outcome, j.buffers.batch)
    case BreakOff => j.mode.Reading?
    case DropOne => j.mode.Draining? && j.buffers.queue != []
    case FoundEmpty => j.mode.Draining? && j.buffers.queue == []
    case Retry(e) => e in j.buffers.ledger.deadLettered
  }

  /** One message of snapshot records is acknowledged; the chunk is done when no record is left. */
  function SinkPart(j: Job, chunk: nat, keys: set<Key>): Job
    requires chunk in j.inFlight
  {
    var read := j.inFlight[chunk];
    var left := read.rows - keys;
    j.(buffers := j.buffers.(docs := j.buffers.docs + Part(read.rows, keys), checkpoint := Some(j.slotLsn)),
       inFlight := j.inFlight[chunk := read.(rows := left)],
       done := if left == map[] then j.done + {chunk} else j.done)
  }

  function Pending(b: Buffers): seq<ChangeEvent> {
    b.batch + (if b.hand.Some? then [b.hand.value] else []) + b.queue
  }

  /** The flush of a batch that is passed through and acknowledged, which is what the protocol counts on. */
  predicate Smooth(o: Outcome, batch: seq<ChangeEvent>) {
    o.results == PassThrough(batch) && o.reply.Accepted?
  }

  /** The job after its buffers changed; a batch that went through brings the sink up to its end. */
  function After(j: Job, b: Buffers, flushed: seq<ChangeEvent>, o: Outcome): Job {
    var end := j.pos - |Pending(b)|;
    j.(buffers := b, lo := if flushed != [] && Smooth(o, flushed) && end >= 0 then end else j.lo)
  }

  function Next(plan: Plan, j: Job, step: Step): Job
    requires Enabled(plan, j, step)
  {
    match step
    case Write(entry) => j.(src := j.src.(log := j.src.log + [entry]))
    case ReadChunk(chunk, rows) =>
      j.(inFlight := j.inFlight[chunk := ChunkRead(|j.src.log|, rows)], far := |j.src.log|,
         done := if rows == map[] then j.done + {chunk} else j.done)
    case SinkRows(chunk, keys) => SinkPart(j, chunk, keys)
    case StartReading(from) => j.(mode := Reading, pos := from, far := Max(j.far, from))
    case OfferNext =>
      j.(buffers := Offer(j.buffers, j.src.log[j.pos].event), pos := j.pos + 1, far := Max(j.far, j.pos + 1))
    case Confirm(position) => j.(confirmed := Max(j.confirmed, position))
    case TakeNext => j.(buffers := Take(j.buffers))
    case PutNext(o) =>
      var batch := j.buffers.batch + [j.buffers.hand.value];
      After(j, Put(j.buffers, o), if |batch| >= BATCH_SIZE then batch else [], o)
    case Tick(o) => After(j, Flush(j.buffers, o), j.buffers.batch, o)
    case BreakOff => j.(mode := Draining, buffers := ClearBatch(j.buffers))
    case DropOne => j.(buffers := DropQueued(j.buffers))
    case FoundEmpty => j.(mode := Waiting)
    case Retry(e) => j.(buffers := j.buffers.(docs := Apply(j.buffers.docs, e)))
  }

  // ---------------------------------------------------------------- the invariant

  predicate Ordered(j: Job) {
    && (forall i, n | 0 <= i <= n < |j.src.log| :: j.src.log[i].commitLsn <= j.src.log[n].commitLsn)
    && (forall i | 0 <= i < |j.src.log| :: j.src.log[i].event.lsn <= j.src.log[i].commitLsn)
    && forall i | j.slot <= i < |j.src.log| :: j.slotLsn <= j.src.log[i].commitLsn
  }

  predicate InRange(j: Job) {
    j.slot <= j.lo <= j.far <= |j.src.log| && j.pos <= j.far
  }

  /** Whatever the server may resume at is not beyond the oldest row of the sink. */
  predicate CheckpointSafe(j: Job) {
    Precedes(j, ResumeLsn(j), j.lo)
  }

  /** What is on its way to the sink is a stretch of the log that ends at the reader's position. */
  predicate InStep(j: Job) {
    var pending := Pending(j.buffers);
    match j.mode
    case Snapshotting => pending == [] && j.lo == j.slot && (j.buffers.checkpoint.Some? ==> j.buffers.checkpoint.value == j.slotLsn)
    case Reading =>
      var a := j.pos - |pending|; Stretch(j.src.log, a, pending) && j.slot <= a <= j.lo && Precedes(j, j.confirmed, a)
    case Draining => j.buffers.batch == [] && j.buffers.hand.None? && Stretch(j.src.log, j.pos - |pending|, pending)
    case Waiting => pending == []
  }

  /** The key belongs to a chunk that is not done yet. */
  predicate Outstanding(plan: Plan, j: Job, k: Key) {
    plan.owner(k).Some? && plan.owner(k).value !in j.done
  }

  /** A key of a chunk that is not done yet may be missing; any other lies between the slot and what has been read. */
  ghost predicate RowsBetween(plan: Plan, j: Job)
    requires j.far <= |j.src.log|
  {
    forall k :: Lookup(j.buffers.docs, k).Some? || !Outstanding(plan, j, k) ==> Between(j.src, j.buffers.docs, k, j.lo, j.far)
  }

  /** A row of a chunk is still to be written, as it was read, or is in the sink. */
  ghost predicate ReadHolds(plan: Plan, j: Job, c: nat, k: Key)
    requires j.far <= |j.src.log| && c in j.inFlight && j.inFlight[c].at <= |j.src.log|
  {
    var row := Lookup(j.inFlight[c].rows, k);
    if plan.owner(k) != Some(c) then row.None?
    else row == ValueAt(j.src, j.inFlight[c].at, k) || (row.None? && Between(j.src, j.buffers.docs, k, j.lo, j.far))
  }

  ghost predicate ReadsHold(plan: Plan, j: Job)
    requires j.far <= |j.src.log|
  {
    forall c | c in j.inFlight :: j.lo <= j.inFlight[c].at <= j.far && forall k :: ReadHolds(plan, j, c, k)
  }

  ghost predicate SinkHolds(plan: Plan, j: Job)
    requires j.far <= |j.src.log|
  {
    if j.mode.Snapshotting? then RowsBetween(plan, j) && ReadsHold(plan, j)
    else AllBetween(j.src, j.buffers.docs, j.lo, j.far)
  }

  ghost predicate PlanHolds(plan: Plan) {
    forall k :: plan.owner(k).Some? ==> plan.owner(k).value < plan.count
  }

  ghost predicate Inv(plan: Plan, j: Job) {
    && PlanHolds(plan) && KeysStay(j.src.log)
    && Ordered(j) && InRange(j) && CheckpointSafe(j) && InStep(j) && SinkHolds(plan, j)
  }

  /**
   * The steps the protocol counts on: keys do not change, flushes go through, nothing is retried
   * besides, no position is confirmed that lies behind an entry still on its way to the sink, and while
   * buffers are being reset the processor neither holds nor takes an event.
   */
  predicate Clean(j: Job, step: Step) {
    match step
    case Write(entry) => entry.movedFrom.None?
    case Confirm(position) => Precedes(j, position, j.pos - |Pending(j.buffers)|)
    case TakeNext => !j.mode.Draining?
    case PutNext(o) =>
      j.buffers.hand.Some? ==>
        var batch := j.buffers.batch + [j.buffers.hand.value]; |batch| >= BATCH_SIZE ==> Smooth(o, batch)
    case Tick(o) => j.buffers.batch != [] ==> Smooth(o, j.buffers.batch)
    case BreakOff => j.buffers.hand.None?
    case Retry(_) => false
    case _ => true
  }

  // ---------------------------------------------------------------- every step keeps it

  lemma WriteKeeps(plan: Plan, j: Job, entry: Entry)
    requires Inv(plan, j) && Enabled(plan, j, Write(entry)) && Clean(j, Write(entry))
    ensures Inv(plan, Next(plan, j, Write(entry)))
  {
    var t := Next(plan, j, Write(entry));
    assert Ordered(t) && KeysStay(t.src.log) by {
      hide SinkHolds, InStep, PlanHolds, CheckpointSafe;
    }
    assert InRange(t) && CheckpointSafe(t) by {
      hide SinkHolds, InStep, PlanHolds, KeysStay, Ordered;
    }
    hide Ordered, CheckpointSafe;
    assert InStep(t) by {
      hide SinkHolds, KeysStay, PlanHolds;
      GrownInStep(j, entry);
    }
    SourceGrows(plan, j, entry);
    hide SinkHolds, InStep, Ordered, CheckpointSafe;
  }

  lemma GrownInStep(j: Job, entry: Entry)
    requires InStep(j) && Follows(j, entry)
    ensures InStep(j.(src := j.src.(log := j.src.log + [entry])))
  {
    var pending := Pending(j.buffers);
    StretchKept(j.src.log, entry, j.pos - |pending|, pending);
    hide Stretch, Pending;
  }

  lemma SourceGrows(plan: Plan, j: Job, entry: Entry)
    requires InRange(j) && SinkHolds(plan, j)
    ensures SinkHolds(plan, j.(src := j.src.(log := j.src.log + [entry])))
  {
    hide Between, ValueAt, Lookup;
    var t := j.(src := j.src.(log := j.src.log + [entry]));
    forall k | Between(j.src, j.buffers.docs, k, j.lo, j.far) ensures Between(t.src, j.buffers.docs, k, j.lo, j.far) {
      BetweenKept(j.src, entry, j.buffers.docs, k, j.lo, j.far);
    }
    if j.mode.Snapshotting? {
      forall c, k | c in j.inFlight ensures ReadHolds(plan, t, c, k) {
        assert ReadHolds(plan, j, c, k);
        ValueKept(j.src, entry, j.inFlight[c].at, k);
      }
    }
  }

  lemma ReadFurther(plan: Plan, j: Job, far: nat)
    requires InRange(j) && j.far <= far <= |j.src.log|
    ensures SinkHolds(plan, j) ==> SinkHolds(plan, j.(far := far))
  {
    hide Between, ValueAt, Lookup;
    forall k | Between(j.src, j.buffers.docs, k, j.lo, j.far) ensures Between(j.src, j.buffers.docs, k, j.lo, far) {
      Widen(j.src, j.buffers.docs, k, j.lo, j.far, j.lo, far);
    }
    if SinkHolds(plan, j) && j.mode.Snapshotting? {
      forall c, k | c in j.inFlight ensures ReadHolds(plan, j.(far := far), c, k) {
        assert ReadHolds(plan, j, c, k);
      }
    }
  }

  lemma Seen(j: Job, k: Key, i: nat)
    requires j.lo <= i <= j.far <= |j.src.log| && Lookup(j.buffers.docs, k) == ValueAt(j.src, i, k)
    ensures Between(j.src, j.buffers.docs, k, j.lo, j.far)
  {
  }

  lemma ReadChunkKeeps(plan: Plan, j: Job, c: nat, rows: Table)
    requires Inv(plan, j) && Enabled(plan, j, ReadChunk(c, rows))
    ensures Inv(plan, Next(plan, j, ReadChunk(c, rows)))
  {
    var now, t := |j.src.log|, Next(plan, j, ReadChunk(c, rows));
    ReadFurther(plan, j, now);
    hide Between, ValueAt, CheckpointSafe, Ordered, KeysStay, Pending;
    forall k | plan.owner(k) == Some(c) && rows == map[] && Lookup(j.buffers.docs, k).None?
      ensures Between(j.src, j.buffers.docs, k, j.lo, now)
    {
      assert Lookup(rows, k).None?;
      Seen(j.(far := now), k, now);
    }
    forall d, k | d in t.inFlight ensures ReadHolds(plan, t, d, k) {
      if d != c {
        assert ReadHolds(plan, j.(far := now), d, k);
      }
    }
  }

  lemma SinkRowsKeeps(plan: Plan, j: Job, c: nat, keys: set<Key>)
    requires Inv(plan, j) && Enabled(plan, j, SinkRows(c, keys))
    ensures Inv(plan, Next(plan, j, SinkRows(c, keys)))
  {
    var t := Next(plan, j, SinkRows(c, keys));
    assert RowsBetween(plan, t) by {
      hide Between, ValueAt, CheckpointSafe, Ordered, KeysStay, Pending, ReadsHold;
      forall k | Lookup(t.buffers.docs, k).Some? || !Outstanding(plan, t, k) ensures Between(t.src, t.buffers.docs, k, t.lo, t.far) {
        SinkRowsKey(plan, j, c, keys, k);
      }
    }
    assert ReadsHold(plan, t) by {
      hide Between, ValueAt, CheckpointSafe, Ordered, KeysStay, Pending, RowsBetween;
      forall d, k | d in t.inFlight ensures ReadHolds(plan, t, d, k) {
        SinkRowsRead(plan, j, c, keys, d, k);
      }
    }
    hide SinkHolds, Between, ValueAt, Ordered, KeysStay, RowsBetween, ReadsHold;
    assert SinkHolds(plan, t) by {
      SinkHoldsOf(plan, t);
    }
  }

  lemma SinkHoldsOf(plan: Plan, j: Job)
    requires j.far <= |j.src.log| && j.mode.Snapshotting? && RowsBetween(plan, j) && ReadsHold(plan, j)
    ensures SinkHolds(plan, j)
  {
  }

  lemma SinkRowsRead(plan: Plan, j: Job, c: nat, keys: set<Key>, d: nat, k: Key)
    requires Inv(plan, j) && Enabled(plan, j, SinkRows(c, keys)) && d in j.inFlight
    ensures var t := Next(plan, j, SinkRows(c, keys));
            t.lo <= t.inFlight[d].at <= t.far <= |t.src.log| && ReadHolds(plan, t, d, k)
  {
    SinkRowsKey(plan, j, c, keys, k);
    hide Between, ValueAt, CheckpointSafe, Ordered, KeysStay, Pending, RowsBetween;
    assert ReadHolds(plan, j, d, k) && ReadHolds(plan, j, c, k);
  }

  lemma SinkRowsKey(plan: Plan, j: Job, c: nat, keys: set<Key>, k: Key)
    requires Inv(plan, j) && Enabled(plan, j, SinkRows(c, keys))
    ensures var t := Next(plan, j, SinkRows(c, keys));
            Between(t.src, t.buffers.docs, k, t.lo, t.far)
            || (Lookup(t.buffers.docs, k).None? && Outstanding(plan, t, k) && !(k in j.inFlight[c].rows && k in keys))
  {
    hide ValueAt, CheckpointSafe, Ordered, KeysStay, Pending;
    var read, t := j.inFlight[c], Next(plan, j, SinkRows(c, keys));
    assert ReadHolds(plan, j, c, k);
    if k in read.rows && k in keys {
      assert Lookup(t.buffers.docs, k) == Some(read.rows[k]) == ValueAt(j.src, read.at, k);
    } else {
      assert Lookup(t.buffers.docs, k) == Lookup(j.buffers.docs, k);
      var left := read.rows - keys;
      assert k in left <==> k in read.rows;
    }
  }

  lemma StartReadingKeeps(plan: Plan, j: Job, r: nat)
    requires Inv(plan, j) && Enabled(plan, j, StartReading(r))
    ensures Inv(plan, Next(plan, j, StartReading(r)))
  {
    var t := Next(plan, j, StartReading(r));
    assert r <= j.lo by {
      hide SinkHolds, InStep, KeysStay;
      assert j.lo < |j.src.log| ==> ResumeLsn(j) <= j.src.log[j.lo].commitLsn;
    }
    assert AllBetween(j.src, j.buffers.docs, j.lo, j.far) by {
      hide Between, ValueAt, Lookup, KeysStay, Ordered, CheckpointSafe, ReadsHold;
      forall k ensures Between(j.src, j.buffers.docs, k, j.lo, j.far) {
        assert j.mode.Snapshotting? ==> !Outstanding(plan, j, k);
      }
    }
    assert InStep(t) by {
      hide SinkHolds, KeysStay, Ordered, CheckpointSafe, AllBetween;
    }
    hide SinkHolds, AllBetween, Ordered, InStep, KeysStay, Lookup;
    SinkHoldsReading(plan, t);
  }

  lemma OfferNextKeeps(plan: Plan, j: Job)
    requires Inv(plan, j) && Enabled(plan, j, OfferNext)
    ensures Inv(plan, Next(plan, j, OfferNext))
  {
    var t := Next(plan, j, OfferNext);
    assert SinkHolds(plan, t) by {
      hide AllBetween, Ordered, CheckpointSafe, InStep, KeysStay;
      ReadFurther(plan, j, Max(j.far, j.pos + 1));
    }
    hide SinkHolds, Ordered, KeysStay, Precedes;
    assert InStep(t) by {
      hide CheckpointSafe;
      assert Pending(t.buffers) == Pending(j.buffers) + [j.src.log[j.pos].event];
    }
    hide InStep;
  }

  lemma ConfirmKeeps(plan: Plan, j: Job, position: nat)
    requires Inv(plan, j) && Enabled(plan, j, Confirm(position)) && Clean(j, Confirm(position))
    ensures Inv(plan, Next(plan, j, Confirm(position)))
  {
    var t := Next(plan, j, Confirm(position));
    hide Between, ValueAt, Lookup, KeysStay, Stretch, Pending;
    assert SinkHolds(plan, t) by {
      SinkKept(plan, j, t);
    }
    hide SinkHolds;
  }

  /** The sink is judged by the source, the rows and what has been read of it only. */
  lemma SinkKept(plan: Plan, j: Job, t: Job)
    requires j.far <= |j.src.log| && t.buffers.docs == j.buffers.docs
    requires t == j.(buffers := t.buffers, confirmed := t.confirmed)
    ensures SinkHolds(plan, t) <==> SinkHolds(plan, j)
  {
    hide Between, ValueAt, Lookup;
    if j.mode.Snapshotting? {
      forall c, k | c in j.inFlight && j.inFlight[c].at <= |j.src.log|
        ensures ReadHolds(plan, t, c, k) <==> ReadHolds(plan, j, c, k)
      {
      }
    }
  }

  /** What the invariant says beside the buffers does not depend on them, as long as no row is written. */
  lemma StillOrdered(plan: Plan, j: Job, t: Job)
    requires Ordered(j) && CheckpointSafe(j) && j.far <= |j.src.log| && SinkHolds(plan, j)
    requires !j.mode.Snapshotting? && !t.mode.Snapshotting?
    requires t == j.(buffers := t.buffers, mode := t.mode)
    requires t.buffers.docs == j.buffers.docs && t.buffers.checkpoint == j.buffers.checkpoint
    ensures Ordered(t) && CheckpointSafe(t) && SinkHolds(plan, t)
  {
    hide Between, ValueAt, Lookup;
  }

  lemma TakeNextKeeps(plan: Plan, j: Job)
    requires Inv(plan, j) && Enabled(plan, j, TakeNext) && Clean(j, TakeNext)
    ensures Inv(plan, Next(plan, j, TakeNext))
  {
    var t := Next(plan, j, TakeNext);
    hide SinkHolds, Ordered, CheckpointSafe, Precedes, KeysStay;
    assert InStep(t) by {
      hide Stretch;
      assert Pending(t.buffers) == Pending(j.buffers) by {
        assert j.buffers.queue == [j.buffers.queue[0]] + j.buffers.queue[1..];
      }
    }
    assert !j.mode.Snapshotting?;
    hide InStep;
    StillOrdered(plan, j, t);
  }

  lemma BreakOffKeeps(plan: Plan, j: Job)
    requires Inv(plan, j) && Enabled(plan, j, BreakOff) && Clean(j, BreakOff)
    ensures Inv(plan, Next(plan, j, BreakOff))
  {
    var t := Next(plan, j, BreakOff);
    hide SinkHolds, Ordered, CheckpointSafe, Precedes, KeysStay;
    assert InStep(t) by {
      ClearedInStep(j);
    }
    hide InStep;
    StillOrdered(plan, j, t);
  }

  lemma ClearedInStep(j: Job)
    requires InStep(j) && j.mode.Reading? && j.buffers.hand.None?
    ensures InStep(j.(mode := Draining, buffers := ClearBatch(j.buffers)))
  {
    var b := j.buffers;
    assert Pending(b) == b.batch + b.queue && Pending(ClearBatch(b)) == b.queue;
    hide Pending, Precedes;
    StretchSplit(j.src.log, j.pos - |Pending(b)|, b.batch, b.queue);
    hide Stretch;
  }

  lemma DropOneKeeps(plan: Plan, j: Job)
    requires Inv(plan, j) && Enabled(plan, j, DropOne)
    ensures Inv(plan, Next(plan, j, DropOne))
  {
    var t := Next(plan, j, DropOne);
    hide SinkHolds, Ordered, CheckpointSafe, Precedes, KeysStay;
    assert InStep(t) by {
      DroppedInStep(j);
    }
    hide InStep;
    StillOrdered(plan, j, t);
  }

  lemma DroppedInStep(j: Job)
    requires InStep(j) && j.mode.Draining? && j.buffers.queue != []
    ensures InStep(j.(buffers := DropQueued(j.buffers)))
  {
    hide Pending, Stretch, Precedes, DropQueued;
    StretchDropped(j.src.log, j.pos - |Pending(j.buffers)|, j.buffers);
  }

  lemma StretchDropped(log: seq<Entry>, a: int, b: Buffers)
    requires b.batch == [] && b.hand.None? && b.queue != [] && Stretch(log, a, Pending(b))
    ensures var d := DropQueued(b);
            d.batch == [] && d.hand.None? && |Pending(d)| == |Pending(b)| - 1 && Stretch(log, a + 1, Pending(d))
  {
    assert Pending(b) == b.queue && Pending(DropQueued(b)) == b.queue[1..];
    hide Pending;
  }

  lemma FoundEmptyKeeps(plan: Plan, j: Job)
    requires Inv(plan, j) && Enabled(plan, j, FoundEmpty)
    ensures Inv(plan, Next(plan, j, FoundEmpty))
  {
    hide Between;
  }

  lemma SmoothFlush(b: Buffers, o: Outcome)
    requires b.batch != [] && Smooth(o, b.batch)
    ensures var f := Flush(b, o);
            && f.batch == [] && f.hand == b.hand && f.queue == b.queue
            && f.docs == ApplyAll(b.docs, b.batch) && f.checkpoint == Some(b.batch[|b.batch| - 1].lsn)
  {
    hide ApplyAll, Sifted;
    PassedThrough(b.batch);
  }

  /** The front of a stretch is a stretch, and so is what is left of it. */
  lemma StretchSplit(log: seq<Entry>, a: int, front: seq<ChangeEvent>, rest: seq<ChangeEvent>)
    requires Stretch(log, a, front + rest)
    ensures Stretch(log, a, front) && Stretch(log, a + |front|, rest)
  {
    forall i | 0 <= i < |front| ensures front[i] == log[a + i].event {
      assert front[i] == (front + rest)[i];
    }
    forall i | 0 <= i < |rest| ensures rest[i] == log[a + |front| + i].event {
      assert rest[i] == (front + rest)[|front| + i];
    }
  }

  /** What a batch that goes through changes, and that it changes nothing else. */
  predicate FlushedTo(j: Job, t: Job) {
    var b := j.buffers;
    && t == j.(buffers := t.buffers, lo := t.lo)
    && b.batch != [] && t.lo == j.pos - |Pending(b)| + |b.batch|
    && Pending(b) == b.batch + Pending(t.buffers)
    && t.buffers.docs == ApplyAll(b.docs, b.batch)
    && t.buffers.checkpoint == Some(b.batch[|b.batch| - 1].lsn)
  }

  lemma FlushPending(b: Buffers, o: Outcome)
    requires b.batch != [] && Smooth(o, b.batch)
    ensures Pending(b) == b.batch + Pending(Flush(b, o))
  {
    SmoothFlush(b, o);
    hide Flush, Smooth;
  }

  lemma FlushShape(j: Job, o: Outcome)
    requires j.buffers.batch != [] && Smooth(o, j.buffers.batch) && |Pending(j.buffers)| <= j.pos + |j.buffers.batch|
    ensures FlushedTo(j, After(j, Flush(j.buffers, o), j.buffers.batch, o))
  {
    SmoothFlush(j.buffers, o);
    FlushPending(j.buffers, o);
    hide Flush, Smooth, ApplyAll, Pending;
  }

  /** A batch that goes through moves the oldest row of the sink, and with it the checkpoint, to the end of the batch. */
  lemma FlushKeeps(plan: Plan, j: Job, o: Outcome)
    requires Inv(plan, j) && j.mode.Reading? && j.buffers.batch != [] && Smooth(o, j.buffers.batch)
    ensures Inv(plan, After(j, Flush(j.buffers, o), j.buffers.batch, o))
  {
    assert |Pending(j.buffers)| <= j.pos by {
      hide SinkHolds, Ordered, CheckpointSafe, Pending;
    }
    FlushShape(j, o);
    hide Inv, After, Flush, FlushedTo, Pending;
    FlushedKeeps(plan, j, After(j, Flush(j.buffers, o), j.buffers.batch, o));
  }

  lemma FlushedKeeps(plan: Plan, j: Job, t: Job)
    requires Inv(plan, j) && j.mode.Reading? && FlushedTo(j, t)
    ensures Inv(plan, t)
  {
    hide Pending, ApplyAll, SinkHolds, PlanHolds;
    FlushedInStep(j, t);
    assert AllBetween(t.src, t.buffers.docs, t.lo, t.far) by {
      hide Ordered, CheckpointSafe, InStep;
      FlushedSink(plan, j, j.pos - |Pending(j.buffers)|);
    }
    hide Stretch, AllBetween, CheckpointSafe, Ordered, InStep, InRange, KeysStay;
    assert SinkHolds(plan, t) by {
      SinkHoldsReading(plan, t);
    }
  }

  lemma SinkHoldsReading(plan: Plan, j: Job)
    requires j.far <= |j.src.log| && !j.mode.Snapshotting?
    ensures SinkHolds(plan, j) <==> AllBetween(j.src, j.buffers.docs, j.lo, j.far)
  {
    hide AllBetween, RowsBetween, ReadsHold;
  }

  lemma FlushedInStep(j: Job, t: Job)
    requires Ordered(j) && InRange(j) && CheckpointSafe(j) && InStep(j) && j.mode.Reading?
    requires FlushedTo(j, t)
    ensures Stretch(j.src.log, j.pos - |Pending(j.buffers)|, j.buffers.batch)
    ensures Ordered(t) && InRange(t) && CheckpointSafe(t) && InStep(t)
  {
    hide Pending, ApplyAll;
    var b := j.buffers.batch;
    assert Stretch(j.src.log, j.pos - |Pending(j.buffers)|, b) && Stretch(j.src.log, t.lo, Pending(t.buffers)) by {
      hide Ordered, CheckpointSafe;
      StretchSplit(j.src.log, j.pos - |Pending(j.buffers)|, b, Pending(t.buffers));
    }
    assert b[|b| - 1] == j.src.log[t.lo - 1].event;
    hide Stretch;
    assert CheckpointSafe(t) by {
      LastCommitted(j, t.lo - 1);
    }
    hide CheckpointSafe;
  }

  lemma LastCommitted(j: Job, n: nat)
    requires Ordered(j) && n < |j.src.log|
    ensures Precedes(j, j.src.log[n].event.lsn, n)
  {
  }

  lemma FlushedSink(plan: Plan, j: Job, a: nat)
    requires SinkHoldsNow(plan, j) && KeysStay(j.src.log) && a <= j.lo && Stretch(j.src.log, a, j.buffers.batch)
    requires a + |j.buffers.batch| <= j.far
    ensures AllBetween(j.src, ApplyAll(j.buffers.docs, j.buffers.batch), a + |j.buffers.batch|, j.far)
  {
    hide ApplyAll, AllBetween, RowsBetween, ReadsHold, Stretch, KeysStay;
    ReplayStretch(j.src, j.buffers.docs, j.lo, j.far, a, j.buffers.batch);
  }

  ghost predicate SinkHoldsNow(plan: Plan, j: Job) {
    j.far <= |j.src.log| && !j.mode.Snapshotting? && SinkHolds(plan, j)
  }

  lemma AppendKeeps(plan: Plan, j: Job)
    requires Inv(plan, j) && j.buffers.hand.Some?
    ensures Inv(plan, j.(buffers := Append(j.buffers)))
  {
    assert Pending(Append(j.buffers)) == Pending(j.buffers);
    hide Between, ValueAt, Lookup, Ordered, KeysStay, Stretch, Pending;
  }

  lemma PutNextKeeps(plan: Plan, j: Job, o: Outcome)
    requires Inv(plan, j) && Enabled(plan, j, PutNext(o)) && Clean(j, PutNext(o))
    ensures Inv(plan, Next(plan, j, PutNext(o)))
  {
    var appended := j.(buffers := Append(j.buffers));
    assert j.mode.Reading? by {
      hide SinkHolds, Ordered, CheckpointSafe;
    }
    AppendKeeps(plan, j);
    hide Inv;
    if IsFull(appended.buffers) {
      FlushKeeps(plan, appended, o);
      assert Next(plan, j, PutNext(o)) == After(appended, Flush(appended.buffers, o), appended.buffers.batch, o) by {
        hide Flush;
      }
    } else {
      assert Next(plan, j, PutNext(o)) == appended by {
        hide Flush;
      }
    }
  }

  lemma TickKeeps(plan: Plan, j: Job, o: Outcome)
    requires Inv(plan, j) && Enabled(plan, j, Tick(o)) && Clean(j, Tick(o))
    ensures Inv(plan, Next(plan, j, Tick(o)))
  {
    if j.buffers.batch != [] {
      assert j.mode.Reading? by {
        hide SinkHolds, Ordered, CheckpointSafe;
      }
      hide Inv, Flush;
      FlushKeeps(plan, j, o);
    } else {
      assert Next(plan, j, Tick(o)) == j;
    }
  }

  /** Every clean step keeps the invariant. */
  lemma StepKeeps(plan: Plan, j: Job, step: Step)
    requires Inv(plan, j) && Enabled(plan, j, step) && Clean(j, step)
    ensures Inv(plan, Next(plan, j, step))
  {
    assert !step.Retry?;
    hide Inv, Next, Enabled, Clean;
    match step
    case Write(entry) => WriteKeeps(plan, j, entry);
    case ReadChunk(c, rows) => ReadChunkKeeps(plan, j, c, rows);
    case SinkRows(c, keys) => SinkRowsKeeps(plan, j, c, keys);
    case StartReading(r) => StartReadingKeeps(plan, j, r);
    case OfferNext => OfferNextKeeps(plan, j);
    case Confirm(position) => ConfirmKeeps(plan, j, position);
    case TakeNext => TakeNextKeeps(plan, j);
    case PutNext(o) => PutNextKeeps(plan, j, o);
    case Tick(o) => TickKeeps(plan, j, o);
    case BreakOff => BreakOffKeeps(plan, j);
    case DropOne => DropOneKeeps(plan, j);
    case FoundEmpty => FoundEmptyKeeps(plan, j);
    case Retry(_) => assert false;
  }
}
