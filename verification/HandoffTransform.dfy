/**
 * The handoff with a transform service in it. Every event is transformed on its own, snapshot
 * records like changes; events may be removed. A job that transforms a log does what a job without
 * a transform does on the transformed log, but for its checkpoint, which stays behind where the last
 * events of a batch are removed. So it arrives at what the transform makes of the source.
 */
module HandoffTransform {
  import opened Wrappers
  import opened Pipeline
  import opened Replay
  import opened Handoff
  import opened HandoffRuns

  // ---------------------------------------------------------------- transforms

  type Transform = ChangeEvent -> Option<ChangeEvent>

  /** The service leaves an event's position alone, as it does when it changes documents and keys. */
  ghost predicate KeepsPositions(f: Transform) {
    forall e :: f(e).Some? ==> f(e).value.lsn == e.lsn
  }

  /** The service removes nothing and changes a row's document by the row alone. */
  ghost predicate ActsOnRows(f: Transform, g: (Key, Document) -> Document) {
    forall e: ChangeEvent :: f(e) == Some(e.(document := g(e.key, e.document)))
  }

  /** What the service returns for a batch. */
  function Results(f: Transform, batch: seq<ChangeEvent>): (results: seq<Option<ChangeEvent>>)
    ensures |results| == |batch| && forall i | 0 <= i < |batch| :: results[i] == f(batch[i])
  {
    seq(|batch|, i requires 0 <= i < |batch| => f(batch[i]))
  }

  /** The records of a chunk as they go to the sink. */
  function SentRows(f: Transform, lsn: nat, rows: Table): Table {
    map k | k in rows && f(ChangeEvent(lsn, Insert, k, rows[k])).Some? :: f(ChangeEvent(lsn, Insert, k, rows[k])).value.document
  }

  // ---------------------------------------------------------------- the job with the service

  /** The step with the service in it: snapshot records are transformed; a flush takes what the service returned. */
  function NextBy(f: Transform, plan: Plan, j: Job, step: Step): Job
    requires Enabled(plan, j, step)
  {
    var t := Next(plan, j, step);
    if step.SinkRows? then
      var sent := SentRows(f, j.slotLsn, Part(j.inFlight[step.chunk].rows, step.keys));
      t.(buffers := t.buffers.(docs := j.buffers.docs + sent,
                               checkpoint := if sent == map[] then j.buffers.checkpoint else t.buffers.checkpoint))
    else t
  }

  /** The batch that a step flushes, if it flushes one. */
  function Flushed(b: Buffers, step: Step): seq<ChangeEvent> {
    if step.Tick? then b.batch
    else if step.PutNext? && b.hand.Some? && |b.batch| + 1 >= BATCH_SIZE then b.batch + [b.hand.value]
    else []
  }

  /** The steps that are counted on: as without the service, but that a flush takes its results. */
  predicate CleanBy(f: Transform, j: Job, step: Step) {
    if step.Tick? || step.PutNext? then
      Flushed(j.buffers, step) != [] ==> step.outcome.results == Results(f, Flushed(j.buffers, step)) && step.outcome.reply.Accepted?
    else Clean(j, step)
  }

  ghost predicate LeadsBy(f: Transform, plan: Plan, j: Job, steps: seq<Step>, t: Job)
    decreases |steps|
  {
    if steps == [] then j == t
    else && Enabled(plan, j, steps[0]) && CleanBy(f, j, steps[0])
         && LeadsBy(f, plan, NextBy(f, plan, j, steps[0]), steps[1..], t)
  }

  // ---------------------------------------------------------------- the transformed log

  /** What stands for an event in the transformed log; a removed one changes nothing. */
  function Image(f: Transform, e: ChangeEvent): ChangeEvent {
    if f(e).Some? then f(e).value else e.(op := Other)
  }

  function Images(f: Transform, events: seq<ChangeEvent>): (images: seq<ChangeEvent>)
    ensures |images| == |events| && forall i | 0 <= i < |events| :: images[i] == Image(f, events[i])
  {
    seq(|events|, i requires 0 <= i < |events| => Image(f, events[i]))
  }

  function ImageEntry(f: Transform, e: Entry): Entry {
    e.(event := Image(f, e.event))
  }

  function ImageLog(f: Transform, log: seq<Entry>): (images: seq<Entry>)
    ensures |images| == |log| && forall i | 0 <= i < |log| :: images[i] == ImageEntry(f, log[i])
  {
    seq(|log|, i requires 0 <= i < |log| => ImageEntry(f, log[i]))
  }

  function ImageBuffers(f: Transform, b: Buffers): Buffers {
    b.(queue := Images(f, b.queue), hand := if b.hand.Some? then Some(Image(f, b.hand.value)) else None, batch := Images(f, b.batch))
  }

  /** `v` is the job on the transformed log; what history it records is its own. */
  predicate Mirrors(f: Transform, j: Job, v: Job) {
    && v == j.(src := v.src, inFlight := v.inFlight, buffers := v.buffers, lo := v.lo)
    && v.src.log == ImageLog(f, j.src.log)
    && v.buffers == ImageBuffers(f, j.buffers).(ledger := v.buffers.ledger)
  }

  lemma PendingImages(f: Transform, b: Buffers, c: Buffers)
    requires c == ImageBuffers(f, b).(ledger := c.ledger)
    ensures Pending(c) == Images(f, Pending(b))
  {
  }

  /** Applying what the service returns is applying what stands for the events. */
  lemma {:induction false} ImagesApply(f: Transform, docs: Table, batch: seq<ChangeEvent>)
    ensures ApplyAll(docs, Images(f, batch)) == ApplyAll(docs, Transformed(Results(f, batch)))
    decreases |batch|
  {
    if batch != [] {
      var n := |batch| - 1;
      ImagesApply(f, docs, batch[..n]);
      assert Images(f, batch)[..n] == Images(f, batch[..n]) && Results(f, batch)[..n] == Results(f, batch[..n]);
      TransformedSnoc(docs, Results(f, batch));
    } else {
      assert Images(f, batch) == [] && Results(f, batch) == [];
    }
  }

  // ---------------------------------------------------------------- a flush, mirrored

  /** A checkpoint that still precedes the oldest row may take the place of a further one, and the oldest row may be further on. */
  lemma OtherCheckpoint(plan: Plan, w: Job, x: Job)
    requires Inv(plan, w) && w.mode.Reading? && x == w.(lo := x.lo, buffers := w.buffers.(checkpoint := x.buffers.checkpoint))
    requires w.lo <= x.lo <= x.far && Precedes(x, Requested(x), x.lo) && AllBetween(x.src, x.buffers.docs, x.lo, x.far)
    ensures Inv(plan, x)
  {
    hide AllBetween, KeysStay, Stretch;
    assert Pending(x.buffers) == Pending(w.buffers);
    assert CheckpointSafe(x) by {
      hide InStep, SinkHolds, Ordered;
    }
    assert InStep(x) by {
      hide SinkHolds, Ordered, Pending, CheckpointSafe;
    }
    hide InStep, CheckpointSafe, Pending, Precedes;
    SinkHoldsReading(plan, x);
  }

  lemma InvBetween(plan: Plan, w: Job)
    requires Inv(plan, w) && w.mode.Reading?
    ensures w.slot <= w.lo <= w.far <= |w.src.log| && AllBetween(w.src, w.buffers.docs, w.lo, w.far)
    ensures Precedes(w, ResumeLsn(w), w.lo) && Ordered(w) && KeysStay(w.src.log)
    ensures 0 <= w.pos - |Pending(w.buffers)| <= w.lo && w.pos <= |w.src.log| && Stretch(w.src.log, w.pos - |Pending(w.buffers)|, Pending(w.buffers))
  {
    hide AllBetween, KeysStay, Stretch, Pending;
    SinkHoldsReading(plan, w);
  }

  /** The position of the last result is one that every later entry was committed at or behind. */
  lemma LastBehind(f: Transform, v: Job, a: int, batch: seq<ChangeEvent>, checkpoint: Option<nat>)
    requires Ordered(v) && Stretch(v.src.log, a, Images(f, batch)) && KeepsPositions(f)
    requires LastPosition(Results(f, batch), checkpoint)
    ensures checkpoint.Some? && Precedes(v, checkpoint.value, a + |batch|)
  {
    var i :| 0 <= i < |batch| && f(batch[i]).Some? && checkpoint == Some(f(batch[i]).value.lsn);
    assert Images(f, batch)[i] == v.src.log[a + i].event;
    var e := v.src.log[a + i];
    assert checkpoint.value == e.event.lsn <= e.commitLsn;
    forall n | 0 <= n < |v.src.log| && a + |batch| <= n ensures checkpoint.value <= v.src.log[n].commitLsn {
      assert e.commitLsn <= v.src.log[n].commitLsn;
    }
  }

  /** What a flush that takes the service's results leaves. */
  predicate FlushedBy(f: Transform, j: Job, t: Job) {
    var b := j.buffers;
    && t == j.(buffers := t.buffers, lo := t.lo) && b.batch != [] && b.hand.None?
    && t.buffers.batch == [] && t.buffers.hand.None? && t.buffers.queue == b.queue
    && t.buffers.docs == ApplyAll(b.docs, Images(f, b.batch))
    && if AnyResult(Results(f, b.batch)) then LastPosition(Results(f, b.batch), t.buffers.checkpoint)
       else t.buffers.docs == b.docs && t.buffers.checkpoint == b.checkpoint
  }

  lemma FlushBy(f: Transform, j: Job, o: Outcome)
    requires j.buffers.batch != [] && j.buffers.hand.None? && o.results == Results(f, j.buffers.batch) && o.reply.Accepted?
    ensures FlushedBy(f, j, After(j, Flush(j.buffers, o), j.buffers.batch, o))
  {
    FlushExactly(j.buffers, o);
    LastSent(o.results);
    ImagesApply(f, j.buffers.docs, j.buffers.batch);
    hide ApplyAll, Transformed, AnyResult, LastPosition, TableFollows, Sifted, Smooth;
    if AnyResult(o.results) {
      assert Flush(j.buffers, o).docs == ApplyAll(j.buffers.docs, Transformed(o.results));
    } else {
      NothingApplied(j.buffers.docs, o.results);
    }
  }

  lemma NothingApplied(docs: Table, results: seq<Option<ChangeEvent>>)
    requires Transformed(results) == []
    ensures ApplyAll(docs, Transformed(results)) == docs
  {
  }

  /** The same flush without the service on the transformed log, up to the checkpoint. */
  lemma SmoothOn(plan: Plan, v: Job) returns (w: Job)
    requires Inv(plan, v) && v.mode.Reading? && v.buffers.batch != [] && v.buffers.hand.None?
    ensures Inv(plan, w) && w == v.(buffers := w.buffers, lo := w.lo) && w.lo == v.pos - |Pending(v.buffers)| + |v.buffers.batch|
    ensures w.buffers == v.buffers.(batch := [], docs := w.buffers.docs, checkpoint := w.buffers.checkpoint, ledger := w.buffers.ledger)
    ensures w.buffers.docs == ApplyAll(v.buffers.docs, v.buffers.batch)
  {
    InvBetween(plan, v);
    hide Inv, Ordered, KeysStay, AllBetween, Stretch, Precedes;
    var o := Smoothly(v.buffers.batch);
    FlushKeeps(plan, v, o);
    FlushShape(v, o);
    SmoothFlush(v.buffers, o);
    w := After(v, Flush(v.buffers, o), v.buffers.batch, o);
    hide Flush, ApplyAll, Pending;
  }

  lemma MirrorFlush(f: Transform, plan: Plan, j: Job, t: Job, v: Job) returns (x: Job)
    requires KeepsPositions(f) && Mirrors(f, j, v) && Inv(plan, v) && j.mode.Reading? && FlushedBy(f, j, t)
    ensures Mirrors(f, t, x) && Inv(plan, x) && x.src == v.src && x.inFlight == v.inFlight
  {
    var b, a := j.buffers, v.pos - |Pending(v.buffers)|;
    assert v.buffers.batch == Images(f, b.batch) && v.buffers.hand.None? && |v.buffers.batch| == |b.batch|;
    InvBetween(plan, v);
    var w := SmoothOn(plan, v);
    InvBetween(plan, w);
    assert Images(f, []) == [];
    var lo := if AnyResult(Results(f, b.batch)) then w.lo else Max(v.lo, w.lo);
    x := w.(lo := lo, buffers := w.buffers.(checkpoint := t.buffers.checkpoint));
    assert Mirrors(f, t, x) by {
      hide ApplyAll, Inv, Ordered, KeysStay, AllBetween, Stretch, Precedes, AnyResult, LastPosition, Pending;
    }
    MirrorSafe(f, plan, j, t, v, w, x);
    hide Inv, Ordered, KeysStay, AllBetween, Stretch, Precedes, AnyResult, LastPosition, Pending, ApplyAll, FlushedBy;
    OtherCheckpoint(plan, w, x);
  }

  lemma BatchStretch(plan: Plan, v: Job)
    requires Inv(plan, v) && v.mode.Reading? && v.buffers.hand.None?
    ensures Stretch(v.src.log, v.pos - |Pending(v.buffers)|, v.buffers.batch)
  {
    InvBetween(plan, v);
    hide Inv, Ordered, KeysStay, AllBetween, Precedes;
    assert Pending(v.buffers) == v.buffers.batch + v.buffers.queue;
    hide Pending;
    StretchSplit(v.src.log, v.pos - |Pending(v.buffers)|, v.buffers.batch, v.buffers.queue);
  }

  /** The checkpoint that the service's results lead to precedes the oldest row. */
  lemma MirrorSafe(f: Transform, plan: Plan, j: Job, t: Job, v: Job, w: Job, x: Job)
    requires KeepsPositions(f) && Mirrors(f, j, v) && Inv(plan, v) && Inv(plan, w) && j.mode.Reading? && FlushedBy(f, j, t)
    requires w == v.(buffers := w.buffers, lo := w.lo) && w.lo == v.pos - |Pending(v.buffers)| + |v.buffers.batch|
    requires w.buffers.docs == ApplyAll(v.buffers.docs, v.buffers.batch) && w.mode.Reading?
    requires x == w.(lo := x.lo, buffers := w.buffers.(checkpoint := t.buffers.checkpoint))
    requires x.lo == if AnyResult(Results(f, j.buffers.batch)) then w.lo else Max(v.lo, w.lo)
    ensures w.lo <= x.lo <= x.far && Precedes(x, Requested(x), x.lo) && AllBetween(x.src, x.buffers.docs, x.lo, x.far)
  {
    hide Inv, Ordered, KeysStay, AllBetween, Stretch, Pending, ApplyAll, LastPosition, AnyResult, Precedes;
    InvBetween(plan, v);
    InvBetween(plan, w);
    if AnyResult(Results(f, j.buffers.batch)) {
      BatchStretch(plan, v);
      LastBehind(f, v, v.pos - |Pending(v.buffers)|, j.buffers.batch, t.buffers.checkpoint);
      PrecedesSame(v, x, t.buffers.checkpoint.value, w.lo);
    } else {
      assert x.buffers.docs == v.buffers.docs;
      PrecedesFurther(v, x, ResumeLsn(v), Requested(x), v.lo, x.lo);
    }
  }

  lemma PrecedesSame(v: Job, x: Job, position: nat, a: int)
    requires Precedes(v, position, a) && x.src == v.src
    ensures Precedes(x, position, a)
  {
  }

  lemma PrecedesFurther(v: Job, x: Job, position: nat, less: nat, a: int, b: int)
    requires Precedes(v, position, a) && x.src == v.src && less <= position && a <= b
    ensures Precedes(x, less, b)
  {
  }

  // ---------------------------------------------------------------- every step, mirrored

  function MapTable(g: (Key, Document) -> Document, docs: Table): Table {
    map k | k in docs :: g(k, docs[k])
  }

  function MapRow(g: (Key, Document) -> Document, k: Key, row: Option<Document>): Option<Document> {
    if row.Some? then Some(g(k, row.value)) else None
  }

  lemma MappedRow(g: (Key, Document) -> Document, docs: Table, k: Key)
    ensures Lookup(MapTable(g, docs), k) == MapRow(g, k, Lookup(docs, k))
  {
  }

  /** The chunks that have been read hold the transformed rows of the table as it was when the slot was created. */
  predicate MirrorsReads(g: (Key, Document) -> Document, j: Job, v: Job) {
    && v.src.base == MapTable(g, j.src.base) && v.inFlight.Keys == j.inFlight.Keys
    && forall c | c in j.inFlight :: v.inFlight[c] == j.inFlight[c].(rows := MapTable(g, j.inFlight[c].rows))
  }

  /** While the table is being read, if there is anything to read, the service has to act on rows. */
  ghost predicate Reading(f: Transform, g: (Key, Document) -> Document, plan: Plan, j: Job, v: Job) {
    if plan.count == 0 then j.inFlight == map[] == v.inFlight else ActsOnRows(f, g) && MirrorsReads(g, j, v)
  }

  ghost predicate Mirrored(f: Transform, g: (Key, Document) -> Document, plan: Plan, j: Job, v: Job) {
    Mirrors(f, j, v) && Inv(plan, v) && KeepsPositions(f) && (j.mode.Snapshotting? ==> Reading(f, g, plan, j, v))
  }

  lemma ApplyMapped(g: (Key, Document) -> Document, docs: Table, e: ChangeEvent)
    ensures Apply(MapTable(g, docs), e.(document := g(e.key, e.document))) == MapTable(g, Apply(docs, e))
  {
  }

  lemma RowImage(f: Transform, g: (Key, Document) -> Document, log: seq<Entry>, i: nat)
    requires ActsOnRows(f, g) && i < |log|
    ensures ImageLog(f, log)[i] == log[i].(event := log[i].event.(document := g(log[i].event.key, log[i].event.document)))
  {
  }

  lemma {:induction false} MappedAt(f: Transform, g: (Key, Document) -> Document, src: Source, n: nat)
    requires ActsOnRows(f, g) && KeysStay(src.log) && n <= |src.log|
    ensures TableAt(Source(MapTable(g, src.base), ImageLog(f, src.log)), n) == MapTable(g, TableAt(src, n))
    decreases n
  {
    hide MapTable, Apply, KeysStay, ActsOnRows, ImageLog;
    if n > 0 {
      MappedAt(f, g, src, n - 1);
      RowImage(f, g, src.log, n - 1);
      NoneMoved(src.log, n - 1);
      ApplyMapped(g, TableAt(src, n - 1), src.log[n - 1].event);
    }
  }

  lemma NoneMoved(log: seq<Entry>, i: nat)
    requires KeysStay(log) && i < |log|
    ensures log[i].movedFrom.None?
  {
  }

  lemma MirrorWrite(f: Transform, g: (Key, Document) -> Document, plan: Plan, j: Job, v: Job, entry: Entry) returns (x: Job)
    requires Mirrored(f, g, plan, j, v) && Enabled(plan, j, Write(entry)) && CleanBy(f, j, Write(entry))
    ensures Mirrored(f, g, plan, NextBy(f, plan, j, Write(entry)), x) && x.src.base == v.src.base
  {
    var image := ImageEntry(f, entry);
    assert Image(f, entry.event).lsn == entry.event.lsn;
    hide Inv, KeepsPositions, ActsOnRows;
    assert Enabled(plan, v, Write(image)) && Clean(v, Write(image));
    StepKeeps(plan, v, Write(image));
    x := Next(plan, v, Write(image));
    assert ImageLog(f, j.src.log + [entry]) == ImageLog(f, j.src.log) + [image];
  }

  /** Steps that neither write to the source nor to the sink. */
  predicate MovesOn(step: Step) {
    || step.StartReading? || step.OfferNext? || step.Confirm? || step.TakeNext? || step.BreakOff? || step.DropOne? || step.FoundEmpty?
  }

  lemma MirrorMove(f: Transform, g: (Key, Document) -> Document, plan: Plan, j: Job, v: Job, step: Step) returns (x: Job)
    requires Mirrored(f, g, plan, j, v) && Enabled(plan, j, step) && CleanBy(f, j, step) && MovesOn(step)
    ensures Mirrored(f, g, plan, NextBy(f, plan, j, step), x) && x.src.base == v.src.base
  {
    PendingImages(f, j.buffers, v.buffers);
    assert Enabled(plan, v, step) && Clean(v, step) by {
      hide Inv, KeepsPositions, ActsOnRows, Pending;
      SameMoves(f, plan, j, v, step);
    }
    hide Inv, KeepsPositions, ActsOnRows, Pending;
    StepKeeps(plan, v, step);
    x := Next(plan, v, step);
    MovedAlike(f, plan, j, v, step);
    hide Next, Enabled, Clean;
  }

  lemma SameMoves(f: Transform, plan: Plan, j: Job, v: Job, step: Step)
    requires Mirrors(f, j, v) && Enabled(plan, j, step) && CleanBy(f, j, step) && MovesOn(step) && |Pending(v.buffers)| == |Pending(j.buffers)|
    ensures Enabled(plan, v, step) && Clean(v, step)
  {
    hide Pending;
    if step.StartReading? {
      assert forall i | 0 <= i < |v.src.log| :: v.src.log[i].commitLsn == j.src.log[i].commitLsn;
      assert ResumeLsn(v) == ResumeLsn(j);
    }
  }

  lemma MovedAlike(f: Transform, plan: Plan, j: Job, v: Job, step: Step)
    requires Mirrors(f, j, v) && Enabled(plan, j, step) && Enabled(plan, v, step) && MovesOn(step)
    ensures var t, x := Next(plan, j, step), Next(plan, v, step);
            && NextBy(f, plan, j, step) == t && Mirrors(f, t, x) && x.src == v.src && x.inFlight == v.inFlight
            && (t.mode.Snapshotting? ==> j.mode.Snapshotting?) && t.src == j.src && t.inFlight == j.inFlight
  {
    hide Resumable, Precedes;
    var t, x := Next(plan, j, step), Next(plan, v, step);
    match step
    case OfferNext => assert Images(f, t.buffers.queue) == x.buffers.queue;
    case TakeNext => assert Images(f, t.buffers.queue) == x.buffers.queue;
    case DropOne => assert Images(f, t.buffers.queue) == x.buffers.queue;
    case BreakOff => assert Images(f, []) == [];
    case _ =>
  }

  lemma ReadEnabled(f: Transform, g: (Key, Document) -> Document, plan: Plan, j: Job, v: Job, c: nat, rows: Table)
    requires Mirrored(f, g, plan, j, v) && Enabled(plan, j, ReadChunk(c, rows))
    ensures Enabled(plan, v, ReadChunk(c, MapTable(g, rows)))
  {
    InvKeys(plan, v);
    SameKeys(f, j.src.log);
    assert v.src == Source(MapTable(g, j.src.base), ImageLog(f, j.src.log));
    MappedAt(f, g, j.src, |j.src.log|);
    hide Inv, KeepsPositions, ActsOnRows, TableAt, KeysStay, MapTable, Lookup, Pending, ImageBuffers;
    forall k ensures Lookup(MapTable(g, rows), k) == if plan.owner(k) == Some(c) then ValueAt(v.src, |v.src.log|, k) else None {
      MappedRow(g, rows, k);
      MappedRow(g, TableAt(j.src, |j.src.log|), k);
      assert Lookup(rows, k) == if plan.owner(k) == Some(c) then ValueAt(j.src, |j.src.log|, k) else None;
    }
  }

  /** The rows of a chunk, read from the source, are read from the transformed source transformed. */
  lemma MirrorRead(f: Transform, g: (Key, Document) -> Document, plan: Plan, j: Job, v: Job, c: nat, rows: Table) returns (x: Job)
    requires Mirrored(f, g, plan, j, v) && Enabled(plan, j, ReadChunk(c, rows))
    ensures Mirrored(f, g, plan, NextBy(f, plan, j, ReadChunk(c, rows)), x) && x.src.base == v.src.base
  {
    var step := ReadChunk(c, MapTable(g, rows));
    ReadEnabled(f, g, plan, j, v, c, rows);
    assert Clean(v, step);
    hide Inv, KeepsPositions, ActsOnRows, Rows;
    StepKeeps(plan, v, step);
    x := Next(plan, v, step);
    EmptyMapped(g, rows);
    hide MapTable, ImageBuffers, ImageLog, Enabled, Clean;
  }

  lemma EmptyMapped(g: (Key, Document) -> Document, rows: Table)
    ensures MapTable(g, rows) == map[] <==> rows == map[]
  {
    assert MapTable(g, rows).Keys == rows.Keys;
  }

  lemma InvKeys(plan: Plan, v: Job)
    requires Inv(plan, v)
    ensures KeysStay(v.src.log)
  {
    hide Ordered, InRange, CheckpointSafe, InStep, SinkHolds;
  }

  lemma SameKeys(f: Transform, log: seq<Entry>)
    requires KeysStay(ImageLog(f, log))
    ensures KeysStay(log)
  {
    forall i | 0 <= i < |log| ensures log[i].movedFrom.None? {
      assert ImageLog(f, log)[i].movedFrom.None?;
    }
  }

  lemma RowSent(f: Transform, g: (Key, Document) -> Document, e: ChangeEvent)
    requires ActsOnRows(f, g)
    ensures f(e) == Some(e.(document := g(e.key, e.document)))
  {
  }

  lemma RowsSent(f: Transform, g: (Key, Document) -> Document, lsn: nat, part: Table)
    requires ActsOnRows(f, g)
    ensures SentRows(f, lsn, part) == MapTable(g, part)
  {
    hide ActsOnRows;
    forall k | k in part ensures f(ChangeEvent(lsn, Insert, k, part[k])) == Some(ChangeEvent(lsn, Insert, k, g(k, part[k]))) {
      RowSent(f, g, ChangeEvent(lsn, Insert, k, part[k]));
    }
  }

  lemma PartMapped(g: (Key, Document) -> Document, rows: Table, keys: set<Key>)
    ensures MapTable(g, Part(rows, keys)) == Part(MapTable(g, rows), keys)
    ensures MapTable(g, rows - keys) == MapTable(g, rows) - keys
  {
  }

  lemma SinkAlike(f: Transform, g: (Key, Document) -> Document, plan: Plan, j: Job, v: Job, c: nat, keys: set<Key>)
    requires Mirrors(f, j, v) && MirrorsReads(g, j, v) && ActsOnRows(f, g) && Enabled(plan, j, SinkRows(c, keys))
    ensures Enabled(plan, v, SinkRows(c, keys))
    ensures var t, x := NextBy(f, plan, j, SinkRows(c, keys)), Next(plan, v, SinkRows(c, keys)); Mirrors(f, t, x) && MirrorsReads(g, t, x)
  {
    var rows := j.inFlight[c].rows;
    PartMapped(g, rows, keys);
    RowsSent(f, g, j.slotLsn, Part(rows, keys));
    EmptyMapped(g, Part(rows, keys));
    EmptyMapped(g, rows - keys);
    hide ActsOnRows, MapTable, Part, SentRows, ImageLog, Images;
    assert v.inFlight[c].rows == MapTable(g, rows);
    assert Enabled(plan, v, SinkRows(c, keys));
    SinkShape(plan, j, c, keys);
    SinkShape(plan, v, c, keys);
    hide Next, Enabled;
    var t, x := NextBy(f, plan, j, SinkRows(c, keys)), Next(plan, v, SinkRows(c, keys));
    assert t == j.(buffers := j.buffers.(docs := t.buffers.docs, checkpoint := Some(j.slotLsn)), inFlight := t.inFlight, done := t.done);
    hide NextBy;
    PartAlike(g, j, v, t, x, c, keys);
    hide MirrorsReads;
  }

  lemma SinkShape(plan: Plan, j: Job, c: nat, keys: set<Key>)
    requires Enabled(plan, j, SinkRows(c, keys))
    ensures var t, left := Next(plan, j, SinkRows(c, keys)), j.inFlight[c].rows - keys;
            && t == j.(buffers := j.buffers.(docs := j.buffers.docs + Part(j.inFlight[c].rows, keys), checkpoint := Some(j.slotLsn)),
                       inFlight := t.inFlight, done := if left == map[] then j.done + {c} else j.done)
            && t.inFlight == j.inFlight[c := j.inFlight[c].(rows := left)]
  {
    hide Part;
  }

  lemma PartAlike(g: (Key, Document) -> Document, j: Job, v: Job, t: Job, x: Job, c: nat, keys: set<Key>)
    requires MirrorsReads(g, j, v) && c in j.inFlight && t.src == j.src && x.src == v.src
    requires t.inFlight == j.inFlight[c := j.inFlight[c].(rows := j.inFlight[c].rows - keys)]
    requires x.inFlight == v.inFlight[c := v.inFlight[c].(rows := v.inFlight[c].rows - keys)]
    ensures MirrorsReads(g, t, x)
  {
    var rows := j.inFlight[c].rows;
    PartMapped(g, rows, keys);
    hide MapTable;
  }

  /** The records of a chunk, transformed on their way to the sink. */
  lemma MirrorSink(f: Transform, g: (Key, Document) -> Document, plan: Plan, j: Job, v: Job, c: nat, keys: set<Key>) returns (x: Job)
    requires Mirrored(f, g, plan, j, v) && Enabled(plan, j, SinkRows(c, keys))
    ensures Mirrored(f, g, plan, NextBy(f, plan, j, SinkRows(c, keys)), x) && x.src.base == v.src.base
  {
    var step := SinkRows(c, keys);
    assert j.mode.Snapshotting? && j.inFlight != map[];
    hide Inv, KeepsPositions, ActsOnRows, Mirrors, MirrorsReads;
    SinkAlike(f, g, plan, j, v, c, keys);
    StepKeeps(plan, v, step);
    x := Next(plan, v, step);
    SameSource(f, plan, j, v, step);
    hide NextBy, Next, Enabled;
  }

  lemma SameSource(f: Transform, plan: Plan, j: Job, v: Job, step: Step)
    requires step.SinkRows? && Enabled(plan, j, step) && Enabled(plan, v, step)
    ensures Next(plan, v, step).src == v.src && NextBy(f, plan, j, step).mode == j.mode
  {
    hide SentRows, Part;
  }

  // ---------------------------------------------------------------- flushing steps

  lemma MirrorAppend(f: Transform, plan: Plan, j: Job, v: Job)
    requires Mirrors(f, j, v) && Inv(plan, v) && j.buffers.hand.Some?
    ensures var m, x := j.(buffers := Append(j.buffers)), v.(buffers := Append(v.buffers)); Mirrors(f, m, x) && Inv(plan, x)
  {
    AppendKeeps(plan, v);
    hide Inv;
    var b := j.buffers;
    assert Images(f, b.batch + [b.hand.value]) == Images(f, b.batch) + [Image(f, b.hand.value)];
  }

  lemma MirrorTick(f: Transform, g: (Key, Document) -> Document, plan: Plan, j: Job, v: Job, o: Outcome) returns (x: Job)
    requires Mirrored(f, g, plan, j, v) && Enabled(plan, j, Tick(o)) && CleanBy(f, j, Tick(o))
    ensures Mirrored(f, g, plan, NextBy(f, plan, j, Tick(o)), x) && x.src.base == v.src.base
  {
    if j.buffers.batch == [] {
      x := v;
    } else {
      assert v.buffers.batch != [];
      OnlyReading(plan, v);
      FlushBy(f, j, o);
      hide Inv, FlushedBy, Flush, KeepsPositions, ActsOnRows, After;
      x := MirrorFlush(f, plan, j, NextBy(f, plan, j, Tick(o)), v);
    }
  }

  lemma OnlyReading(plan: Plan, v: Job)
    requires Inv(plan, v) && (v.buffers.batch != [] || v.buffers.hand.Some?)
    ensures v.mode.Reading?
  {
    hide SinkHolds, Ordered, CheckpointSafe, Stretch;
  }

  lemma PutBy(f: Transform, plan: Plan, j: Job, o: Outcome)
    requires Enabled(plan, j, PutNext(o)) && CleanBy(f, j, PutNext(o))
    ensures var m, t := j.(buffers := Append(j.buffers)), NextBy(f, plan, j, PutNext(o));
            if IsFull(m.buffers) then FlushedBy(f, m, t) else t == m
  {
    var m, t := j.(buffers := Append(j.buffers)), NextBy(f, plan, j, PutNext(o));
    if IsFull(m.buffers) {
      FlushBy(f, m, o);
      assert t == After(m, Flush(m.buffers, o), m.buffers.batch, o) by {
        hide Flush, FlushedBy;
      }
      hide FlushedBy, Flush, After;
    } else {
      hide Flush;
    }
  }

  lemma MirrorPut(f: Transform, g: (Key, Document) -> Document, plan: Plan, j: Job, v: Job, o: Outcome) returns (x: Job)
    requires Mirrored(f, g, plan, j, v) && Enabled(plan, j, PutNext(o)) && CleanBy(f, j, PutNext(o))
    ensures Mirrored(f, g, plan, NextBy(f, plan, j, PutNext(o)), x) && x.src.base == v.src.base
  {
    var m, u, t := j.(buffers := Append(j.buffers)), v.(buffers := Append(v.buffers)), NextBy(f, plan, j, PutNext(o));
    assert v.buffers.hand.Some?;
    OnlyReading(plan, v);
    MirrorAppend(f, plan, j, v);
    PutBy(f, plan, j, o);
    hide Inv, KeepsPositions, ActsOnRows, FlushedBy, Enabled, CleanBy, NextBy;
    if IsFull(m.buffers) {
      x := MirrorFlush(f, plan, m, t, u);
    } else {
      x := u;
    }
  }

  lemma MirrorStep(f: Transform, g: (Key, Document) -> Document, plan: Plan, j: Job, v: Job, step: Step) returns (x: Job)
    requires Mirrored(f, g, plan, j, v) && Enabled(plan, j, step) && CleanBy(f, j, step)
    ensures Mirrored(f, g, plan, NextBy(f, plan, j, step), x) && x.src.base == v.src.base
  {
    assert !step.Retry?;
    hide Mirrored, Enabled, CleanBy, NextBy;
    match step {
      case Write(entry) => x := MirrorWrite(f, g, plan, j, v, entry);
      case ReadChunk(c, rows) => x := MirrorRead(f, g, plan, j, v, c, rows);
      case SinkRows(c, keys) => x := MirrorSink(f, g, plan, j, v, c, keys);
      case PutNext(o) => x := MirrorPut(f, g, plan, j, v, o);
      case Tick(o) => x := MirrorTick(f, g, plan, j, v, o);
      case _ => x := MirrorMove(f, g, plan, j, v, step);
    }
  }

  lemma {:induction false} MirrorRun(f: Transform, g: (Key, Document) -> Document, plan: Plan, j: Job, steps: seq<Step>, t: Job, v: Job)
    returns (x: Job)
    requires Mirrored(f, g, plan, j, v) && LeadsBy(f, plan, j, steps, t)
    ensures Mirrored(f, g, plan, t, x) && x.src.base == v.src.base
    decreases |steps|
  {
    if steps == [] {
      x := v;
    } else {
      hide Mirrored, Enabled, CleanBy, NextBy;
      x := MirrorStep(f, g, plan, j, v, steps[0]);
      x := MirrorRun(f, g, plan, NextBy(f, plan, j, steps[0]), steps[1..], t, x);
    }
  }

  // ---------------------------------------------------------------- convergence

  lemma BaseStays(f: Transform, plan: Plan, j: Job, step: Step)
    requires Enabled(plan, j, step)
    ensures NextBy(f, plan, j, step).src.base == j.src.base
  {
    hide Flush, Put, SentRows, Part, Pending, Smooth;
  }

  lemma {:induction false} RunBase(f: Transform, plan: Plan, j: Job, steps: seq<Step>, t: Job)
    requires LeadsBy(f, plan, j, steps, t)
    ensures t.src.base == j.src.base
    decreases |steps|
  {
    hide Enabled, CleanBy, NextBy;
    if steps != [] {
      BaseStays(f, plan, j, steps[0]);
      RunBase(f, plan, NextBy(f, plan, j, steps[0]), steps[1..], t);
    }
  }

  /** A job that has caught up has what the transformed log comes to in its sink. */
  lemma MirroredAgrees(f: Transform, g: (Key, Document) -> Document, plan: Plan, t: Job, x: Job)
    requires Mirrored(f, g, plan, t, x) && CaughtUp(t)
    ensures t.buffers.docs == TableAt(Source(x.src.base, ImageLog(f, t.src.log)), |t.src.log|) && KeysStay(t.src.log)
  {
    PendingImages(f, t.buffers, x.buffers);
    InvKeys(plan, x);
    SameKeys(f, t.src.log);
    assert x.src == Source(x.src.base, ImageLog(f, t.src.log));
    hide Inv, TableAt, KeysStay, Pending, ImageBuffers, KeepsPositions, ActsOnRows, MirrorsReads;
    CaughtUpAgrees(plan, x);
  }

  lemma InitialMirror(f: Transform, g: (Key, Document) -> Document, plan: Plan, j: Job) returns (v: Job)
    requires ActsOnRows(f, g) && Initial(plan, j)
    ensures Mirrored(f, g, plan, j, v) && v.src.base == MapTable(g, j.src.base)
  {
    v := j.(src := Source(MapTable(g, j.src.base), ImageLog(f, j.src.log)));
    MappedAt(f, g, j.src, |j.src.log|);
    InitialOn(f, g, plan, j, v);
    InitiallyHolds(plan, v);
    assert Images(f, []) == [];
    hide Inv, Initial, TableAt, MapTable, ImageLog, ActsOnRows;
    assert KeepsPositions(f) by {
      RowsKeepPositions(f, g);
    }
  }

  lemma RowsKeepPositions(f: Transform, g: (Key, Document) -> Document)
    requires ActsOnRows(f, g)
    ensures KeepsPositions(f)
  {
  }

  lemma InitialOn(f: Transform, g: (Key, Document) -> Document, plan: Plan, j: Job, v: Job)
    requires ActsOnRows(f, g) && Initial(plan, j) && v == j.(src := Source(MapTable(g, j.src.base), ImageLog(f, j.src.log)))
    requires TableAt(v.src, |v.src.log|) == MapTable(g, TableAt(j.src, |j.src.log|))
    ensures Initial(plan, v)
  {
    hide TableAt, MapTable, Lookup;
    forall k | ValueAt(v.src, |v.src.log|, k).Some? ensures plan.owner(k).Some? {
      MappedRow(g, TableAt(j.src, |j.src.log|), k);
      assert ValueAt(j.src, |j.src.log|, k).Some?;
    }
    assert forall i | 0 <= i < |j.src.log| ::
             && v.src.log[i].commitLsn == j.src.log[i].commitLsn
             && v.src.log[i].event.lsn == j.src.log[i].event.lsn && v.src.log[i].movedFrom == j.src.log[i].movedFrom;
    hide ActsOnRows, ImageLog;
  }

  /**
   * A service that acts on rows, in snapshot and change capture alike: whenever a run has caught up,
   * after any number of restarts, the sink is the source's table with every row transformed.
   */
  lemma RowsConverge(f: Transform, g: (Key, Document) -> Document, plan: Plan, j: Job, steps: seq<Step>, t: Job)
    requires ActsOnRows(f, g) && Initial(plan, j) && LeadsBy(f, plan, j, steps, t) && CaughtUp(t)
    ensures t.buffers.docs == MapTable(g, TableAt(t.src, |t.src.log|))
  {
    hide Initial, LeadsBy, CaughtUp, TableAt, MapTable, Mirrored, ActsOnRows;
    var v := InitialMirror(f, g, plan, j);
    var x := MirrorRun(f, g, plan, j, steps, t, v);
    RunBase(f, plan, j, steps, t);
    MirroredAgrees(f, g, plan, t, x);
    MappedAt(f, g, t.src, |t.src.log|);
  }

  /** The events of a log. */
  function LogEvents(log: seq<Entry>): (events: seq<ChangeEvent>)
    ensures |events| == |log| && forall i | 0 <= i < |log| :: events[i] == log[i].event
  {
    seq(|log|, i requires 0 <= i < |log| => log[i].event)
  }

  lemma {:induction false} ImagesTable(f: Transform, log: seq<Entry>)
    requires KeysStay(log)
    ensures TableAt(Source(map[], ImageLog(f, log)), |log|) == ApplyAll(map[], Images(f, LogEvents(log)))
    decreases |log|
  {
    var n, src := |log|, Source(map[], ImageLog(f, log));
    if n > 0 {
      ImagesTable(f, log[..n - 1]);
      TableOfFront(f, log);
      assert Images(f, LogEvents(log))[..n - 1] == Images(f, LogEvents(log[..n - 1]));
      NoneMoved(log, n - 1);
      hide KeysStay, Apply;
    }
  }

  lemma TableOfFront(f: Transform, log: seq<Entry>)
    requires log != []
    ensures var n := |log| - 1;
            TableAt(Source(map[], ImageLog(f, log)), n) == TableAt(Source(map[], ImageLog(f, log[..n])), n)
  {
    var n := |log| - 1;
    var front := Source(map[], ImageLog(f, log[..n]));
    assert ImageLog(f, log) == front.log + [ImageEntry(f, log[n])];
    TableKept(front, ImageEntry(f, log[n]), n);
  }

  /**
   * Any service that keeps positions, also one that removes events or changes keys, for a source
   * that is empty when the slot is created: whenever a run has caught up, the sink is what applying
   * the service's results for the whole log, in order, makes of an empty index.
   */
  lemma LogConverges(f: Transform, plan: Plan, j: Job, steps: seq<Step>, t: Job)
    requires KeepsPositions(f) && Initial(plan, j) && plan.count == 0 && j.src == Source(map[], [])
    requires LeadsBy(f, plan, j, steps, t) && CaughtUp(t)
    ensures t.buffers.docs == ApplyAll(map[], Transformed(Results(f, LogEvents(t.src.log))))
  {
    hide LeadsBy, CaughtUp, TableAt, Mirrored, ActsOnRows;
    var g: (Key, Document) -> Document := (k, d) => d;
    EmptyMirror(f, g, plan, j);
    var x := MirrorRun(f, g, plan, j, steps, t, j);
    RunBase(f, plan, j, steps, t);
    MirroredAgrees(f, g, plan, t, x);
    ImagesTable(f, t.src.log);
    ImagesApply(f, map[], LogEvents(t.src.log));
  }

  lemma EmptyMirror(f: Transform, g: (Key, Document) -> Document, plan: Plan, j: Job)
    requires KeepsPositions(f) && Initial(plan, j) && plan.count == 0 && j.src == Source(map[], [])
    ensures Mirrored(f, g, plan, j, j) && j.src.base == map[]
  {
    InitiallyHolds(plan, j);
    assert Images(f, []) == [] && ImageLog(f, []) == [];
    hide Inv;
  }
}
