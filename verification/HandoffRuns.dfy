/**
 * What holds over whole runs of the handoff protocol: conservation of events in every
 * interleaving; and for the runs made of clean steps, where each row of the sink stands, and
 * that the sink arrives at the source.
 */
module HandoffRuns {
  import opened Wrappers
  import opened Pipeline
  import opened Replay
  import opened Handoff

  // ---------------------------------------------------------------- runs

  /** The kind of step that a run may do uncleanly. */
  datatype Excuse = Nothing | Takes | Resets | Overlaps | Failures | Confirms | Everything

  predicate Excused(excuse: Excuse, step: Step) {
    match excuse
    case Nothing => false
    case Takes => step.TakeNext?
    case Resets => step.BreakOff?
    case Overlaps => step.BreakOff? || step.TakeNext?
    case Failures => step.PutNext? || step.Tick? || step.Retry?
    case Confirms => step.Confirm?
    case Everything => true
  }

  /** The steps, each enabled in its turn and clean unless excused, lead from `j` to `t`. */
  ghost predicate Leads(plan: Plan, j: Job, steps: seq<Step>, t: Job, excuse: Excuse)
    decreases |steps|
  {
    if steps == [] then j == t
    else
      && Enabled(plan, j, steps[0]) && (Clean(j, steps[0]) || Excused(excuse, steps[0]))
      && Leads(plan, Next(plan, j, steps[0]), steps[1..], t, excuse)
  }

  lemma {:induction false} Onward(plan: Plan, j: Job, steps: seq<Step>, m: Job, step: Step, excuse: Excuse)
    requires Leads(plan, j, steps, m, excuse) && Enabled(plan, m, step) && (Clean(m, step) || Excused(excuse, step))
    ensures Leads(plan, j, steps + [step], Next(plan, m, step), excuse)
    decreases |steps|
  {
    hide Enabled, Clean, Next, Excused;
    var all := steps + [step];
    if steps == [] {
      assert all[0] == step && all[1..] == [];
    } else {
      assert all[0] == steps[0] && all[1..] == steps[1..] + [step];
      Onward(plan, Next(plan, j, steps[0]), steps[1..], m, step, excuse);
    }
  }

  /** The method's reset is the protocol's steps with nothing in between: clear, then drop one event after the other. */
  lemma {:induction false} ResetInSteps(plan: Plan, j: Job) returns (steps: seq<Step>, t: Job)
    requires j.mode.Draining?
    ensures Leads(plan, j, steps, t, Nothing) && t == j.(mode := Waiting, buffers := t.buffers)
    ensures t.buffers == j.buffers.(queue := [],
                                    ledger := j.buffers.ledger.(cleared := j.buffers.ledger.cleared + j.buffers.queue))
    decreases |j.buffers.queue|
  {
    var queue := j.buffers.queue;
    if queue == [] {
      steps, t := [FoundEmpty], Next(plan, j, FoundEmpty);
      assert steps[1..] == [];
      assert j.buffers.ledger.cleared + queue == j.buffers.ledger.cleared;
    } else {
      var m, rest := Next(plan, j, DropOne), [];
      rest, t := ResetInSteps(plan, m);
      steps := [DropOne] + rest;
      assert steps[1..] == rest;
      assert j.buffers.ledger.cleared + queue == (j.buffers.ledger.cleared + [queue[0]]) + queue[1..];
    }
  }

  const EMPTY := Buffers([], None, [], map[], None, NO_EVENTS)

  /**
   * The slot has been created and then the table has been divided into chunks: every row present
   * by then falls into a chunk. The sink is empty.
   */
  ghost predicate Initial(plan: Plan, j: Job) {
    && PlanHolds(plan) && KeysStay(j.src.log) && Ordered(j)
    && j.mode.Snapshotting? && j.inFlight == map[] && j.done == {} && j.buffers == EMPTY
    && j.slot == j.lo == j.pos <= j.far == |j.src.log| && j.confirmed <= j.slotLsn
    && forall k :: ValueAt(j.src, |j.src.log|, k).Some? ==> plan.owner(k).Some?
  }

  lemma InitiallyHolds(plan: Plan, j: Job)
    requires Initial(plan, j)
    ensures Inv(plan, j)
  {
    hide ValueAt;
    forall k | !Outstanding(plan, j, k) ensures Between(j.src, j.buffers.docs, k, j.lo, j.far) {
      assert Lookup(j.buffers.docs, k) == ValueAt(j.src, j.far, k);
    }
  }

  lemma {:induction false} RunKeeps(plan: Plan, j: Job, steps: seq<Step>, t: Job)
    requires Inv(plan, j) && Leads(plan, j, steps, t, Nothing)
    ensures Inv(plan, t)
    decreases |steps|
  {
    hide Inv, Next, Enabled, Clean;
    if steps != [] {
      StepKeeps(plan, j, steps[0]);
      RunKeeps(plan, Next(plan, j, steps[0]), steps[1..], t);
    }
  }

  // ---------------------------------------------------------------- safety and convergence

  /**
   * Safety: once the snapshot is over, after any clean run with any number of restarts, wherever
   * the server may resume, every row of the sink is the source's row at some index between there
   * and the furthest entry read.
   */
  lemma RowsStandBetween(plan: Plan, j: Job, steps: seq<Step>, t: Job, r: nat, k: Key)
    requires Initial(plan, j) && Leads(plan, j, steps, t, Nothing) && !t.mode.Snapshotting? && Resumable(t, r)
    ensures t.far <= |t.src.log| && Between(t.src, t.buffers.docs, k, r, t.far)
  {
    InitiallyHolds(plan, j);
    RunKeeps(plan, j, steps, t);
    hide Leads, Initial, Between, KeysStay, Ordered, InStep;
    assert t.lo < |t.src.log| ==> ResumeLsn(t) <= t.src.log[t.lo].commitLsn;
    Widen(t.src, t.buffers.docs, k, t.lo, t.far, r, t.far);
  }

  /** The log has been read to its end and nothing is on its way to the sink. */
  predicate CaughtUp(j: Job) {
    j.mode.Reading? && j.pos == |j.src.log| && Pending(j.buffers) == []
  }

  lemma CaughtUpAgrees(plan: Plan, j: Job)
    requires Inv(plan, j) && CaughtUp(j)
    ensures j.buffers.docs == TableAt(j.src, |j.src.log|)
  {
    hide KeysStay, Ordered, CheckpointSafe;
    var n := |j.src.log|;
    forall k ensures Lookup(j.buffers.docs, k) == Lookup(TableAt(j.src, n), k) {
      assert Between(j.src, j.buffers.docs, k, j.lo, j.far);
    }
    SameTable(j.buffers.docs, TableAt(j.src, n));
  }

  /** Convergence: whenever a clean run has caught up with the log, the sink is the source's table. */
  lemma SinkConverges(plan: Plan, j: Job, steps: seq<Step>, t: Job)
    requires Initial(plan, j) && Leads(plan, j, steps, t, Nothing) && CaughtUp(t)
    ensures t.buffers.docs == TableAt(t.src, |t.src.log|)
  {
    InitiallyHolds(plan, j);
    RunKeeps(plan, j, steps, t);
    hide *;
    CaughtUpAgrees(plan, t);
  }

  // ---------------------------------------------------------------- catching up is always possible

  function Smoothly(batch: seq<ChangeEvent>): (o: Outcome)
    ensures Smooth(o, batch) && Fits(o, batch)
  {
    Outcome(PassThrough(batch), Accepted, None)
  }

  /** What is left to do until the job has caught up, in steps of the reader and the processor. */
  function Backlog(j: Job): nat
    requires j.pos <= |j.src.log|
  {
    4 * (|j.src.log| - j.pos) + 3 * |j.buffers.queue| + (if j.buffers.hand.Some? then 2 else 0) +
    if j.buffers.batch != [] then 1 else 0
  }

  function NextTowards(j: Job): Step
    requires j.pos <= |j.src.log|
  {
    if j.buffers.hand.Some? then PutNext(Smoothly(j.buffers.batch + [j.buffers.hand.value]))
    else if j.buffers.queue != [] then TakeNext
    else if j.pos < |j.src.log| then OfferNext
    else Tick(Smoothly(j.buffers.batch))
  }

  lemma StepTowards(plan: Plan, j: Job)
    requires j.mode.Reading? && j.pos <= |j.src.log| && Backlog(j) > 0
    ensures Enabled(plan, j, NextTowards(j)) && Clean(j, NextTowards(j))
    ensures var t := Next(plan, j, NextTowards(j));
            t.mode.Reading? && t.src == j.src && t.pos <= |t.src.log| && Backlog(t) < Backlog(j)
  {
    hide Acknowledge;
    if j.buffers.hand.Some? {
      SmoothPut(j.buffers);
    } else if j.buffers.queue == [] && j.pos == |j.src.log| {
      SmoothFlush(j.buffers, Smoothly(j.buffers.batch));
    }
  }

  lemma SmoothPut(b: Buffers)
    requires b.hand.Some?
    ensures var p := Put(b, Smoothly(b.batch + [b.hand.value])); p.hand.None? && p.queue == b.queue
  {
    hide Flush;
    var appended := Append(b);
    if IsFull(appended) {
      SmoothFlush(appended, Smoothly(appended.batch));
    }
  }

  /** From every state in which the stream is open, clean steps of the job alone lead to the source's table. */
  lemma {:induction false} CatchingUp(plan: Plan, j: Job) returns (steps: seq<Step>, t: Job)
    requires Inv(plan, j) && j.mode.Reading?
    ensures Leads(plan, j, steps, t, Nothing) && t.src == j.src
    ensures t.buffers.docs == TableAt(t.src, |t.src.log|)
    decreases Backlog(j)
  {
    if Backlog(j) == 0 {
      steps, t := [], j;
      CaughtUpAgrees(plan, j);
    } else {
      StepTowards(plan, j);
      StepKeeps(plan, j, NextTowards(j));
      var rest;
      hide Inv, Next, Enabled, Clean, NextTowards, Backlog;
      rest, t := CatchingUp(plan, Next(plan, j, NextTowards(j)));
      steps := [NextTowards(j)] + rest;
      assert steps[1..] == rest;
    }
  }

  // ---------------------------------------------------------------- conservation

  /** The channel respects its capacity, and between steps the batch is smaller than a full one. */
  predicate Bounded(b: Buffers) {
    |b.queue| <= QUEUE_CAPACITY && |b.batch| < BATCH_SIZE
  }

  lemma FlushEmpties(b: Buffers, o: Outcome)
    requires Fits(o, b.batch)
    ensures Flush(b, o).batch == [] && Flush(b, o).queue == b.queue && Flush(b, o).hand == b.hand
  {
    hide Transformed, Sifted, Filed, ApplyAll;
  }

  lemma PutConserves(b: Buffers, o: Outcome)
    requires b.hand.Some? && Fits(o, b.batch + [b.hand.value]) && Conserved(b) && Bounded(b)
    ensures Conserved(Put(b, o)) && Bounded(Put(b, o))
  {
    hide Flush;
    AppendConserves(b);
    hide Conserved;
    if IsFull(Append(b)) {
      FlushConserves(Append(b), o);
      FlushEmpties(Append(b), o);
    }
  }

  lemma SinkingConserves(b: Buffers, docs: Table, checkpoint: Option<nat>)
    requires Conserved(b)
    ensures Conserved(b.(docs := docs, checkpoint := checkpoint))
  {
  }

  lemma StepConserves(plan: Plan, j: Job, step: Step)
    requires Enabled(plan, j, step) && Conserved(j.buffers) && Bounded(j.buffers)
    ensures Conserved(Next(plan, j, step).buffers) && Bounded(Next(plan, j, step).buffers)
  {
    hide Flush, Put, Conserved, Held;
    match step
    case Retry(e) => SinkingConserves(j.buffers, Apply(j.buffers.docs, e), j.buffers.checkpoint);
    case SinkRows(c, keys) =>
      SinkingConserves(j.buffers, j.buffers.docs + Part(j.inFlight[c].rows, keys), Some(j.slotLsn));
    case OfferNext => OfferConserves(j.buffers, j.src.log[j.pos].event);
    case TakeNext => TakeConserves(j.buffers);
    case PutNext(o) => PutConserves(j.buffers, o);
    case Tick(o) => FlushConserves(j.buffers, o); FlushEmpties(j.buffers, o);
    case BreakOff => ClearBatchConserves(j.buffers);
    case DropOne => DropQueuedConserves(j.buffers);
    case _ =>
  }

  /**
   * Conservation: in every interleaving, clean or not, every event offered to the job is in
   * exactly one buffer or has met exactly one fate, and the buffers keep within their bounds.
   */
  lemma {:induction false} RunConserves(plan: Plan, j: Job, steps: seq<Step>, t: Job, excuse: Excuse)
    requires Leads(plan, j, steps, t, excuse) && Conserved(j.buffers) && Bounded(j.buffers)
    ensures Conserved(t.buffers) && Bounded(t.buffers)
    decreases |steps|
  {
    hide Next, Enabled, Clean, Conserved, Bounded;
    if steps != [] {
      StepConserves(plan, j, steps[0]);
      RunConserves(plan, Next(plan, j, steps[0]), steps[1..], t, excuse);
    }
  }
}
