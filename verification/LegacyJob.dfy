/**
 * The single-table orchestrator's job: it has no dead-letter queue and keeps its batch until
 * the transform service and the sink have both accepted it, so that nothing is ever skipped.
 */
module LegacyOrchestrator {
  import opened Wrappers
  import opened Pipeline
  import opened Replay
  import opened SinkService

  /** An event that the job is done with, and what the transform service made of it. */
  datatype Handled = Handled(event: ChangeEvent, result: Option<ChangeEvent>)

  /** What happens to one flush: the transform service fails, or it returns results and the sink replies. */
  datatype Answer = TransformFails | Transforms(results: seq<Option<ChangeEvent>>, reply: Reply)

  datatype State = State(
    batch: seq<ChangeEvent>, checkpoint: Option<nat>, docs: Table,
    offered: seq<ChangeEvent>, done: seq<Handled>, acknowledged: seq<ChangeEvent>)

  function Handle(batch: seq<ChangeEvent>, results: seq<Option<ChangeEvent>>): (handled: seq<Handled>)
    requires |batch| == |results|
    ensures |handled| == |batch|
  {
    seq(|batch|, i requires 0 <= i < |batch| => Handled(batch[i], results[i]))
  }

  predicate Answers(a: Answer, batch: seq<ChangeEvent>) {
    a.Transforms? ==> |a.results| == |batch|
  }

  /** flushBatch: any failure leaves the batch, and everything else but the sink, as it was. */
  function FlushKept(s: State, a: Answer): State
    requires Answers(a, s.batch)
  {
    if s.batch == [] || a.TransformFails? then s
    else
      var sent, done := Transformed(a.results), s.done + Handle(s.batch, a.results);
      if sent == [] then s.(batch := [], done := done)
      else if a.reply.Failed? then s.(docs := ApplyAll(s.docs, a.reply.landed))
      else s.(batch := [], done := done, docs := ApplyAll(s.docs, sent),
              acknowledged := s.acknowledged + sent, checkpoint := Some(sent[|sent| - 1].lsn))
  }

  function Enlist(s: State, e: ChangeEvent): State {
    s.(batch := s.batch + [e], offered := s.offered + [e])
  }

  datatype Step = Add(event: ChangeEvent, answer: Answer) | Tick(answer: Answer)

  predicate Enabled(s: State, step: Step) {
    match step
    case Add(e, a) => Answers(a, s.batch + [e])
    case Tick(a) => Answers(a, s.batch)
  }

  /** addToBatch flushes from a full batch on; the ticker flushes whatever there is. */
  function Next(s: State, step: Step): State
    requires Enabled(s, step)
  {
    match step
    case Add(e, a) => var t := Enlist(s, e); if |t.batch| >= BATCH_SIZE then FlushKept(t, a) else t
    case Tick(a) => FlushKept(s, a)
  }

  predicate Leads(s: State, steps: seq<Step>, t: State)
    decreases |steps|
  {
    if steps == [] then s == t
    else Enabled(s, steps[0]) && Leads(Next(s, steps[0]), steps[1..], t)
  }

  const IDLE := State([], None, map[], [], [], [])

  // ---------------------------------------------------------------- the job as it runs

  class LegacyJob {
    const sink: Sink
    var batch: seq<ChangeEvent>
    var lastCp: Option<nat>
    ghost var offered: seq<ChangeEvent>
    ghost var done: seq<Handled>
    ghost var acknowledged: seq<ChangeEvent>

    constructor (sink: Sink)
      ensures this.sink == sink && Abs() == IDLE.(docs := sink.docs)
    {
      this.sink := sink;
      batch, lastCp, offered, done, acknowledged := [], None, [], [], [];
    }

    ghost function Abs(): State
      reads this, sink
    {
      State(batch, lastCp, sink.docs, offered, done, acknowledged)
    }

    method AddToBatch(event: ChangeEvent, a: Answer)
      requires Answers(a, batch + [event])
      modifies this, sink
      ensures Abs() == Next(old(Abs()), Add(event, a))
    {
      batch, offered := batch + [event], offered + [event];
      if |batch| >= BATCH_SIZE {
        FlushBatch(a);
      }
    }

    method FlushBatch(a: Answer)
      requires Answers(a, batch)
      modifies this, sink
      ensures Abs() == FlushKept(old(Abs()), a)
    {
      hide Transformed, ApplyAll;
      if |batch| == 0 || a.TransformFails? {
        return;
      }
      var transformed := CollectResults(a.results);
      if |transformed| == 0 {
        done := done + Handle(batch, a.results);
        batch := [];
        return;
      }
      var ok := sink.BulkWrite(transformed, a.reply);
      if !ok {
        return;
      }
      lastCp := Some(transformed[|transformed| - 1].lsn);
      done, acknowledged := done + Handle(batch, a.results), acknowledged + transformed;
      batch := [];
    }

    method CollectResults(results: seq<Option<ChangeEvent>>) returns (transformed: seq<ChangeEvent>)
      ensures transformed == Transformed(results)
    {
      transformed := [];
      for i := 0 to |results|
        invariant transformed == Transformed(results[..i])
      {
        assert results[..i + 1][..i] == results[..i];
        if results[i].Some? {
          transformed := transformed + [results[i].value];
        }
      }
      assert results[..|results|] == results;
    }
  }

  // ---------------------------------------------------------------- nothing is skipped

  function Events(done: seq<Handled>): (events: seq<ChangeEvent>)
    ensures |events| == |done|
  {
    seq(|done|, i requires 0 <= i < |done| => done[i].event)
  }

  function Results(done: seq<Handled>): (results: seq<Option<ChangeEvent>>)
    ensures |results| == |done|
  {
    seq(|done|, i requires 0 <= i < |done| => done[i].result)
  }

  /**
   * Every offered event is done or in the batch, in order; the sink has acknowledged exactly what
   * the transform service returned for the events that are done; and the checkpoint is the
   * position of the last of these.
   */
  predicate Safe(s: State) {
    && s.offered == Events(s.done) + s.batch
    && s.acknowledged == Transformed(Results(s.done))
    && s.checkpoint == if s.acknowledged == [] then None else Some(s.acknowledged[|s.acknowledged| - 1].lsn)
  }

  lemma {:induction false} TransformedInTwo(a: seq<Option<ChangeEvent>>, b: seq<Option<ChangeEvent>>)
    ensures Transformed(a + b) == Transformed(a) + Transformed(b)
    decreases |b|
  {
    if b == [] {
      assert a + b == a;
    } else {
      var n := |b| - 1;
      assert (a + b)[..|a| + n] == a + b[..n];
      TransformedInTwo(a, b[..n]);
    }
  }

  lemma HandledApart(s: State, results: seq<Option<ChangeEvent>>)
    requires |results| == |s.batch|
    ensures var done := s.done + Handle(s.batch, results);
            Events(done) == Events(s.done) + s.batch && Results(done) == Results(s.done) + results
  {
  }

  lemma FlushIsSafe(s: State, a: Answer)
    requires Safe(s) && Answers(a, s.batch)
    ensures Safe(FlushKept(s, a))
  {
    if s.batch != [] && a.Transforms? {
      HandledApart(s, a.results);
      TransformedInTwo(Results(s.done), a.results);
      hide Handle, Results, Transformed, ApplyAll, Events;
      var t := FlushKept(s, a);
      if t.batch == [] {
        assert Events(t.done) + [] == Events(t.done);
      }
    }
  }

  lemma StepIsSafe(s: State, step: Step)
    requires Safe(s) && Enabled(s, step)
    ensures Safe(Next(s, step))
  {
    hide FlushKept;
    match step
    case Add(e, a) =>
      var t := Enlist(s, e);
      assert Events(s.done) + s.batch + [e] == Events(s.done) + (s.batch + [e]);
      if |t.batch| >= BATCH_SIZE {
        FlushIsSafe(t, a);
      }
    case Tick(a) => FlushIsSafe(s, a);
  }

  /** Safety over every run, whatever fails: nothing is skipped, and the checkpoint names nothing that is not done. */
  lemma {:induction false} RunIsSafe(s: State, steps: seq<Step>, t: State)
    requires Safe(s) && Leads(s, steps, t)
    ensures Safe(t)
    decreases |steps|
  {
    hide Safe, Next, Enabled;
    if steps != [] {
      StepIsSafe(s, steps[0]);
      RunIsSafe(Next(s, steps[0]), steps[1..], t);
    }
  }

  /** Reading the same from the event's side: what the checkpoint names has been handled and acknowledged. */
  lemma {:induction false} CheckpointIsDone(s: State)
    requires Safe(s) && s.checkpoint.Some?
    ensures exists i :: 0 <= i < |s.done| && s.done[i].result.Some? && s.done[i].result.value.lsn == s.checkpoint.value
                     && forall k | i < k < |s.done| :: s.done[k].result.None?
  {
    var i := LastResult(Results(s.done));
    assert s.done[i].result == Results(s.done)[i];
    forall k | i < k < |s.done| ensures s.done[k].result.None? {
      assert s.done[k].result == Results(s.done)[k];
    }
  }

  lemma {:induction false} LastResult(results: seq<Option<ChangeEvent>>) returns (i: nat)
    requires Transformed(results) != []
    ensures i < |results| && results[i].Some? && forall k | i < k < |results| :: results[k].None?
    ensures results[i].value == Transformed(results)[|Transformed(results)| - 1]
    decreases |results|
  {
    i := |results| - 1;
    if results[i].None? {
      i := LastResult(results[..i]);
    }
  }

  /** The batch is done: each of its events with its own result, in order, behind what was done before. */
  predicate DoneWith(before: State, results: seq<Option<ChangeEvent>>, after: State)
    requires |results| == |before.batch|
  {
    && after.batch == [] && |after.done| == |before.done| + |before.batch| && before.done <= after.done
    && forall i | 0 <= i < |before.batch| :: after.done[|before.done| + i] == Handled(before.batch[i], results[i])
  }

  /**
   * A flush gets somewhere exactly when no event came back from the transform service or the sink
   * accepted: the batch is then done, and with an acknowledgement each row holds what the last result
   * that concerns it says and the checkpoint is the position of the last result. Otherwise batch and
   * checkpoint stay, and only what has landed is in the sink.
   */
  lemma FlushExactly(s: State, a: Answer)
    requires Answers(a, s.batch) && s.batch != []
    ensures var t := FlushKept(s, a);
            if a.TransformFails? then t == s
            else if !AnyResult(a.results) then DoneWith(s, a.results, t) && t == s.(batch := [], done := t.done)
            else if a.reply.Failed? then t == s.(docs := ApplyAll(s.docs, a.reply.landed))
            else && DoneWith(s, a.results, t) && TableFollows(s.docs, a.results, t.docs) && LastPosition(a.results, t.checkpoint)
                 && t.offered == s.offered && s.acknowledged <= t.acknowledged
  {
    hide Transformed, ApplyAll, RowFollows, AnyResult, LastPosition;
    if a.Transforms? {
      LastSent(a.results);
      if AnyResult(a.results) && a.reply.Accepted? {
        SentFollows(s.docs, a.results);
        hide TableFollows;
      }
    }
  }

  /** After a tick whose results the sink accepted, or that had none, every event offered so far is done. */
  lemma TickSettles(steps: seq<Step>, s: State, a: Answer)
    requires Leads(IDLE, steps, s) && Enabled(s, Tick(a)) && a.Transforms? && (a.reply.Accepted? || !AnyResult(a.results))
    ensures var t := Next(s, Tick(a)); t.batch == [] && Events(t.done) == t.offered == s.offered
  {
    assert Safe(IDLE);
    RunIsSafe(IDLE, steps, s);
    FlushIsSafe(s, a);
    if s.batch != [] {
      FlushExactly(s, a);
    }
    hide Leads, FlushKept, Events, Results, Transformed;
    var t := FlushKept(s, a);
    assert Events(t.done) + [] == Events(t.done);
  }

  /** Neither the transform service nor the sink fails. */
  predicate Succeeds(a: Answer) {
    a.Transforms? && (a.reply.Accepted? || !AnyResult(a.results))
  }

  /** An event waits in the batch until a hundred have come together; then they are flushed. */
  lemma AddExactly(s: State, e: ChangeEvent, a: Answer)
    requires Enabled(s, Add(e, a))
    ensures var t := Next(s, Add(e, a));
            && t.offered == s.offered + [e]
            && (|s.batch| < 99 ==> t == s.(batch := s.batch + [e], offered := t.offered))
            && (|s.batch| >= 99 && a.TransformFails? ==> t == s.(batch := s.batch + [e], offered := t.offered))
            && (|s.batch| >= 99 && Succeeds(a) ==> t.batch == [] && |t.done| == |s.done| + |s.batch| + 1)
  {
    var u := Enlist(s, e);
    FlushExactly(u, a);
    hide AnyResult, FlushKept, TableFollows, LastPosition;
  }

  ghost predicate AllSucceed(steps: seq<Step>) {
    forall i | 0 <= i < |steps| :: Succeeds(steps[i].answer)
  }

  /** As long as nothing fails, the batch stays below a hundred events. */
  lemma {:induction false} BatchStaysSmall(s: State, steps: seq<Step>, t: State)
    requires Leads(s, steps, t) && AllSucceed(steps) && |s.batch| < 100
    ensures |t.batch| < 100
    decreases |steps|
  {
    if steps != [] {
      match steps[0] {
        case Add(e, a) => AddExactly(s, e, a);
        case Tick(a) => if s.batch != [] { FlushExactly(s, a); }
      }
      hide Next, Enabled, FlushKept, AnyResult;
      assert AllSucceed(steps[1..]);
      BatchStaysSmall(Next(s, steps[0]), steps[1..], t);
    }
  }

  /** While the transform service fails, the batch grows by every event: it has no bound of its own. */
  lemma {:induction false} BatchHasNoBound(n: nat, e: ChangeEvent) returns (steps: seq<Step>, t: State)
    ensures Leads(IDLE, steps, t) && |t.batch| == |steps| == n
    ensures forall i | 0 <= i < n :: steps[i] == Add(e, TransformFails)
  {
    steps, t := seq(n, i => Add(e, TransformFails)), IDLE;
    t := Grows(IDLE, steps, e);
  }

  lemma {:induction false} Grows(s: State, steps: seq<Step>, e: ChangeEvent) returns (t: State)
    requires forall i | 0 <= i < |steps| :: steps[i] == Add(e, TransformFails)
    ensures Leads(s, steps, t) && |t.batch| == |s.batch| + |steps|
    decreases |steps|
  {
    t := s;
    if steps != [] {
      t := Grows(Next(s, steps[0]), steps[1..], e);
    }
  }

  // ---------------------------------------------------------------- what failed writes leave behind

  /** The two tables differ at most on rows that these events change. */
  ghost predicate AgreeBeside(a: Table, b: Table, events: seq<ChangeEvent>) {
    forall k :: !Touches(events, k) ==> Lookup(a, k) == Lookup(b, k)
  }

  /** Delivering a batch again undoes whatever an earlier failed delivery of it has landed. */
  lemma RedeliveryHeals(docs: Table, ideal: Table, events: seq<ChangeEvent>)
    requires AgreeBeside(docs, ideal, events)
    ensures ApplyAll(docs, events) == ApplyAll(ideal, events)
  {
    hide Lookup, Touches;
    forall k ensures Lookup(ApplyAll(docs, events), k) == Lookup(ApplyAll(ideal, events), k) {
      Overwritten(docs, ideal, events, k);
    }
    SameTable(ApplyAll(docs, events), ApplyAll(ideal, events));
  }

  /** The step passes events through, and a failed write lands only events of the batch. */
  predicate Faithful(s: State, step: Step)
    requires Enabled(s, step)
  {
    var batch := if step.Add? then s.batch + [step.event] else s.batch;
    step.answer.Transforms? ==>
      && step.answer.results == PassThrough(batch)
      && (step.answer.reply.Failed? ==> forall e <- step.answer.reply.landed :: e in batch)
  }

  predicate FaithfulRun(s: State, steps: seq<Step>)
    decreases |steps|
  {
    steps != [] ==> Enabled(s, steps[0]) && Faithful(s, steps[0]) && FaithfulRun(Next(s, steps[0]), steps[1..])
  }

  /** The sink is as if the events that are done had been applied, but for rows that the batch will overwrite. */
  ghost predicate SinkFollows(start: Table, s: State) {
    AgreeBeside(s.docs, ApplyAll(start, Events(s.done)), s.batch)
  }

  lemma BatchAgain(start: Table, s: State, sent: seq<ChangeEvent>)
    requires SinkFollows(start, s) && sent == s.batch
    ensures ApplyAll(s.docs, sent) == ApplyAll(start, Events(s.done) + s.batch)
  {
    RedeliveryHeals(s.docs, ApplyAll(start, Events(s.done)), s.batch);
    AppliedInTwo(start, Events(s.done), s.batch);
  }

  lemma LandedBeside(docs: Table, ideal: Table, batch: seq<ChangeEvent>, landed: seq<ChangeEvent>)
    requires AgreeBeside(docs, ideal, batch) && forall e <- landed :: e in batch
    ensures AgreeBeside(ApplyAll(docs, landed), ideal, batch)
  {
    forall k | !Touches(batch, k) ensures Lookup(ApplyAll(docs, landed), k) == Lookup(ideal, k) {
      forall i | 0 <= i < |landed| ensures landed[i].key != k || landed[i].op == Other {
        assert landed[i] in batch;
        var n :| 0 <= n < |batch| && batch[n] == landed[i];
      }
      Untouched(docs, landed, k);
    }
  }

  lemma FlushFollows(start: Table, s: State, a: Answer)
    requires SinkFollows(start, s) && Answers(a, s.batch)
    requires a.Transforms? ==> a.results == PassThrough(s.batch)
    requires a.Transforms? && a.reply.Failed? ==> forall e <- a.reply.landed :: e in s.batch
    ensures SinkFollows(start, FlushKept(s, a))
  {
    if s.batch != [] && a.Transforms? {
      var t := FlushKept(s, a);
      PassedThrough(s.batch);
      HandledApart(s, a.results);
      hide AgreeBeside, ApplyAll, Events, Handle;
      if a.reply.Failed? {
        LandedBeside(s.docs, ApplyAll(start, Events(s.done)), s.batch, a.reply.landed);
      } else {
        BatchAgain(start, s, s.batch);
        SameBeside(t.docs, t.batch);
      }
    }
  }

  lemma SameBeside(docs: Table, events: seq<ChangeEvent>)
    ensures AgreeBeside(docs, docs, events)
  {
  }

  lemma EnlistFollows(start: Table, s: State, e: ChangeEvent)
    requires SinkFollows(start, s)
    ensures SinkFollows(start, Enlist(s, e))
  {
    hide Lookup, ApplyAll;
    forall k | Touches(s.batch, k) ensures Touches(s.batch + [e], k) {
      var i :| 0 <= i < |s.batch| && s.batch[i].key == k && s.batch[i].op != Other;
      assert (s.batch + [e])[i] == s.batch[i];
    }
  }

  lemma StepFollows(start: Table, s: State, step: Step)
    requires SinkFollows(start, s) && Enabled(s, step) && Faithful(s, step)
    ensures SinkFollows(start, Next(s, step))
  {
    hide SinkFollows, FlushKept;
    match step
    case Add(e, a) =>
      EnlistFollows(start, s, e);
      if |Enlist(s, e).batch| >= BATCH_SIZE {
        FlushFollows(start, Enlist(s, e), a);
      }
    case Tick(a) => FlushFollows(start, s, a);
  }

  lemma {:induction false} RunFollows(start: Table, s: State, steps: seq<Step>, t: State)
    requires SinkFollows(start, s) && Leads(s, steps, t) && FaithfulRun(s, steps)
    ensures SinkFollows(start, t)
    decreases |steps|
  {
    hide SinkFollows, Next, Enabled, Faithful;
    if steps != [] {
      StepFollows(start, s, steps[0]);
      RunFollows(start, Next(s, steps[0]), steps[1..], t);
    }
  }

  /**
   * At-least-once delivery is enough: however often the transform service or the sink failed, and
   * whatever part of the batch the failed writes have landed, whenever the batch is empty the sink
   * is exactly what applying every offered event once, in order, makes of it.
   */
  lemma FailuresLeaveNoTrace(start: Table, steps: seq<Step>, t: State)
    requires Leads(IDLE.(docs := start), steps, t) && FaithfulRun(IDLE.(docs := start), steps) && t.batch == []
    ensures t.docs == ApplyAll(start, t.offered)
  {
    var s := IDLE.(docs := start);
    assert Safe(s) && SinkFollows(start, s);
    RunIsSafe(s, steps, t);
    RunFollows(start, s, steps, t);
    hide Leads, FaithfulRun, ApplyAll;
    assert t.offered == Events(t.done);
    SameTable(t.docs, ApplyAll(start, t.offered)) by {
      forall k ensures Lookup(t.docs, k) == Lookup(ApplyAll(start, t.offered), k) {
        assert !Touches(t.batch, k);
      }
    }
  }
}
