/**
 * The multi-orchestrator's job as it runs: a channel, a batch and a checkpoint that its methods
 * change in place. Each method is proved to do to the job's buffers what the function of the same
 * operation in Pipeline.dfy does. What the transform service, the sink and the dead-letter queue
 * answer comes in as an `Outcome`.
 */
module MultiOrchestrator {
  import opened Wrappers
  import opened Pipeline
  import opened SinkService

  /** A snapshot record; without a key it could not be parsed or lacks a key column. */
  datatype Record = Record(key: Option<Key>, document: Document)

  /** The events of a chunk's records: INSERTs at the chunk's LSN; records without a key are skipped. */
  function SnapshotEvents(records: seq<Record>, lsn: nat): seq<ChangeEvent> {
    if records == [] then []
    else
      var last := records[|records| - 1];
      SnapshotEvents(records[..|records| - 1], lsn) +
      if last.key.Some? then [ChangeEvent(lsn, Insert, last.key.value, last.document)] else []
  }

  class MultiJob {
    const sink: Sink
    var cdcEvents: seq<ChangeEvent>
    var event: Option<ChangeEvent>
    var batch: seq<ChangeEvent>
    var lastCp: Option<nat>
    ghost var ledger: Ledger

    constructor (sink: Sink)
      ensures this.sink == sink && cdcEvents == batch == [] && event.None? && lastCp.None? && ledger == NO_EVENTS
    {
      this.sink := sink;
      cdcEvents, event, batch, lastCp, ledger := [], None, [], None, NO_EVENTS;
    }

    ghost function Abs(): Buffers
      reads this, sink
    {
      Buffers(cdcEvents, event, batch, sink.docs, lastCp, ledger)
    }

    /** The send blocks while the channel is full: a caller that gets false tries again. */
    method AddToBatch(e: ChangeEvent) returns (sent: bool)
      modifies this`cdcEvents, this`ledger
      ensures sent <==> old(HasRoom(Abs()))
      ensures Abs() == if sent then Offer(old(Abs()), e) else old(Abs())
    {
      sent := |cdcEvents| < QUEUE_CAPACITY;
      if sent {
        cdcEvents := cdcEvents + [e];
        ledger := ledger.(offered := ledger.offered + [e]);
      }
    }

    method ResetCdcBuffers() returns (droppedBatch: nat, droppedQueued: nat)
      modifies this`batch, this`cdcEvents, this`ledger
      ensures Abs() == Reset(old(Abs()))
      ensures droppedBatch == old(|batch|) && droppedQueued == old(|cdcEvents|)
    {
      droppedBatch, droppedQueued := |batch|, 0;
      ledger := ledger.(cleared := ledger.cleared + batch);
      batch := [];
      assert old(cdcEvents)[..0] == [];
      while |cdcEvents| > 0
        invariant droppedQueued + |cdcEvents| == old(|cdcEvents|)
        invariant old(cdcEvents) == old(cdcEvents)[..droppedQueued] + cdcEvents
        invariant batch == []
        invariant ledger == old(ledger).(cleared := old(ledger.cleared) + old(batch) + old(cdcEvents)[..droppedQueued])
        decreases |cdcEvents|
      {
        assert old(cdcEvents)[..droppedQueued + 1] == old(cdcEvents)[..droppedQueued] + [cdcEvents[0]];
        ledger := ledger.(cleared := ledger.cleared + [cdcEvents[0]]);
        cdcEvents := cdcEvents[1..];
        droppedQueued := droppedQueued + 1;
      }
    }

    /** The processor receives from the channel. */
    method Receive()
      requires |cdcEvents| > 0 && event.None?
      modifies this`cdcEvents, this`event
      ensures Abs() == Take(old(Abs()))
    {
      event := Some(cdcEvents[0]);
      cdcEvents := cdcEvents[1..];
    }

    /** The processor's critical section for a received event. */
    method Process(o: Outcome)
      requires event.Some? && Fits(o, batch + [event.value])
      modifies this`batch, this`event, this`lastCp, this`ledger, sink
      ensures Abs() == Put(old(Abs()), o)
    {
      batch := batch + [event.value];
      event := None;
      if |batch| >= BATCH_SIZE {
        var _ := FlushBatch(o);
      }
    }

    /** Results are collected until the transform stream ends. */
    method TransformEvents(events: seq<ChangeEvent>, results: seq<Option<ChangeEvent>>) returns (transformed: seq<ChangeEvent>)
      requires |events| == |results|
      ensures transformed == Transformed(results)
    {
      transformed := [];
      for i := 0 to |events|
        invariant transformed == Transformed(results[..i])
      {
        assert results[..i + 1][..i] == results[..i];
        if results[i].Some? {
          transformed := transformed + [results[i].value];
        }
      }
      assert results[..|events|] == results;
    }

    /** How many of the events the dead-letter queue takes in; those with a live key are refused. */
    method AddToDeadLetters(results: seq<Option<ChangeEvent>>, live: LiveItems) returns (added: nat)
      requires |results| == |batch|
      ensures added == |Filed(batch, results, live, true)|
    {
      var items := live;
      added := 0;
      for i := 0 to |results|
        invariant items == LiveAfter(live, results[..i]) && added == |Filed(batch[..i], results[..i], live, true)|
      {
        assert results[..i + 1][..i] == results[..i] && batch[..i + 1][..i] == batch[..i];
        if results[i].Some? {
          if !IsLive(items, results[i].value) {
            added := added + 1;
          }
          items := items.(ids := items.ids + {IdentityOf(items, results[i].value)});
        }
      }
      assert results[..|results|] == results && batch[..|results|] == batch;
    }

    method FlushBatch(o: Outcome) returns (added: nat)
      requires Fits(o, batch)
      modifies this`batch, this`lastCp, this`ledger, sink
      ensures Abs() == Flush(old(Abs()), o)
      ensures o.deadLetters.Some? && o.reply.Failed? && Transformed(o.results) != [] ==>
                added == |old(Filed(batch, o.results, o.deadLetters.value, true))|
    {
      hide Transformed, Sifted, Filed, ApplyAll, LiveAfter;
      added := 0;
      if |batch| == 0 {
        NothingFiled(o);
        return;
      }
      ghost var after := Flush(Abs(), o);
      var transformed := TransformEvents(batch, o.results);
      if |transformed| == 0 {
        batch, ledger := [], after.ledger;
        return;
      }
      var ok := sink.BulkWrite(transformed, o.reply);
      if !ok {
        if o.deadLetters.Some? {
          added := AddToDeadLetters(o.results, o.deadLetters.value);
        }
        batch, ledger := [], after.ledger;
        return;
      }
      lastCp := Some(transformed[|transformed| - 1].lsn);
      batch, ledger := [], after.ledger;
    }

    /** The records of one snapshot message go to the sink, and the message's LSN becomes the checkpoint. */
    method ProcessSnapshotChunk(records: seq<Record>, lsn: nat, o: Outcome) returns (ok: bool)
      requires Fits(o, SnapshotEvents(records, lsn))
      modifies this`lastCp, sink
      ensures var events, sent := SnapshotEvents(records, lsn), Transformed(o.results);
              if events == [] then ok && Abs() == old(Abs())
              else
                && ok == o.reply.Accepted?
                && sink.docs == ApplyAll(old(sink.docs), if ok then sent else o.reply.landed)
                && lastCp == if ok && sent != [] then Some(sent[|sent| - 1].lsn) else old(lastCp)
    {
      hide Transformed, ApplyAll;
      var events: seq<ChangeEvent> := [];
      for i := 0 to |records|
        invariant events == SnapshotEvents(records[..i], lsn)
      {
        assert records[..i + 1][..i] == records[..i];
        if records[i].key.Some? {
          events := events + [ChangeEvent(lsn, Insert, records[i].key.value, records[i].document)];
        }
      }
      assert records[..|records|] == records;
      ok := true;
      if |events| > 0 {
        var transformed := TransformEvents(events, o.results);
        ok := sink.BulkWrite(transformed, o.reply);
        if ok && |transformed| > 0 {
          lastCp := Some(transformed[|transformed| - 1].lsn);
        }
      }
    }
  }

  lemma NothingFiled(o: Outcome)
    ensures o.results == [] ==> Transformed(o.results) == []
  {
  }

  // ---------------------------------------------------------------- the class and the protocol

  /** The rows that a chunk's records stand for; a later record of the same key replaces an earlier one. */
  function RowsOf(records: seq<Record>): Table {
    if records == [] then map[]
    else
      var last := records[|records| - 1];
      if last.key.Some? then RowsOf(records[..|records| - 1])[last.key.value := last.document]
      else RowsOf(records[..|records| - 1])
  }

  /** Sending a chunk's records is merging its rows into the sink, as the protocol's snapshot step does. */
  lemma {:induction false} ChunkMerges(docs: Table, records: seq<Record>, lsn: nat)
    ensures ApplyAll(docs, SnapshotEvents(records, lsn)) == docs + RowsOf(records)
    ensures forall e <- SnapshotEvents(records, lsn) :: e.lsn == lsn
    decreases |records|
  {
    if records != [] {
      var init, last := records[..|records| - 1], records[|records| - 1];
      ChunkMerges(docs, init, lsn);
      if last.key.Some? {
        var e := ChangeEvent(lsn, Insert, last.key.value, last.document);
        var events := SnapshotEvents(records, lsn);
        assert events[..|events| - 1] == SnapshotEvents(init, lsn) && events[|events| - 1] == e;
        assert docs + RowsOf(records) == (docs + RowsOf(init))[e.key := e.document];
      } else {
        assert SnapshotEvents(records, lsn) == SnapshotEvents(init, lsn);
      }
    }
  }
}
