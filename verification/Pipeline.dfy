/**
 * The path of a change event through a job: a bounded channel, the event that the batch
 * processor has just taken from it, the batch, and then the transform service, the sink and
 * the dead-letter queue. Every operation of the job is a function on these buffers; the class
 * in MultiJob.dfy is proved against them and Handoff.dfy builds its protocol from them.
 *
 * A ledger records the fate of every event, so that conservation can be stated.
 */
module Pipeline {
  import opened Wrappers

  type Key = string
  type Document = string
  type Table = map<Key, Document>

  datatype Op = Insert | Update | Delete | Other

  datatype ChangeEvent = ChangeEvent(lsn: nat, op: Op, key: Key, document: Document)

  const BATCH_SIZE: nat := 100
  const QUEUE_CAPACITY: nat := 2000

  // ---------------------------------------------------------------- the sink

  /** Elasticsearch: INSERT and UPDATE index the document, DELETE of an absent one is acknowledged. */
  function Apply(docs: Table, e: ChangeEvent): Table {
    match e.op
    case Insert => docs[e.key := e.document]
    case Update => docs[e.key := e.document]
    case Delete => docs - {e.key}
    case Other => docs
  }

  function ApplyAll(docs: Table, events: seq<ChangeEvent>): Table {
    if events == [] then docs
    else Apply(ApplyAll(docs, events[..|events| - 1]), events[|events| - 1])
  }

  function Lookup(docs: Table, k: Key): Option<Document> {
    if k in docs then Some(docs[k]) else None
  }

  // ---------------------------------------------------------------- what can happen to a batch

  /** The sink's answer; a failed bulk write may have landed some documents all the same. */
  datatype Reply = Accepted | Failed(landed: seq<ChangeEvent>)

  /** What the dead-letter queue of a job tells events by: the key and, for MySQL alone, the position. */
  datatype Identity = Identity(key: Key, position: Option<nat>)

  /** The live items of the dead-letter queue, and whether the source's events have a binlog position. */
  datatype LiveItems = LiveItems(positioned: bool, ids: set<Identity>)

  function IdentityOf(live: LiveItems, e: ChangeEvent): Identity {
    Identity(e.key, if live.positioned then Some(e.lsn) else None)
  }

  predicate IsLive(live: LiveItems, e: ChangeEvent) {
    IdentityOf(live, e) in live.ids
  }

  /**
   * What the environment does with one flush: the transform service's result for each event of
   * the batch, the sink's reply, and the live items of the dead-letter queue, if it is on.
   */
  datatype Outcome = Outcome(results: seq<Option<ChangeEvent>>, reply: Reply, deadLetters: Option<LiveItems>)

  /** No transform service: every event is passed through as it is. */
  function PassThrough(events: seq<ChangeEvent>): (results: seq<Option<ChangeEvent>>)
    ensures |results| == |events|
  {
    seq(|events|, i requires 0 <= i < |events| => Some(events[i]))
  }

  /** The events that come back from the transform service. */
  function Transformed(results: seq<Option<ChangeEvent>>): seq<ChangeEvent> {
    if results == [] then []
    else
      var last := results[|results| - 1];
      Transformed(results[..|results| - 1]) + if last.Some? then [last.value] else []
  }

  /** The events of the batch that the transform service keeps (or drops). */
  function Sifted(batch: seq<ChangeEvent>, results: seq<Option<ChangeEvent>>, kept: bool): seq<ChangeEvent>
    requires |batch| == |results|
  {
    if batch == [] then []
    else
      var n := |batch| - 1;
      Sifted(batch[..n], results[..n], kept) + if results[n].Some? == kept then [batch[n]] else []
  }

  /** The items live in the dead-letter queue once these events have been offered to it. */
  function LiveAfter(live: LiveItems, results: seq<Option<ChangeEvent>>): LiveItems {
    if results == [] then live
    else
      var last := results[|results| - 1];
      var before := LiveAfter(live, results[..|results| - 1]);
      if last.Some? then before.(ids := before.ids + {IdentityOf(before, last.value)}) else before
  }

  /** The events that the dead-letter queue stores (or refuses because it has a live item of the same identity). */
  function Filed(batch: seq<ChangeEvent>, results: seq<Option<ChangeEvent>>, live: LiveItems, stored: bool): seq<ChangeEvent>
    requires |batch| == |results|
  {
    if batch == [] then []
    else
      var n := |batch| - 1;
      Filed(batch[..n], results[..n], live, stored) +
      if results[n].Some? && !IsLive(LiveAfter(live, results[..n]), results[n].value) == stored then [batch[n]] else []
  }

  lemma {:induction false} PassedThrough(events: seq<ChangeEvent>)
    ensures Transformed(PassThrough(events)) == events
    decreases |events|
  {
    if events != [] {
      var n := |events| - 1;
      PassedThrough(events[..n]);
      assert PassThrough(events)[..n] == PassThrough(events[..n]);
    }
  }

  // ---------------------------------------------------------------- the buffers

  /** Where the offered events went: each ends up in one of these lists or is still in a buffer. */
  datatype Ledger = Ledger(
    offered: seq<ChangeEvent>, acknowledged: seq<ChangeEvent>, deadLettered: seq<ChangeEvent>,
    refused: seq<ChangeEvent>, lost: seq<ChangeEvent>, removed: seq<ChangeEvent>, cleared: seq<ChangeEvent>)

  const NO_EVENTS := Ledger([], [], [], [], [], [], [])

  datatype Buffers = Buffers(
    queue: seq<ChangeEvent>, hand: Option<ChangeEvent>, batch: seq<ChangeEvent>,
    docs: Table, checkpoint: Option<nat>, ledger: Ledger)

  predicate HasRoom(b: Buffers) {
    |b.queue| < QUEUE_CAPACITY
  }

  /** addToBatch: the reader puts an event into the channel, when there is room. */
  function Offer(b: Buffers, e: ChangeEvent): Buffers {
    b.(queue := b.queue + [e], ledger := b.ledger.(offered := b.ledger.offered + [e]))
  }

  /** The processor takes the next event from the channel. */
  function Take(b: Buffers): Buffers
    requires b.queue != [] && b.hand.None?
  {
    b.(queue := b.queue[1..], hand := Some(b.queue[0]))
  }

  /** The processor appends the event in its hand to the batch. */
  function Append(b: Buffers): Buffers
    requires b.hand.Some?
  {
    b.(hand := None, batch := b.batch + [b.hand.value])
  }

  predicate Fits(o: Outcome, batch: seq<ChangeEvent>) {
    |o.results| == |batch|
  }

  /** flushBatch: the batch is empty afterwards whatever the transform service and the sink did. */
  function Flush(b: Buffers, o: Outcome): Buffers
    requires Fits(o, b.batch)
  {
    if b.batch == [] then b
    else
      var sent := Transformed(o.results);
      if sent == [] then b.(batch := [], ledger := b.ledger.(removed := b.ledger.removed + b.batch))
      else if o.reply.Accepted? then Acknowledge(b, o.results, sent)
      else SetAside(b, o)
  }

  function Acknowledge(b: Buffers, results: seq<Option<ChangeEvent>>, sent: seq<ChangeEvent>): Buffers
    requires |results| == |b.batch| && sent != []
  {
    b.(batch := [], docs := ApplyAll(b.docs, sent), checkpoint := Some(sent[|sent| - 1].lsn),
       ledger := b.ledger.(acknowledged := b.ledger.acknowledged + Sifted(b.batch, results, true),
                           removed := b.ledger.removed + Sifted(b.batch, results, false)))
  }

  /** A failed flush: the events go to the dead-letter queue, or are lost if there is none; the checkpoint stays. */
  function SetAside(b: Buffers, o: Outcome): Buffers
    requires Fits(o, b.batch) && o.reply.Failed?
  {
    var removed := b.ledger.removed + Sifted(b.batch, o.results, false);
    var rest := b.(batch := [], docs := ApplyAll(b.docs, o.reply.landed));
    match o.deadLetters
    case None => rest.(ledger := b.ledger.(removed := removed, lost := b.ledger.lost + Sifted(b.batch, o.results, true)))
    case Some(live) =>
      rest.(ledger := b.ledger.(
        removed := removed,
        deadLettered := b.ledger.deadLettered + Filed(b.batch, o.results, live, true),
        refused := b.ledger.refused + Filed(b.batch, o.results, live, false)))
  }

  predicate IsFull(b: Buffers) {
    |b.batch| >= BATCH_SIZE
  }

  /** One event through the processor's critical section: append, and flush a full batch. */
  function Put(b: Buffers, o: Outcome): Buffers
    requires b.hand.Some? && Fits(o, b.batch + [b.hand.value])
  {
    var appended := Append(b);
    if IsFull(appended) then Flush(appended, o) else appended
  }

  /** The first half of resetCDCBuffers. */
  function ClearBatch(b: Buffers): Buffers {
    b.(batch := [], ledger := b.ledger.(cleared := b.ledger.cleared + b.batch))
  }

  /** One round of the second half of resetCDCBuffers. */
  function DropQueued(b: Buffers): Buffers
    requires b.queue != []
  {
    b.(queue := b.queue[1..], ledger := b.ledger.(cleared := b.ledger.cleared + [b.queue[0]]))
  }

  /** resetCDCBuffers when nothing else runs in between. */
  function Reset(b: Buffers): Buffers {
    var cleared := ClearBatch(b);
    cleared.(queue := [], ledger := cleared.ledger.(cleared := cleared.ledger.cleared + b.queue))
  }

  // ---------------------------------------------------------------- what a flush does, result by result

  /** What a change leaves of its row. */
  function Left(e: ChangeEvent): Option<Document> {
    if e.op == Delete then None else Some(e.document)
  }

  predicate Concerns(r: Option<ChangeEvent>, k: Key) {
    r.Some? && r.value.key == k && r.value.op != Other
  }

  /** Result `i` is the last one that concerns this row. */
  predicate LastFor(results: seq<Option<ChangeEvent>>, i: nat, k: Key) {
    i < |results| && Concerns(results[i], k) && forall n | i < n < |results| :: !Concerns(results[n], k)
  }

  /** Each row is as the last result that concerns it leaves it, or as before if none does. */
  predicate RowFollows(before: Table, results: seq<Option<ChangeEvent>>, after: Table, k: Key) {
    && (forall i | 0 <= i < |results| && LastFor(results, i, k) :: Lookup(after, k) == Left(results[i].value))
    && ((forall i | 0 <= i < |results| :: !Concerns(results[i], k)) ==> Lookup(after, k) == Lookup(before, k))
  }

  ghost predicate TableFollows(before: Table, results: seq<Option<ChangeEvent>>, after: Table) {
    forall k :: RowFollows(before, results, after, k)
  }

  /** This is the position of the last result. */
  predicate LastPosition(results: seq<Option<ChangeEvent>>, checkpoint: Option<nat>) {
    exists i :: 0 <= i < |results| && results[i].Some? && checkpoint == Some(results[i].value.lsn)
                && forall n | i < n < |results| :: results[n].None?
  }

  predicate AnyResult(results: seq<Option<ChangeEvent>>) {
    exists i :: 0 <= i < |results| && results[i].Some?
  }

  lemma RowFollowsOn(before: Table, init: seq<Option<ChangeEvent>>, r: Option<ChangeEvent>, mid: Table, k: Key)
    requires RowFollows(before, init, mid, k)
    ensures RowFollows(before, init + [r], if r.Some? then Apply(mid, r.value) else mid, k)
  {
    var n, all, after := |init|, init + [r], if r.Some? then Apply(mid, r.value) else mid;
    assert all[n] == r && forall i | 0 <= i < n :: all[i] == init[i];
    if Concerns(r, k) {
      assert Lookup(after, k) == Left(r.value);
      hide Lookup, Apply;
      assert forall i | 0 <= i < n :: !LastFor(all, i, k);
    } else {
      assert Lookup(after, k) == Lookup(mid, k);
      hide Lookup, Apply;
      assert forall i | 0 <= i < n && LastFor(all, i, k) :: LastFor(init, i, k);
    }
  }

  lemma TransformedSnoc(docs: Table, results: seq<Option<ChangeEvent>>)
    requires results != []
    ensures var n := |results| - 1;
            var mid := ApplyAll(docs, Transformed(results[..n]));
            ApplyAll(docs, Transformed(results)) == if results[n].Some? then Apply(mid, results[n].value) else mid
  {
    hide Apply;
    var n := |results| - 1;
    var sent := Transformed(results);
    if results[n].Some? {
      assert sent[..|sent| - 1] == Transformed(results[..n]) && sent[|sent| - 1] == results[n].value;
    } else {
      assert sent == Transformed(results[..n]) + [] == Transformed(results[..n]);
    }
  }

  lemma NoResultFollows(docs: Table, k: Key)
    ensures RowFollows(docs, [], ApplyAll(docs, Transformed([])), k)
  {
  }

  lemma {:induction false} ResultsFollow(docs: Table, results: seq<Option<ChangeEvent>>, k: Key)
    ensures RowFollows(docs, results, ApplyAll(docs, Transformed(results)), k)
    decreases |results|
  {
    hide Transformed, ApplyAll, Apply, RowFollows;
    if results == [] {
      NoResultFollows(docs, k);
    } else {
      var n := |results| - 1;
      var mid := ApplyAll(docs, Transformed(results[..n]));
      ResultsFollow(docs, results[..n], k);
      RowFollowsOn(docs, results[..n], results[n], mid, k);
      assert results[..n] + [results[n]] == results;
      TransformedSnoc(docs, results);
    }
  }

  lemma SentFollows(docs: Table, results: seq<Option<ChangeEvent>>)
    ensures TableFollows(docs, results, ApplyAll(docs, Transformed(results)))
  {
    hide Transformed, ApplyAll, RowFollows;
    forall k ensures RowFollows(docs, results, ApplyAll(docs, Transformed(results)), k) {
      ResultsFollow(docs, results, k);
    }
  }

  lemma LastPositionOn(init: seq<Option<ChangeEvent>>, checkpoint: Option<nat>)
    requires LastPosition(init, checkpoint)
    ensures LastPosition(init + [None], checkpoint)
  {
    var all := init + [None];
    var i :| 0 <= i < |init| && init[i].Some? && checkpoint == Some(init[i].value.lsn) && forall n | i < n < |init| :: init[n].None?;
    assert all[i] == init[i] && forall n | i < n < |init| :: all[n] == init[n];
  }

  lemma AnyResultOn(init: seq<Option<ChangeEvent>>, r: Option<ChangeEvent>)
    ensures AnyResult(init + [r]) <==> AnyResult(init) || r.Some?
  {
    var all := init + [r];
    assert all[|init|] == r;
    if i :| 0 <= i < |init| && init[i].Some? {
      assert all[i] == init[i];
    }
  }

  lemma {:induction false} LastSent(results: seq<Option<ChangeEvent>>)
    ensures Transformed(results) != [] <==> AnyResult(results)
    ensures var sent := Transformed(results); sent != [] ==> LastPosition(results, Some(sent[|sent| - 1].lsn))
    decreases |results|
  {
    if results != [] {
      var n := |results| - 1;
      var init := results[..n];
      LastSent(init);
      assert init + [results[n]] == results;
      AnyResultOn(init, results[n]);
      hide AnyResult;
      if results[n].Some? {
        assert LastPosition(results, Some(results[n].value.lsn));
      } else if Transformed(init) != [] {
        hide LastPosition;
        LastPositionOn(init, Some(Transformed(init)[|Transformed(init)| - 1].lsn));
      }
    }
  }

  /** The dead-letter queue takes these results for the same. */
  predicate SameIdentity(live: LiveItems, a: Option<ChangeEvent>, b: Option<ChangeEvent>) {
    a.Some? && b.Some? && a.value.key == b.value.key && (live.positioned ==> a.value.lsn == b.value.lsn)
  }

  /** Result `i` is neither live nor the same as a result before it. */
  predicate IsNew(live: LiveItems, results: seq<Option<ChangeEvent>>, i: nat)
    requires i < |results| && results[i].Some?
  {
    !IsLive(live, results[i].value) && forall n | 0 <= n < i :: !SameIdentity(live, results[n], results[i])
  }

  lemma {:induction false} LiveExactly(live: LiveItems, results: seq<Option<ChangeEvent>>, e: ChangeEvent)
    ensures LiveAfter(live, results).positioned == live.positioned
    ensures IsLive(LiveAfter(live, results), e) <==>
            IsLive(live, e) || exists n :: 0 <= n < |results| && SameIdentity(live, results[n], Some(e))
    decreases |results|
  {
    if results != [] {
      var init, last := results[..|results| - 1], results[|results| - 1];
      LiveExactly(live, init, e);
      assert forall n | 0 <= n < |init| :: init[n] == results[n];
      assert IsLive(LiveAfter(live, results), e) <==> IsLive(LiveAfter(live, init), e) || SameIdentity(live, last, Some(e));
    }
  }

  /** Of a failed batch, event by event: it is stored if its result is new, refused if not, and neither without a result. */
  lemma FiledExactly(batch: seq<ChangeEvent>, results: seq<Option<ChangeEvent>>, live: LiveItems, n: nat, stored: bool)
    requires n < |batch| == |results|
    ensures Filed(batch[..n + 1], results[..n + 1], live, stored) ==
            Filed(batch[..n], results[..n], live, stored) +
            if results[n].Some? && IsNew(live, results, n) == stored then [batch[n]] else []
  {
    assert batch[..n + 1][..n] == batch[..n] && results[..n + 1][..n] == results[..n];
    if results[n].Some? {
      LiveExactly(live, results[..n], results[n].value);
      assert forall i | 0 <= i < n :: results[..n][i] == results[i];
    }
  }

  /**
   * Whatever the transform service returns: when the sink has accepted, each row holds what the last
   * result that concerns it says, so that a removed event changes nothing, and the checkpoint is the
   * position of the last result. When it has failed, or nothing came back, the checkpoint stays, and
   * only what has landed is in the sink. In every case the batch is empty afterwards.
   */
  lemma FlushExactly(b: Buffers, o: Outcome)
    requires Fits(o, b.batch) && b.batch != []
    ensures var t := Flush(b, o);
            && t.batch == [] && t.queue == b.queue && t.hand == b.hand && t.ledger.offered == b.ledger.offered
            && if !AnyResult(o.results) then t.docs == b.docs && t.checkpoint == b.checkpoint
               else if o.reply.Accepted? then TableFollows(b.docs, o.results, t.docs) && LastPosition(o.results, t.checkpoint)
               else t.docs == ApplyAll(b.docs, o.reply.landed) && t.checkpoint == b.checkpoint
  {
    LastSent(o.results);
    hide Transformed, ApplyAll, Sifted, Filed, RowFollows, AnyResult;
    SentFollows(b.docs, o.results);
    hide TableFollows, LastPosition;
  }

  /** The processor's event waits in the batch until a hundred have come together; then they are flushed, whatever comes of it. */
  lemma PutExactly(b: Buffers, o: Outcome)
    requires b.hand.Some? && Fits(o, b.batch + [b.hand.value])
    ensures var t := Put(b, o);
            && t.hand.None? && t.queue == b.queue
            && (|b.batch| < 99 ==> t == b.(hand := None, batch := b.batch + [b.hand.value]))
            && (|b.batch| >= 99 ==> t.batch == [])
            && (|b.batch| >= 99 && AnyResult(o.results) && o.reply.Accepted? ==> TableFollows(b.docs, o.results, t.docs))
  {
    FlushExactly(Append(b), o);
    hide AnyResult, Flush, TableFollows, LastPosition;
  }

  // ---------------------------------------------------------------- conservation

  function Held(b: Buffers): multiset<ChangeEvent> {
    multiset(b.queue) + multiset(b.batch) + if b.hand.Some? then multiset{b.hand.value} else multiset{}
  }

  function Settled(l: Ledger): multiset<ChangeEvent> {
    multiset(l.acknowledged) + multiset(l.deadLettered) + multiset(l.refused) + multiset(l.lost) +
    multiset(l.removed) + multiset(l.cleared)
  }

  /** Every offered event is in exactly one buffer or has met exactly one fate. */
  predicate Conserved(b: Buffers) {
    multiset(b.ledger.offered) == Held(b) + Settled(b.ledger)
  }

  lemma {:induction false} SiftedApart(batch: seq<ChangeEvent>, results: seq<Option<ChangeEvent>>)
    requires |batch| == |results|
    ensures multiset(batch) == multiset(Sifted(batch, results, true)) + multiset(Sifted(batch, results, false))
    decreases |batch|
  {
    if batch != [] {
      var n := |batch| - 1;
      SiftedApart(batch[..n], results[..n]);
      assert batch == batch[..n] + [batch[n]];
    }
  }

  lemma {:induction false} FiledApart(batch: seq<ChangeEvent>, results: seq<Option<ChangeEvent>>, live: LiveItems)
    requires |batch| == |results|
    ensures multiset(Sifted(batch, results, true)) ==
            multiset(Filed(batch, results, live, true)) + multiset(Filed(batch, results, live, false))
    decreases |batch|
  {
    if batch != [] {
      var n := |batch| - 1;
      FiledApart(batch[..n], results[..n], live);
    }
  }

  lemma {:induction false} NothingKept(batch: seq<ChangeEvent>, results: seq<Option<ChangeEvent>>)
    requires |batch| == |results| && Transformed(results) == []
    ensures Sifted(batch, results, true) == [] && Sifted(batch, results, false) == batch
    decreases |batch|
  {
    if batch != [] {
      var n := |batch| - 1;
      NothingKept(batch[..n], results[..n]);
      assert batch == batch[..n] + [batch[n]];
    }
  }

  lemma OfferConserves(b: Buffers, e: ChangeEvent)
    requires Conserved(b)
    ensures Conserved(Offer(b, e))
  {
  }

  lemma TakeConserves(b: Buffers)
    requires Conserved(b) && b.queue != [] && b.hand.None?
    ensures Conserved(Take(b))
  {
    assert b.queue == [b.queue[0]] + b.queue[1..];
  }

  lemma AppendConserves(b: Buffers)
    requires Conserved(b) && b.hand.Some?
    ensures Conserved(Append(b))
  {
  }

  lemma AcknowledgeConserves(b: Buffers, results: seq<Option<ChangeEvent>>, sent: seq<ChangeEvent>)
    requires Conserved(b) && |results| == |b.batch| && sent != []
    ensures Conserved(Acknowledge(b, results, sent))
  {
    hide Sifted, ApplyAll;
    SiftedApart(b.batch, results);
  }

  lemma SetAsideConserves(b: Buffers, o: Outcome)
    requires Conserved(b) && Fits(o, b.batch) && o.reply.Failed?
    ensures Conserved(SetAside(b, o))
  {
    hide Sifted, Filed, ApplyAll;
    SiftedApart(b.batch, o.results);
    if o.deadLetters.Some? {
      FiledApart(b.batch, o.results, o.deadLetters.value);
    }
  }

  lemma FlushConserves(b: Buffers, o: Outcome)
    requires Conserved(b) && Fits(o, b.batch)
    ensures Conserved(Flush(b, o))
  {
    var sent := Transformed(o.results);
    if b.batch != [] && sent != [] {
      hide Acknowledge, SetAside, Conserved, Transformed;
      if o.reply.Accepted? {
        AcknowledgeConserves(b, o.results, sent);
      } else {
        SetAsideConserves(b, o);
      }
    }
  }

  lemma ClearBatchConserves(b: Buffers)
    requires Conserved(b)
    ensures Conserved(ClearBatch(b))
  {
  }

  lemma DropQueuedConserves(b: Buffers)
    requires Conserved(b) && b.queue != []
    ensures Conserved(DropQueued(b))
  {
    assert b.queue == [b.queue[0]] + b.queue[1..];
  }
}
