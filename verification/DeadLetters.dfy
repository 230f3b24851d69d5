/**
 * The dead-letter queue as a state machine: failed events are stored once per live key, retried a
 * bounded number of times with growing delays by one retrier that works outside the lock, and may
 * be discarded or cleaned up meanwhile.
 */
module DeadLetters {
  import opened Wrappers
  import opened Decimals

  datatype Status = Pending | Retrying | Exhausted | Resolved | Discarded

  /** What the queue reads of a change event and its checkpoint. */
  datatype FailedEvent = FailedEvent(primaryKey: string, binlogFile: string, binlogPos: nat)

  /** `starts` records when the retry callback was called for this item. */
  datatype Item = Item(
    jobId: string, event: FailedEvent, status: Status, retryCount: nat, maxRetries: nat,
    firstFailed: nat, lastRetried: Option<nat>, starts: seq<nat>)

  // ---------------------------------------------------------------- one item

  /** The position that tells events of one row apart; it is empty for every source but MySQL. */
  function PositionText(e: FailedEvent): string {
    if e.binlogFile == "" then "" else e.binlogFile + ":" + PrintDecimal(e.binlogPos)
  }

  function DedupeKey(jobId: string, e: FailedEvent): string {
    jobId + "|" + (e.primaryKey + "|" + PositionText(e))
  }

  function ItemKey(item: Item): string {
    DedupeKey(item.jobId, item.event)
  }

  predicate IsLive(item: Item) {
    item.status.Pending? || item.status.Retrying?
  }

  function NewItem(jobId: string, e: FailedEvent, maxRetries: nat, now: nat): Item {
    Item(jobId, e, Pending, 0, maxRetries, now, None, [])
  }

  function Pow2(n: nat): (p: nat)
    ensures p > 0
  {
    if n == 0 then 1 else 2 * Pow2(n - 1)
  }

  /** shouldRetry: the delay doubles with every attempt. */
  predicate ShouldRetry(item: Item, delay: nat, now: nat) {
    item.lastRetried.Some? ==> now - item.lastRetried.value >= delay * Pow2(item.retryCount)
  }

  predicate Eligible(item: Item, delay: nat, now: nat) {
    item.status.Pending? && item.retryCount < item.maxRetries && ShouldRetry(item, delay, now)
  }

  /** The first half of retryItem, whatever the item's status has become since it was collected. */
  function Begun(item: Item, now: nat): Item {
    item.(status := Retrying, lastRetried := Some(now), starts := item.starts + [now])
  }

  /** The second half of retryItem, after the callback has returned. */
  function Ended(item: Item, ok: bool): Item {
    var count := item.retryCount + 1;
    item.(retryCount := count, status := if ok then Resolved else if count >= item.maxRetries then Exhausted else Pending)
  }

  predicate IsStale(item: Item, cutoff: int) {
    (item.status.Resolved? || item.status.Discarded?) && item.firstFailed < cutoff
  }

  // ---------------------------------------------------------------- the queue

  /**
   * All items ever made, by number; those the queue still lists; the items collected for retry, in
   * order; and the one being retried. The retrier holds on to items that are no longer listed.
   */
  datatype Queue = Queue(
    items: seq<Item>, listed: set<nat>, batch: seq<nat>, current: Option<nat>,
    clock: nat, maxRetries: nat, delay: nat)

  datatype Step =
    | Add(jobId: string, event: FailedEvent)
    | Collect(batch: seq<nat>)
    | Begin
    | End(ok: bool)
    | Discard(n: nat)
    | Cleanup(cutoff: int)
    | Pass(time: nat)

  predicate LiveWith(q: Queue, n: nat, key: string) {
    n in q.listed && n < |q.items| && IsLive(q.items[n]) && ItemKey(q.items[n]) == key
  }

  /** The event's key is that of an item waiting for or undergoing retry: adding it is refused. */
  predicate IsDuplicate(q: Queue, key: string) {
    exists n | n in q.listed :: LiveWith(q, n, key)
  }

  predicate NoRepeats(ns: seq<nat>) {
    forall i, k | 0 <= i < k < |ns| :: ns[i] != ns[k]
  }

  ghost predicate Enabled(q: Queue, step: Step) {
    match step
    case Collect(batch) =>
      && q.current.None? && q.batch == [] && NoRepeats(batch)
      && forall n: nat :: n in batch <==> n in q.listed && n < |q.items| && Eligible(q.items[n], q.delay, q.clock)
    case Begin => q.current.None? && q.batch != [] && q.batch[0] < |q.items|
    case End(_) => q.current.Some? && q.current.value < |q.items|
    case Discard(n) => n in q.listed && n < |q.items|
    case _ => true
  }

  function Next(q: Queue, step: Step): Queue
    requires Enabled(q, step)
  {
    match step
    case Add(jobId, e) =>
      if IsDuplicate(q, DedupeKey(jobId, e)) then q
      else q.(items := q.items + [NewItem(jobId, e, q.maxRetries, q.clock)], listed := q.listed + {|q.items|})
    case Collect(batch) => q.(batch := batch)
    case Begin =>
      var n := q.batch[0];
      q.(items := q.items[n := Begun(q.items[n], q.clock)], batch := q.batch[1..], current := Some(n))
    case End(ok) =>
      var n := q.current.value;
      q.(items := q.items[n := Ended(q.items[n], ok)], current := None)
    case Discard(n) => q.(items := q.items[n := q.items[n].(status := Discarded)])
    case Cleanup(cutoff) => q.(listed := set n | n in q.listed && !(n < |q.items| && IsStale(q.items[n], cutoff)))
    case Pass(time) => q.(clock := q.clock + time)
  }

  ghost predicate Leads(q: Queue, steps: seq<Step>, t: Queue)
    decreases |steps|
  {
    if steps == [] then q == t else Enabled(q, steps[0]) && Leads(Next(q, steps[0]), steps[1..], t)
  }

  function Fresh(maxRetries: nat, delay: nat): Queue {
    Queue([], {}, [], None, 0, maxRetries, delay)
  }

  // ---------------------------------------------------------------- bounded retries, growing delays

  /** Each attempt starts at least twice as long after the one before as that did after its own. */
  predicate SpacedOut(starts: seq<nat>, delay: nat) {
    forall i | 0 < i < |starts| :: starts[i] - starts[i - 1] >= delay * Pow2(i)
  }

  /** What holds of an item; `running` while its callback runs. */
  predicate ItemHolds(item: Item, running: bool, maxRetries: nat, delay: nat, clock: nat) {
    && item.maxRetries == maxRetries
    && item.retryCount <= maxRetries
    && (item.status.Pending? || running ==> item.retryCount < maxRetries)
    && (item.status.Retrying? ==> running)
    && |item.starts| == item.retryCount + (if running then 1 else 0)
    && (if item.starts == [] then item.lastRetried.None?
        else item.lastRetried == Some(item.starts[|item.starts| - 1]) && item.lastRetried.value <= clock)
    && SpacedOut(item.starts, delay)
  }

  /** An item that has been collected may be retried now, even if it has been discarded since. */
  predicate Due(q: Queue, n: nat) {
    n < |q.items| && q.items[n].retryCount < q.maxRetries && ShouldRetry(q.items[n], q.delay, q.clock)
  }

  predicate RetriesHold(q: Queue) {
    && q.maxRetries >= 1
    && (forall n | 0 <= n < |q.items| :: ItemHolds(q.items[n], q.current == Some(n), q.maxRetries, q.delay, q.clock))
    && NoRepeats(q.batch)
    && (forall n <- q.batch :: Due(q, n) && q.current != Some(n))
    && (q.current.Some? ==> q.current.value < |q.items|)
  }

  lemma BegunHolds(item: Item, maxRetries: nat, delay: nat, clock: nat)
    requires ItemHolds(item, false, maxRetries, delay, clock) && item.retryCount < maxRetries && ShouldRetry(item, delay, clock)
    ensures ItemHolds(Begun(item, clock), true, maxRetries, delay, clock)
  {
  }

  lemma EndedHolds(item: Item, ok: bool, maxRetries: nat, delay: nat, clock: nat)
    requires ItemHolds(item, true, maxRetries, delay, clock)
    ensures ItemHolds(Ended(item, ok), false, maxRetries, delay, clock)
  {
  }

  lemma HoldsLimit(item: Item, running: bool, maxRetries: nat, delay: nat, clock: nat)
    requires ItemHolds(item, running, maxRetries, delay, clock)
    ensures item.maxRetries == maxRetries
  {
  }

  lemma LaterHolds(item: Item, running: bool, maxRetries: nat, delay: nat, clock: nat, time: nat)
    requires ItemHolds(item, running, maxRetries, delay, clock)
    ensures ItemHolds(item, running, maxRetries, delay, clock + time)
    ensures ShouldRetry(item, delay, clock) ==> ShouldRetry(item, delay, clock + time)
  {
  }

  lemma StepKeepsRetries(q: Queue, step: Step)
    requires RetriesHold(q) && Enabled(q, step)
    ensures RetriesHold(Next(q, step))
  {
    hide ItemHolds, ShouldRetry, IsDuplicate, DedupeKey;
    match step
    case Add(jobId, e) => NewHolds(jobId, e, q.maxRetries, q.delay, q.clock);
    case Collect(batch) =>
      forall n <- batch ensures Due(Next(q, step), n) {
        assert ItemHolds(q.items[n], q.current == Some(n), q.maxRetries, q.delay, q.clock);
        HoldsLimit(q.items[n], q.current == Some(n), q.maxRetries, q.delay, q.clock);
      }
    case Begin => BeginKeepsRetries(q);
    case End(ok) => EndedHolds(q.items[q.current.value], ok, q.maxRetries, q.delay, q.clock);
    case Discard(n) => DiscardedHolds(q.items[n], q.current == Some(n), q.maxRetries, q.delay, q.clock);
    case Pass(time) =>
      forall n | 0 <= n < |q.items|
        ensures ItemHolds(q.items[n], q.current == Some(n), q.maxRetries, q.delay, q.clock + time)
        ensures ShouldRetry(q.items[n], q.delay, q.clock) ==> ShouldRetry(q.items[n], q.delay, q.clock + time)
      {
        LaterHolds(q.items[n], q.current == Some(n), q.maxRetries, q.delay, q.clock, time);
      }
    case _ =>
  }

  lemma BeginKeepsRetries(q: Queue)
    requires RetriesHold(q) && Enabled(q, Begin)
    ensures RetriesHold(Next(q, Begin))
  {
    hide ItemHolds, ShouldRetry;
    var t, first := Next(q, Begin), q.batch[0];
    assert first in q.batch && Due(q, first);
    BegunHolds(q.items[first], q.maxRetries, q.delay, q.clock);
    forall i | 0 <= i < |t.batch| ensures Due(t, t.batch[i]) && t.batch[i] != first {
      assert t.batch[i] == q.batch[i + 1] && q.batch[i + 1] in q.batch;
    }
  }

  lemma NewHolds(jobId: string, e: FailedEvent, maxRetries: nat, delay: nat, clock: nat)
    requires maxRetries >= 1
    ensures ItemHolds(NewItem(jobId, e, maxRetries, clock), false, maxRetries, delay, clock)
  {
  }

  lemma DiscardedHolds(item: Item, running: bool, maxRetries: nat, delay: nat, clock: nat)
    requires ItemHolds(item, running, maxRetries, delay, clock)
    ensures ItemHolds(item.(status := Discarded), running, maxRetries, delay, clock)
    ensures forall now: nat :: ShouldRetry(item.(status := Discarded), delay, now) <==> ShouldRetry(item, delay, now)
  {
  }

  lemma {:induction false} RunKeepsRetries(q: Queue, steps: seq<Step>, t: Queue)
    requires RetriesHold(q) && Leads(q, steps, t)
    ensures RetriesHold(t)
    decreases |steps|
  {
    hide RetriesHold, Next, Enabled;
    if steps != [] {
      StepKeepsRetries(q, steps[0]);
      RunKeepsRetries(Next(q, steps[0]), steps[1..], t);
    }
  }

  lemma {:induction false} ParametersStay(q: Queue, steps: seq<Step>, t: Queue)
    requires Leads(q, steps, t)
    ensures t.maxRetries == q.maxRetries && t.delay == q.delay
    decreases |steps|
  {
    hide Enabled;
    if steps != [] {
      ParametersStay(Next(q, steps[0]), steps[1..], t);
    }
  }

  /**
   * In every run, discards included: no item is retried more than `maxRetries` times, a waiting
   * item has retries left, and the callback for attempt i starts at least delay * 2^i after the
   * one for attempt i - 1.
   */
  lemma RetriesAreBounded(maxRetries: nat, delay: nat, steps: seq<Step>, t: Queue, n: nat)
    requires maxRetries >= 1 && Leads(Fresh(maxRetries, delay), steps, t) && n < |t.items|
    ensures var item := t.items[n];
            && item.retryCount <= maxRetries && |item.starts| <= maxRetries
            && (item.status.Pending? ==> item.retryCount < maxRetries)
            && forall i | 0 < i < |item.starts| :: item.starts[i] - item.starts[i - 1] >= delay * Pow2(i)
  {
    RunKeepsRetries(Fresh(maxRetries, delay), steps, t);
    ParametersStay(Fresh(maxRetries, delay), steps, t);
    hide Leads;
    assert ItemHolds(t.items[n], t.current == Some(n), t.maxRetries, t.delay, t.clock);
  }

  // ---------------------------------------------------------------- retrying comes to an end

  function Left(item: Item): nat {
    if item.retryCount <= item.maxRetries then item.maxRetries - item.retryCount else 0
  }

  /** The retries that are left in all items together. */
  function Remaining(items: seq<Item>): nat {
    if items == [] then 0 else Remaining(items[..|items| - 1]) + Left(items[|items| - 1])
  }

  lemma {:induction false} RemainingChanged(items: seq<Item>, n: nat, item: Item)
    requires n < |items|
    ensures Remaining(items[n := item]) - Remaining(items) == Left(item) - Left(items[n])
    decreases |items|
  {
    hide Left;
    var last := |items| - 1;
    if n == last {
      assert items[n := item][..last] == items[..last];
    } else {
      assert items[n := item][..last] == items[..last][n := item];
      RemainingChanged(items[..last], n, item);
    }
  }

  /** How often the retry callback has returned. */
  function Ends(steps: seq<Step>): nat {
    if steps == [] then 0 else (if steps[0].End? then 1 else 0) + Ends(steps[1..])
  }

  /** A step either adds an item with all its retries left, or takes one retry away if a callback returned. */
  lemma StepUsesRetries(q: Queue, step: Step)
    requires RetriesHold(q) && Enabled(q, step)
    ensures var t := Next(q, step);
            if |t.items| == |q.items| then Remaining(t.items) + (if step.End? then 1 else 0) == Remaining(q.items)
            else !step.End? && |t.items| == |q.items| + 1 && Remaining(t.items) == Remaining(q.items) + q.maxRetries
  {
    hide IsDuplicate, DedupeKey, ShouldRetry, ItemHolds;
    match step
    case Add(jobId, e) =>
      var t := Next(q, step);
      if t != q {
        assert t.items[..|q.items|] == q.items;
      }
    case Begin =>
      hide RetriesHold, Remaining;
      RemainingChanged(q.items, q.batch[0], Begun(q.items[q.batch[0]], q.clock));
    case End(ok) =>
      var n := q.current.value;
      EndTakesOne(q.items[n], ok, q.maxRetries, q.delay, q.clock);
      hide RetriesHold, Remaining, Left;
      RemainingChanged(q.items, n, Ended(q.items[n], ok));
    case Discard(n) =>
      hide RetriesHold, Remaining;
      RemainingChanged(q.items, n, q.items[n].(status := Discarded));
    case _ =>
  }

  lemma EndTakesOne(item: Item, ok: bool, maxRetries: nat, delay: nat, clock: nat)
    requires ItemHolds(item, true, maxRetries, delay, clock)
    ensures Left(item) == Left(Ended(item, ok)) + 1
  {
  }

  lemma {:induction false} RunUsesRetries(q: Queue, steps: seq<Step>, t: Queue)
    requires RetriesHold(q) && Leads(q, steps, t)
    ensures Ends(steps) + Remaining(t.items) == Remaining(q.items) + q.maxRetries * (|t.items| - |q.items|)
    decreases |steps|
  {
    hide RetriesHold, Next, Enabled, Remaining;
    if steps != [] {
      var m := Next(q, steps[0]);
      StepKeepsRetries(q, steps[0]);
      StepUsesRetries(q, steps[0]);
      ParametersStay(q, [steps[0]], m) by {
        assert [steps[0]][1..] == [];
      }
      RunUsesRetries(m, steps[1..], t);
      OneMore(q.maxRetries, |t.items| - |m.items|);
    }
  }

  lemma OneMore(a: int, b: int)
    ensures a + a * b == a * (1 + b)
  {
  }

  /** Every return of the callback uses up one of the retries that the stored items came with: retrying ends. */
  lemma RetryingEnds(maxRetries: nat, delay: nat, steps: seq<Step>, t: Queue)
    requires maxRetries >= 1 && Leads(Fresh(maxRetries, delay), steps, t)
    ensures Ends(steps) + Remaining(t.items) == maxRetries * |t.items|
  {
    RunUsesRetries(Fresh(maxRetries, delay), steps, t);
  }

  // ---------------------------------------------------------------- one live item per key

  predicate Twins(q: Queue, a: nat, b: nat) {
    a != b && a < |q.items| && LiveWith(q, b, ItemKey(q.items[a])) && LiveWith(q, a, ItemKey(q.items[a]))
  }

  predicate Unique(q: Queue) {
    forall a, b | a in q.listed && b in q.listed :: !Twins(q, a, b)
  }

  /** What the retrier holds is live, if it is still listed. */
  predicate HeldAreLive(q: Queue) {
    && (forall n <- q.listed :: n < |q.items|)
    && (forall n <- q.batch :: n in q.listed ==> IsLive(q.items[n]))
    && (q.current.Some? && q.current.value in q.listed ==> IsLive(q.items[q.current.value]))
    && NoRepeats(q.batch) && (q.current.Some? ==> q.current.value !in q.batch)
  }

  /** No item is discarded between being collected and the end of that retry. */
  predicate Careful(q: Queue, step: Step) {
    step.Discard? ==> step.n !in q.batch && q.current != Some(step.n)
  }

  /** A changed item that was live or is not leaves no new twins behind. */
  lemma ChangedUnique(q: Queue, t: Queue, n: nat, item: Item)
    requires t.listed == q.listed && n < |q.items| && t.items == q.items[n := item]
    requires Unique(q) && n < |q.items| && ItemKey(item) == ItemKey(q.items[n])
    requires n in q.listed && IsLive(item) ==> IsLive(q.items[n])
    ensures Unique(t)
  {
    hide ItemKey;
    forall a, b | a in t.listed && b in t.listed ensures !Twins(t, a, b) {
      assert !Twins(q, a, b);
    }
  }

  predicate HeldInRange(q: Queue) {
    forall n <- q.listed :: n < |q.items|
  }

  lemma AddStaysUnique(q: Queue, jobId: string, e: FailedEvent)
    requires Unique(q) && HeldInRange(q)
    ensures Unique(Next(q, Add(jobId, e))) && HeldInRange(Next(q, Add(jobId, e)))
  {
    hide DedupeKey;
    var t := Next(q, Add(jobId, e));
    if t != q {
      assert forall n | n in q.listed :: !LiveWith(q, n, DedupeKey(jobId, e));
      forall a, b | a in t.listed && b in t.listed ensures !Twins(t, a, b) {
        if a in q.listed && b in q.listed {
          assert !Twins(q, a, b);
        }
      }
    }
  }

  lemma StepKeepsUnique(q: Queue, step: Step)
    requires Unique(q) && HeldAreLive(q) && Enabled(q, step) && Careful(q, step)
    ensures Unique(Next(q, step)) && HeldAreLive(Next(q, step))
  {
    hide Unique, ShouldRetry, DedupeKey, IsDuplicate;
    match step
    case Add(jobId, e) => AddStaysUnique(q, jobId, e);
    case Begin => ChangedUnique(q, Next(q, step), q.batch[0], Begun(q.items[q.batch[0]], q.clock));
    case End(ok) => ChangedUnique(q, Next(q, step), q.current.value, Ended(q.items[q.current.value], ok));
    case Discard(n) => ChangedUnique(q, Next(q, step), n, q.items[n].(status := Discarded));
    case Cleanup(_) => FewerUnique(q, Next(q, step));
    case Pass(_) => FewerUnique(q, Next(q, step));
    case Collect(_) => FewerUnique(q, Next(q, step));
  }

  lemma FewerUnique(q: Queue, t: Queue)
    requires Unique(q) && t.items == q.items && t.listed <= q.listed
    ensures Unique(t)
  {
    hide ItemKey;
    forall a, b | a in t.listed && b in t.listed ensures !Twins(t, a, b) {
      assert !Twins(q, a, b);
    }
  }

  ghost predicate CarefulRun(q: Queue, steps: seq<Step>)
    decreases |steps|
  {
    steps != [] ==> Enabled(q, steps[0]) && Careful(q, steps[0]) && CarefulRun(Next(q, steps[0]), steps[1..])
  }

  lemma {:induction false} RunKeepsUnique(q: Queue, steps: seq<Step>, t: Queue)
    requires Unique(q) && HeldAreLive(q) && Leads(q, steps, t) && CarefulRun(q, steps)
    ensures Unique(t)
    decreases |steps|
  {
    hide Unique, HeldAreLive, Next, Enabled, Careful;
    if steps != [] {
      StepKeepsUnique(q, steps[0]);
      RunKeepsUnique(Next(q, steps[0]), steps[1..], t);
    }
  }

  /** In every run without such discards, no two listed items that wait for or undergo retry share a key. */
  lemma LiveKeysAreUnique(maxRetries: nat, delay: nat, steps: seq<Step>, t: Queue, a: nat, b: nat)
    requires Leads(Fresh(maxRetries, delay), steps, t) && CarefulRun(Fresh(maxRetries, delay), steps)
    requires a in t.listed && b in t.listed && a < |t.items| && b < |t.items| && a != b
    requires IsLive(t.items[a]) && IsLive(t.items[b])
    ensures ItemKey(t.items[a]) != ItemKey(t.items[b])
  {
    RunKeepsUnique(Fresh(maxRetries, delay), steps, t);
    hide Leads, CarefulRun, ItemKey;
    assert !Twins(t, a, b);
  }

  /** Another listed item is live under this one's key. */
  predicate HasTwin(q: Queue, n: nat)
    requires n < |q.items|
  {
    exists m :: m in q.listed && m != n && LiveWith(q, m, ItemKey(q.items[n]))
  }

  /** A changed item leaves live keys unique exactly when it is not one that comes to life beside a twin. */
  lemma ChangedUniqueExactly(q: Queue, t: Queue, n: nat, item: Item)
    requires t.listed == q.listed && n < |q.items| && t.items == q.items[n := item]
    requires Unique(q) && ItemKey(item) == ItemKey(q.items[n])
    ensures Unique(t) <==> !(n in q.listed && IsLive(item) && !IsLive(q.items[n]) && HasTwin(q, n))
  {
    if n in q.listed && IsLive(item) && !IsLive(q.items[n]) {
      hide ItemKey;
      if m :| m in q.listed && m != n && LiveWith(q, m, ItemKey(q.items[n])) {
        assert Twins(t, n, m);
      } else {
        forall a, b | a in t.listed && b in t.listed ensures !Twins(t, a, b) {
          assert !Twins(q, a, b);
          assert !LiveWith(q, a, ItemKey(q.items[n])) || a == n;
          assert !LiveWith(q, b, ItemKey(q.items[n])) || b == n;
        }
      }
    } else {
      ChangedUnique(q, t, n, item);
    }
  }

  /** Starting a retry keeps live keys unique exactly when the item is unlisted, still live, or nothing else has its key. */
  lemma BeginKeepsUniqueExactly(q: Queue)
    requires Unique(q) && Enabled(q, Begin)
    ensures var n := q.batch[0];
            Unique(Next(q, Begin)) <==> n !in q.listed || IsLive(q.items[n]) || !HasTwin(q, n)
  {
    var n := q.batch[0];
    ChangedUniqueExactly(q, Next(q, Begin), n, Begun(q.items[n], q.clock));
  }

  /**
   * The end of a retry keeps live keys unique exactly when it succeeded or was the last, or the
   * item is unlisted, has not been discarded while its callback ran, or nothing else has its key.
   */
  lemma EndKeepsUniqueExactly(q: Queue, ok: bool)
    requires Unique(q) && Enabled(q, End(ok))
    ensures var n := q.current.value; var item := q.items[n];
            Unique(Next(q, End(ok))) <==>
            ok || item.retryCount + 1 >= item.maxRetries || n !in q.listed || IsLive(item) || !HasTwin(q, n)
  {
    var n := q.current.value;
    ChangedUniqueExactly(q, Next(q, End(ok)), n, Ended(q.items[n], ok));
  }

  /** The step brings an item to life that had been discarded, while another is live under its key. */
  predicate Revives(q: Queue, step: Step)
    requires step.Begin? ==> q.batch != [] && q.batch[0] < |q.items|
    requires step.End? ==> q.current.Some? && q.current.value < |q.items|
  {
    match step
    case Begin => var n := q.batch[0]; n in q.listed && !IsLive(q.items[n]) && HasTwin(q, n)
    case End(ok) =>
      var n := q.current.value;
      !ok && q.items[n].retryCount + 1 < q.items[n].maxRetries && n in q.listed && !IsLive(q.items[n]) && HasTwin(q, n)
    case _ => false
  }

  /** Of all steps, only the revival of a discarded item beside a twin breaks the uniqueness of live keys. */
  lemma StepKeepsUniqueExactly(q: Queue, step: Step)
    requires Unique(q) && HeldInRange(q) && Enabled(q, step)
    ensures Unique(Next(q, step)) <==> !Revives(q, step)
    ensures HeldInRange(Next(q, step))
  {
    hide Unique, ShouldRetry, DedupeKey, HasTwin;
    match step
    case Add(jobId, e) => AddStaysUnique(q, jobId, e);
    case Begin => BeginKeepsUniqueExactly(q);
    case End(ok) => EndKeepsUniqueExactly(q, ok);
    case Discard(n) => ChangedUnique(q, Next(q, step), n, q.items[n].(status := Discarded));
    case Cleanup(_) => FewerUnique(q, Next(q, step));
    case Pass(_) => FewerUnique(q, Next(q, step));
    case Collect(_) => FewerUnique(q, Next(q, step));
  }

  /** No step of the run revives a discarded item beside a twin. */
  ghost predicate RevivesNone(q: Queue, steps: seq<Step>)
    decreases |steps|
  {
    steps != [] ==> Enabled(q, steps[0]) && !Revives(q, steps[0]) && RevivesNone(Next(q, steps[0]), steps[1..])
  }

  ghost predicate UniqueThroughout(q: Queue, steps: seq<Step>)
    decreases |steps|
  {
    Unique(q) && (steps != [] ==> Enabled(q, steps[0]) && UniqueThroughout(Next(q, steps[0]), steps[1..]))
  }

  /** Live keys are unique all through a run exactly when no step of it revives a discarded item beside a twin. */
  lemma {:induction false} RunUniqueExactly(q: Queue, steps: seq<Step>, t: Queue)
    requires Unique(q) && HeldInRange(q) && Leads(q, steps, t)
    ensures UniqueThroughout(q, steps) <==> RevivesNone(q, steps)
    decreases |steps|
  {
    hide Unique, HeldInRange, Next, Enabled, Revives;
    if steps != [] {
      StepKeepsUniqueExactly(q, steps[0]);
      var m := Next(q, steps[0]);
      if Unique(m) {
        RunUniqueExactly(m, steps[1..], t);
      } else {
        assert !UniqueThroughout(m, steps[1..]);
      }
    }
  }

  lemma LiveKeysAreUniqueExactly(maxRetries: nat, delay: nat, steps: seq<Step>, t: Queue)
    requires Leads(Fresh(maxRetries, delay), steps, t)
    ensures UniqueThroughout(Fresh(maxRetries, delay), steps) <==> RevivesNone(Fresh(maxRetries, delay), steps)
  {
    RunUniqueExactly(Fresh(maxRetries, delay), steps, t);
  }

  // ---------------------------------------------------------------- what goes wrong

  const SAME_ROW := FailedEvent("7", "", 0)

  function ItemIn(status: Status, at: Option<nat>): Item {
    Item("job", SAME_ROW, status, 0, 3, 0, at, if at.Some? then [at.value] else [])
  }

  lemma {:induction false} Onward(q: Queue, steps: seq<Step>, m: Queue, step: Step, t: Queue)
    requires Leads(q, steps, m) && Enabled(m, step) && t == Next(m, step)
    ensures Leads(q, steps + [step], t)
    decreases |steps|
  {
    hide Enabled, Next;
    var all := steps + [step];
    if steps == [] {
      assert all[0] == step && all[1..] == [];
    } else {
      assert all[0] == steps[0] && all[1..] == steps[1..] + [step];
      Onward(Next(q, steps[0]), steps[1..], m, step, t);
    }
  }

  function OneItem(item: Item, batch: seq<nat>): Queue {
    Queue([item], {0}, batch, None, 0, 3, 60)
  }

  lemma AddedOnce() returns (steps: seq<Step>)
    ensures Leads(Fresh(3, 60), steps, OneItem(ItemIn(Discarded, None), [0]))
  {
    hide DedupeKey;
    steps := [];
    var start, added, taken := Fresh(3, 60), OneItem(ItemIn(Pending, None), []), OneItem(ItemIn(Pending, None), [0]);
    assert Next(start, Add("job", SAME_ROW)) == added;
    Onward(start, steps, start, Add("job", SAME_ROW), added);
    steps := steps + [Add("job", SAME_ROW)];
    hide Leads;
    Onward(start, steps, added, Collect([0]), taken);
    steps := steps + [Collect([0])];
    Onward(start, steps, taken, Discard(0), OneItem(ItemIn(Discarded, None), [0]));
    steps := steps + [Discard(0)];
  }

  /**
   * An item that is discarded while it waits in the retrier's list comes back to life when its
   * turn comes; if the same event has failed again meanwhile, it is then live twice.
   */
  lemma DiscardedComesBack() returns (steps: seq<Step>, t: Queue)
    ensures Leads(Fresh(3, 60), steps, t) && 0 in t.listed && 1 in t.listed && Twins(t, 0, 1)
  {
    steps := AddedOnce();
    hide DedupeKey, Leads;
    var gone := OneItem(ItemIn(Discarded, None), [0]);
    var again := gone.(items := gone.items + [ItemIn(Pending, None)], listed := {0, 1});
    assert Next(gone, Add("job", SAME_ROW)) == again;
    Onward(Fresh(3, 60), steps, gone, Add("job", SAME_ROW), again);
    t := Next(again, Begin);
    Onward(Fresh(3, 60), steps + [Add("job", SAME_ROW)], again, Begin, t);
    steps := steps + [Add("job", SAME_ROW)] + [Begin];
    assert Begun(ItemIn(Discarded, None), 0) == ItemIn(Retrying, Some(0)) by {
      var none: seq<nat> := [];
      assert none + [0] == [0];
    }
    assert t.items[0] == ItemIn(Retrying, Some(0)) && t.items[1] == ItemIn(Pending, None);
  }

  /** A queue of one item whose callback is running. */
  function Running(item: Item): Queue {
    Queue([item], {0}, [], Some(0), 0, 3, 60)
  }

  lemma RetryRunning() returns (steps: seq<Step>)
    ensures Leads(Fresh(3, 60), steps, Running(ItemIn(Discarded, Some(0))))
  {
    hide DedupeKey;
    steps := [];
    var start, added, taken := Fresh(3, 60), OneItem(ItemIn(Pending, None), []), OneItem(ItemIn(Pending, None), [0]);
    assert Next(start, Add("job", SAME_ROW)) == added;
    Onward(start, steps, start, Add("job", SAME_ROW), added);
    steps := steps + [Add("job", SAME_ROW)];
    hide Leads;
    Onward(start, steps, added, Collect([0]), taken);
    steps := steps + [Collect([0])];
    assert Begun(ItemIn(Pending, None), 0) == ItemIn(Retrying, Some(0)) by {
      var none: seq<nat> := [];
      assert none + [0] == [0];
    }
    assert Next(taken, Begin) == Running(ItemIn(Retrying, Some(0)));
    Onward(start, steps, taken, Begin, Running(ItemIn(Retrying, Some(0))));
    steps := steps + [Begin];
    Onward(start, steps, Running(ItemIn(Retrying, Some(0))), Discard(0), Running(ItemIn(Discarded, Some(0))));
    steps := steps + [Discard(0)];
  }

  /**
   * An item that is discarded while its callback runs waits for the next retry if the callback
   * fails; if the same event has failed again meanwhile, it is then live twice.
   */
  lemma FailedRetryComesBack() returns (steps: seq<Step>, t: Queue)
    ensures Leads(Fresh(3, 60), steps, t) && 0 in t.listed && 1 in t.listed && Twins(t, 0, 1)
    ensures t.batch == [] && t.current.None?
  {
    steps := RetryRunning();
    hide DedupeKey, Leads;
    var gone := Running(ItemIn(Discarded, Some(0)));
    var again := gone.(items := gone.items + [ItemIn(Pending, None)], listed := {0, 1});
    assert Next(gone, Add("job", SAME_ROW)) == again;
    Onward(Fresh(3, 60), steps, gone, Add("job", SAME_ROW), again);
    t := Next(again, End(false));
    Onward(Fresh(3, 60), steps + [Add("job", SAME_ROW)], again, End(false), t);
    steps := steps + [Add("job", SAME_ROW)] + [End(false)];
    assert t.items[0] == Ended(ItemIn(Discarded, Some(0)), false) && t.items[1] == ItemIn(Pending, None);
  }

  // ---------------------------------------------------------------- which events are taken for the same

  /** Two places to part one text at: the later part before and the earlier part behind hold the separator too. */
  lemma PartedTwice(a: string, b: string, c: string, d: string, bar: char)
    requires a + [bar] + b == c + [bar] + d && |a| < |c|
    ensures bar in c && bar in b
  {
    var s, t := a + [bar] + b, c + [bar] + d;
    assert c[|a|] == t[|a|] == s[|a|] == bar;
    assert b[|c| - |a| - 1] == s[|c|] == t[|c|] == bar;
  }

  /** A separator can be found from either side on which it does not occur again. */
  lemma SplitOnce(a: string, b: string, c: string, d: string, bar: char)
    requires (bar !in a && bar !in c) || (bar !in b && bar !in d)
    ensures a + [bar] + b == c + [bar] + d <==> a == c && b == d
  {
    var s, t := a + [bar] + b, c + [bar] + d;
    if s == t {
      if |a| < |c| {
        PartedTwice(a, b, c, d, bar);
      } else if |c| < |a| {
        PartedTwice(c, d, a, b, bar);
      } else {
        assert a == s[..|a|] && c == t[..|c|] && b == s[|a| + 1..] && d == t[|c| + 1..];
      }
    }
  }

  lemma NoColon(n: nat)
    ensures PrintDecimal(n) != "" && ':' !in PrintDecimal(n) && '|' !in PrintDecimal(n)
  {
    PrintedIsRead(0, n);
    forall c | c in PrintDecimal(n) ensures IsDigit(c) {
    }
  }

  /** Position texts agree exactly when there is no position or they name the same one. */
  lemma SamePositionExactly(e: FailedEvent, e': FailedEvent)
    ensures PositionText(e) == PositionText(e')
       <==> e.binlogFile == e'.binlogFile && (e.binlogFile == "" || e.binlogPos == e'.binlogPos)
  {
    NoColon(e.binlogPos);
    NoColon(e'.binlogPos);
    PrintedApart(e.binlogPos, e'.binlogPos);
    SplitOnce(e.binlogFile, PrintDecimal(e.binlogPos), e'.binlogFile, PrintDecimal(e'.binlogPos), ':');
  }

  lemma NoBar(e: FailedEvent)
    requires '|' !in e.binlogFile
    ensures '|' !in PositionText(e)
  {
    NoColon(e.binlogPos);
  }

  /**
   * Two failed events are taken for the same exactly when job, primary key and binlog position
   * agree, as long as binlog files and the ids of different jobs do not hold the separator; primary
   * keys may.
   */
  lemma SameKeyExactly(job: string, e: FailedEvent, job': string, e': FailedEvent)
    requires '|' !in e.binlogFile && '|' !in e'.binlogFile && (job == job' || ('|' !in job && '|' !in job'))
    ensures DedupeKey(job, e) == DedupeKey(job', e')
       <==> && job == job' && e.primaryKey == e'.primaryKey && e.binlogFile == e'.binlogFile
            && (e.binlogFile == "" || e.binlogPos == e'.binlogPos)
  {
    NoBar(e);
    NoBar(e');
    SamePositionExactly(e, e');
    hide PositionText;
    var rest, rest' := e.primaryKey + "|" + PositionText(e), e'.primaryKey + "|" + PositionText(e');
    SplitOnce(e.primaryKey, PositionText(e), e'.primaryKey, PositionText(e'), '|');
    assert DedupeKey(job, e) == job + "|" + rest && DedupeKey(job', e') == job' + "|" + rest';
    if job == job' {
      assert (job + "|" + rest)[|job| + 1..] == rest && (job' + "|" + rest')[|job| + 1..] == rest';
    } else {
      SplitOnce(job, rest, job', rest', '|');
    }
  }

  /** PostgreSQL events carry no binlog position: while one is live, every later change of its row is refused. */
  lemma LaterChangeRefused(q: Queue, n: nat, e: FailedEvent)
    requires n in q.listed && n < |q.items| && IsLive(q.items[n])
    requires q.items[n].event.binlogFile == "" && e.binlogFile == "" && e.primaryKey == q.items[n].event.primaryKey
    ensures Next(q, Add(q.items[n].jobId, e)) == q
  {
    assert DedupeKey(q.items[n].jobId, e) == ItemKey(q.items[n]);
    hide DedupeKey;
    assert LiveWith(q, n, DedupeKey(q.items[n].jobId, e));
  }
}
