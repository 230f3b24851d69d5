/**
 * What an item's status tells of its retries: over every run of the dead-letter queue, an item is
 * resolved if its last callback succeeded and exhausted if all the callbacks it is allowed failed,
 * unless somebody discarded it. So cleaning up removes no event that was neither delivered nor discarded.
 */
module RetryOutcomes {
  import opened Wrappers
  import opened Decimals
  import opened DeadLetters

  // ---------------------------------------------------------------- what the callbacks returned

  /** What the step's callback returned, if it returned for item `n`. */
  function ReturnedBy(q: Queue, step: Step, n: nat): seq<bool> {
    if step.End? && q.current == Some(n) then [step.ok] else []
  }

  /** What the retry callback returned for item `n` along a run, in order. */
  ghost function Returned(q: Queue, steps: seq<Step>, n: nat): seq<bool>
    decreases |steps|
  {
    if steps == [] || !Enabled(q, steps[0]) then []
    else ReturnedBy(q, steps[0], n) + Returned(Next(q, steps[0]), steps[1..], n)
  }

  predicate AllFailed(past: seq<bool>) {
    forall i | 0 <= i < |past| :: !past[i]
  }

  predicate LastSucceeded(past: seq<bool>) {
    past != [] && past[|past| - 1]
  }

  // ---------------------------------------------------------------- what the status tells

  predicate Held(q: Queue, n: nat) {
    n in q.batch || q.current == Some(n)
  }

  /** The status agrees with what the callbacks returned; `held` while the retrier has the item. */
  predicate Tells(item: Item, past: seq<bool>, held: bool) {
    && |past| == item.retryCount
    && (held || item.status.Pending? || item.status.Retrying? || item.status.Exhausted? ==> AllFailed(past))
    && (item.status.Resolved? ==> LastSucceeded(past))
    && (item.status.Exhausted? ==> |past| >= item.maxRetries)
  }

  predicate TellsOf(q: Queue, n: nat, past: seq<bool>) {
    if n < |q.items| then Tells(q.items[n], past, Held(q, n)) else past == []
  }

  lemma EndTells(item: Item, past: seq<bool>, ok: bool)
    requires Tells(item, past, true)
    ensures Tells(Ended(item, ok), past + [ok], false)
  {
  }

  lemma StepTells(q: Queue, step: Step, n: nat, past: seq<bool>)
    requires RetriesHold(q) && Enabled(q, step) && TellsOf(q, n, past)
    ensures TellsOf(Next(q, step), n, past + ReturnedBy(q, step, n))
  {
    hide IsDuplicate, DedupeKey, ShouldRetry, ItemHolds;
    var t := Next(q, step);
    assert past + [] == past;
    match step
    case End(ok) =>
      var m := q.current.value;
      assert m !in q.batch;
      if m == n {
        hide Tells, Ended;
        EndTells(q.items[n], past, ok);
      }
    case Collect(batch) =>
    case _ =>
  }

  lemma {:induction false} RunTells(q: Queue, steps: seq<Step>, t: Queue, n: nat, past: seq<bool>)
    requires RetriesHold(q) && Leads(q, steps, t) && TellsOf(q, n, past)
    ensures RetriesHold(t) && TellsOf(t, n, past + Returned(q, steps, n))
    decreases |steps|
  {
    hide RetriesHold, Next, Enabled, TellsOf, ReturnedBy;
    if steps == [] {
      assert past + [] == past;
    } else {
      var m, now := Next(q, steps[0]), ReturnedBy(q, steps[0], n);
      StepKeepsRetries(q, steps[0]);
      StepTells(q, steps[0], n, past);
      RunTells(m, steps[1..], t, n, past + now);
      assert past + Returned(q, steps, n) == past + now + Returned(m, steps[1..], n);
    }
  }

  lemma ItemTells(item: Item, past: seq<bool>, running: bool, held: bool, maxRetries: nat, delay: nat, clock: nat)
    requires ItemHolds(item, running, maxRetries, delay, clock) && Tells(item, past, held) && !item.status.Discarded?
    ensures item.status.Resolved? <==> LastSucceeded(past)
    ensures item.status.Exhausted? <==> |past| == maxRetries && AllFailed(past)
  {
  }

  /**
   * In every run, an item that is not discarded is resolved exactly when the last callback for it
   * succeeded, and exhausted exactly when as many callbacks as it is allowed returned and all failed.
   */
  lemma StatusTells(maxRetries: nat, delay: nat, steps: seq<Step>, t: Queue, n: nat)
    requires maxRetries >= 1 && Leads(Fresh(maxRetries, delay), steps, t)
    requires n < |t.items| && !t.items[n].status.Discarded?
    ensures var item, past := t.items[n], Returned(Fresh(maxRetries, delay), steps, n);
            && (item.status.Resolved? <==> past != [] && past[|past| - 1])
            && (item.status.Exhausted? <==> |past| == maxRetries && forall i | 0 <= i < |past| :: !past[i])
            && |past| == item.retryCount
  {
    var q := Fresh(maxRetries, delay);
    RunTells(q, steps, t, n, []);
    ParametersStay(q, steps, t);
    hide Leads, Tells;
    var past := Returned(q, steps, n);
    assert [] + past == past;
    assert ItemHolds(t.items[n], t.current == Some(n), t.maxRetries, t.delay, t.clock);
    hide ItemHolds;
    ItemTells(t.items[n], past, t.current == Some(n), Held(t, n), maxRetries, delay, t.clock);
    assert |past| == t.items[n].retryCount by {
      TellsCount(t.items[n], past, Held(t, n));
    }
  }

  lemma TellsCount(item: Item, past: seq<bool>, held: bool)
    requires Tells(item, past, held)
    ensures |past| == item.retryCount
  {
  }

  /**
   * Cleaning up, after any run, takes exactly the items that failed first before the cutoff and
   * have been discarded or delivered: none that was not discarded and whose callbacks all failed.
   */
  lemma CleanupSpares(maxRetries: nat, delay: nat, steps: seq<Step>, t: Queue, n: nat, cutoff: int)
    requires maxRetries >= 1 && Leads(Fresh(maxRetries, delay), steps, t)
    requires n < |t.items| && n in t.listed
    ensures var item, past := t.items[n], Returned(Fresh(maxRetries, delay), steps, n);
            n !in Next(t, Cleanup(cutoff)).listed
            <==> item.firstFailed < cutoff && (item.status.Discarded? || (past != [] && past[|past| - 1]))
  {
    hide Leads;
    if !t.items[n].status.Discarded? {
      StatusTells(maxRetries, delay, steps, t, n);
    }
  }

  // ---------------------------------------------------------------- storing and collecting

  /**
   * A failed event is refused exactly when one of the same job, row and position waits for or
   * undergoes retry; otherwise it is stored as it is, waiting for its first retry.
   */
  lemma AddStoresExactly(q: Queue, jobId: string, e: FailedEvent)
    ensures var t, key := Next(q, Add(jobId, e)), DedupeKey(jobId, e);
            if exists n :: n in q.listed && n < |q.items| && q.items[n].status in {Pending, Retrying} && ItemKey(q.items[n]) == key then t == q
            else
              && t.items == q.items + [Item(jobId, e, Pending, 0, q.maxRetries, q.clock, None, [])]
              && t == q.(items := t.items, listed := q.listed + {|q.items|})
  {
    hide DedupeKey;
    var key := DedupeKey(jobId, e);
    if n :| n in q.listed && n < |q.items| && q.items[n].status in {Pending, Retrying} && ItemKey(q.items[n]) == key {
      assert LiveWith(q, n, key);
    }
  }

  /**
   * In every run, the retrier collects exactly the listed items that wait, have retries left, and
   * either have not been retried or were last retried at least delay * 2^retries ago.
   */
  lemma CollectedExactly(maxRetries: nat, delay: nat, steps: seq<Step>, t: Queue, n: nat, batch: seq<nat>)
    requires maxRetries >= 1 && Leads(Fresh(maxRetries, delay), steps, t) && Enabled(t, Collect(batch))
    requires n < |t.items| && n in t.listed
    ensures var item := t.items[n];
            n in batch
            <==> item.status.Pending? && (item.starts == [] || t.clock - item.starts[|item.starts| - 1] >= delay * Pow2(|item.starts|))
  {
    RunKeepsRetries(Fresh(maxRetries, delay), steps, t);
    ParametersStay(Fresh(maxRetries, delay), steps, t);
    hide Leads;
    assert ItemHolds(t.items[n], t.current == Some(n), t.maxRetries, t.delay, t.clock);
  }

  lemma {:induction false} PowersMultiply(a: nat, b: nat)
    ensures Pow2(a + b) == Pow2(a) * Pow2(b) && Pow2(1) == 2
  {
    if a > 0 {
      PowersMultiply(a - 1, b);
      assert Pow2(a + b) == 2 * (Pow2(a - 1) * Pow2(b));
    }
  }

  /** A waiting item is never left behind: once its delay has passed, the next collection takes it. */
  lemma DueInTime(q: Queue, n: nat, time: nat, batch: seq<nat>)
    requires RetriesHold(q) && n in q.listed && n < |q.items| && q.items[n].status.Pending?
    requires time >= q.delay * Pow2(q.items[n].retryCount) && Enabled(Next(q, Pass(time)), Collect(batch))
    ensures n in batch
  {
    assert ItemHolds(q.items[n], q.current == Some(n), q.maxRetries, q.delay, q.clock);
  }

  // ---------------------------------------------------------------- discarding

  predicate IsGone(q: Queue, n: nat) {
    n < |q.items| && q.items[n].status == Discarded && !Held(q, n)
  }

  lemma StepLeavesGone(q: Queue, step: Step, n: nat)
    requires RetriesHold(q) && Enabled(q, step) && IsGone(q, n)
    ensures IsGone(Next(q, step), n) && ReturnedBy(q, step, n) == []
  {
    hide IsDuplicate, DedupeKey, ShouldRetry, ItemHolds;
  }

  lemma {:induction false} RunLeavesGone(q: Queue, steps: seq<Step>, t: Queue, n: nat)
    requires RetriesHold(q) && Leads(q, steps, t) && IsGone(q, n)
    ensures IsGone(t, n) && Returned(q, steps, n) == []
    decreases |steps|
  {
    hide RetriesHold, Next, Enabled, IsGone, ReturnedBy;
    if steps != [] {
      StepKeepsRetries(q, steps[0]);
      StepLeavesGone(q, steps[0], n);
      RunLeavesGone(Next(q, steps[0]), steps[1..], t, n);
    }
  }

  /** An item discarded while the retrier does not have it stays discarded, and its callback is never called again. */
  lemma DiscardedForGood(q: Queue, n: nat, steps: seq<Step>, t: Queue)
    requires RetriesHold(q) && n < |q.items| && n in q.listed && n !in q.batch && q.current != Some(n)
    requires Leads(Next(q, Discard(n)), steps, t)
    ensures n < |t.items| && t.items[n].status == Discarded && Returned(Next(q, Discard(n)), steps, n) == []
  {
    StepKeepsRetries(q, Discard(n));
    hide RetriesHold;
    RunLeavesGone(Next(q, Discard(n)), steps, t, n);
  }
}
