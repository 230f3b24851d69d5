/**
 * The dead-letter queue's manager as it runs: a map of items that its methods change in place,
 * item by item. Each method does to the items what the state machine in DeadLetters.dfy does.
 */
module DlqManagement {
  import opened Wrappers
  import opened DeadLetters

  class DlqItem {
    const id: string
    const jobId: string
    const event: FailedEvent
    const maxRetries: nat
    const firstFailed: nat
    var status: Status
    var retryCount: nat
    var lastRetried: Option<nat>
    ghost var starts: seq<nat>

    constructor (id: string, jobId: string, event: FailedEvent, maxRetries: nat, now: nat)
      ensures this.id == id && Value() == NewItem(jobId, event, maxRetries, now)
    {
      this.id, this.jobId, this.event, this.maxRetries, firstFailed := id, jobId, event, maxRetries, now;
      status, retryCount, lastRetried, starts := Pending, 0, None, [];
    }

    ghost function Value(): Item
      reads this
    {
      Item(jobId, event, status, retryCount, maxRetries, firstFailed, lastRetried, starts)
    }

    function Key(): (key: string)
      ensures key == ItemKey(Value())
    {
      DedupeKey(jobId, event)
    }

    predicate Live()
      reads this
      ensures Live() <==> IsLive(Value())
    {
      status.Pending? || status.Retrying?
    }
  }

  ghost function ValuesOf(made: seq<DlqItem>): (values: seq<Item>)
    reads made
    ensures |values| == |made| && forall n | 0 <= n < |made| :: values[n] == made[n].Value()
  {
    if made == [] then [] else ValuesOf(made[..|made| - 1]) + [made[|made| - 1].Value()]
  }

  /** When the retry callback was called, and what it returned. */
  datatype Call = Call(at: nat, ok: bool)

  /** The numbers are those of these items. */
  ghost predicate Numbered(made: seq<DlqItem>, numbers: seq<nat>, items: seq<DlqItem>) {
    |items| == |numbers| && forall i | 0 <= i < |items| :: numbers[i] < |made| && made[numbers[i]] == items[i]
  }

  datatype Stats = Stats(total: nat, pending: nat, retrying: nat, exhausted: nat, resolved: nat, discarded: nat)

  /** How many of these items have this status. */
  ghost function Counted(view: map<string, Item>, ids: set<string>, status: Status): nat {
    |set id | id in ids && id in view && view[id].status == status|
  }

  lemma CountedOneMore(view: map<string, Item>, ids: set<string>, id: string, status: Status)
    requires id !in ids && id in view
    ensures Counted(view, ids + {id}, status) == Counted(view, ids, status) + if view[id].status == status then 1 else 0
  {
    var before := set x | x in ids && x in view && view[x].status == status;
    var after := set x | x in ids + {id} && x in view && view[x].status == status;
    if view[id].status == status {
      assert after == before + {id};
    } else {
      assert after == before;
    }
  }

  /** The statistics count each of these items once, under its status. */
  ghost predicate Tallied(stats: Stats, view: map<string, Item>, ids: set<string>) {
    && |ids| == stats.pending + stats.retrying + stats.exhausted + stats.resolved + stats.discarded
    && stats.pending == Counted(view, ids, Pending) && stats.retrying == Counted(view, ids, Retrying)
    && stats.exhausted == Counted(view, ids, Exhausted) && stats.resolved == Counted(view, ids, Resolved)
    && stats.discarded == Counted(view, ids, Discarded)
  }

  function Bumped(stats: Stats, status: Status): Stats {
    match status
    case Pending => stats.(pending := stats.pending + 1)
    case Retrying => stats.(retrying := stats.retrying + 1)
    case Exhausted => stats.(exhausted := stats.exhausted + 1)
    case Resolved => stats.(resolved := stats.resolved + 1)
    case Discarded => stats.(discarded := stats.discarded + 1)
  }

  lemma NothingTallied(stats: Stats, view: map<string, Item>)
    requires stats == Stats(stats.total, 0, 0, 0, 0, 0)
    ensures Tallied(stats, view, {})
  {
  }

  lemma TalliedOneMore(stats: Stats, view: map<string, Item>, ids: set<string>, id: string)
    requires Tallied(stats, view, ids) && id !in ids && id in view
    ensures Tallied(Bumped(stats, view[id].status), view, ids + {id})
    ensures Bumped(stats, view[id].status).total == stats.total
  {
    hide Counted;
    CountedOneMore(view, ids, id, Pending);
    CountedOneMore(view, ids, id, Retrying);
    CountedOneMore(view, ids, id, Exhausted);
    CountedOneMore(view, ids, id, Resolved);
    CountedOneMore(view, ids, id, Discarded);
  }

  lemma OneLess<K, V>(m: map<K, V>, k: K)
    requires k in m
    ensures |m - {k}| == |m| - 1
  {
    assert m.Keys == (m - {k}).Keys + {k};
    assert |(m - {k}).Keys + {k}| == |(m - {k}).Keys| + 1;
  }

  class DlqManager {
    const maxRetries: nat
    const retryDelay: nat
    var items: map<string, DlqItem>
    ghost var made: seq<DlqItem>
    ghost var batch: seq<nat>
    ghost var current: Option<nat>
    // `made` are all items ever made; `batch` and `current` number those that the retrier holds.

    constructor (maxRetries: nat, retryDelay: nat)
      ensures Valid() && View() == map[] && this.maxRetries == maxRetries && this.retryDelay == retryDelay
      ensures Abs(0) == Fresh(maxRetries, retryDelay)
    {
      this.maxRetries, this.retryDelay, items := maxRetries, retryDelay, map[];
      made, batch, current := [], [], None;
    }

    ghost predicate Valid()
      reads this, items.Values, made
    {
      && (forall id | id in items :: items[id].id == id && items[id] in made)
      && (forall i, k | 0 <= i < k < |made| :: made[i] != made[k])
      && (forall n | n in batch || current == Some(n) :: n < |made|)
    }

    /** The item of this number is still in the map. */
    ghost predicate Listed(n: nat)
      reads this, made
      requires n < |made|
    {
      made[n].id in items && items[made[n].id] == made[n]
    }

    ghost function Values(): (values: seq<Item>)
      reads this, made
      ensures |values| == |made| && forall n | 0 <= n < |made| :: values[n] == made[n].Value()
    {
      ValuesOf(made)
    }

    ghost function Numbers(): (listed: set<nat>)
      reads this, made
      ensures forall n: nat :: n in listed <==> n < |made| && Listed(n)
    {
      set n: nat | n < |made| && Listed(n)
    }

    /** The queue of DeadLetters.dfy that this is at a given time. */
    ghost function Abs(now: nat): Queue
      reads this, made
    {
      Queue(Values(), Numbers(), batch, current, now, maxRetries, retryDelay)
    }

    ghost function View(): (view: map<string, Item>)
      reads this, items.Values
      ensures view.Keys == items.Keys
    {
      map id | id in items :: items[id].Value()
    }

    /** A stored item waits for or undergoes retry under this key. */
    ghost predicate Holds(key: string)
      reads this, items.Values
    {
      exists id :: id in items && items[id].Live() && items[id].Key() == key
    }

    /** The queue has taken this step, at the given time. */
    twostate predicate Takes(now: nat, step: Step)
      reads this, made
    {
      Enabled(old(Abs(now)), step) && Abs(now) == Next(old(Abs(now)), step)
    }

    /** A stored item's number. */
    ghost function NumberOf(item: DlqItem): (n: nat)
      reads this, made
      requires item in made
      ensures n < |made| && made[n] == item
    {
      var n: nat :| n < |made| && made[n] == item;
      n
    }

    lemma HoldsIsDuplicate(key: string, now: nat)
      requires Valid()
      ensures Holds(key) <==> IsDuplicate(Abs(now), key)
    {
      hide DedupeKey;
      if id :| id in items && items[id].Live() && items[id].Key() == key {
        assert LiveWith(Abs(now), NumberOf(items[id]), key);
      }
      if n :| n in Abs(now).listed && LiveWith(Abs(now), n, key) {
        assert items[made[n].id].Live() && items[made[n].id].Key() == key;
      }
    }

    /**
     * The id is made from the job, the row and the time of the failure; where that is new, this is
     * the queue's step, and otherwise it also takes the item of that id out of the list.
     */
    method AddFailedEvent(id: string, jobId: string, event: FailedEvent, now: nat) returns (added: bool)
      requires Valid()
      modifies this`items, this`made
      ensures Valid() && added == !old(Holds(DedupeKey(jobId, event)))
      ensures View() == if added then old(View())[id := NewItem(jobId, event, maxRetries, now)] else old(View())
      ensures id !in old(items) ==> Takes(now, Add(jobId, event))
    {
      hide DedupeKey;
      var key, left := DedupeKey(jobId, event), items.Keys;
      HoldsIsDuplicate(key, now);
      while left != {}
        invariant left <= items.Keys
        invariant forall other | other in items.Keys - left :: !(items[other].Live() && items[other].Key() == key)
        decreases |left|
      {
        var other :| other in left;
        if items[other].Key() == key {
          if items[other].Live() {
            return false;
          }
        }
        left := left - {other};
      }
      var item := new DlqItem(id, jobId, event, maxRetries, now);
      items := items[id := item];
      made := made + [item];
      added := true;
      hide IsDuplicate, Takes;
      StoredValid(item);
      if id !in old(items) {
        Added(item, jobId, event, now);
      }
    }

    /** One new item is in the map and in the list of all that were made. */
    twostate predicate Stored(new item: DlqItem)
      reads this, made, item
    {
      && old(Valid()) && items == old(items)[item.id := item] && made == old(made) + [item]
      && batch == old(batch) && current == old(current) && item !in old(made)
      && forall n: nat | n < |old(made)| :: made[n].Value() == old(Values())[n]
    }

    twostate lemma StoredValid(new item: DlqItem)
      requires Stored(item)
      ensures Valid() && View() == old(View())[item.id := item.Value()]
    {
    }

    twostate lemma Added(new item: DlqItem, new jobId: string, new event: FailedEvent, new now: nat)
      requires Stored(item) && item.id !in old(items) && item.Value() == NewItem(jobId, event, maxRetries, now)
      requires !old(IsDuplicate(Abs(now), DedupeKey(jobId, event)))
      ensures Takes(now, Add(jobId, event))
    {
      hide IsDuplicate, DedupeKey;
      assert forall n: nat | n < |old(made)| :: Listed(n) <==> old(Listed(n));
      assert Values() == old(Values()) + [item.Value()] && Numbers() == old(Numbers()) + {|old(made)|};
    }

    /** The items that are due for a retry, found while holding the lock. */
    method CollectDue(now: nat) returns (due: seq<DlqItem>)
      requires Valid() && batch == [] && current.None?
      modifies this`batch
      ensures Valid() && Carries(due)
      ensures forall item <- due :: item.id in items && items[item.id] == item
      ensures forall id | id in items :: items[id] in due <==> Eligible(items[id].Value(), retryDelay, now)
      ensures forall i, k | 0 <= i < k < |due| :: due[i] != due[k]
      ensures Takes(now, Collect(batch))
    {
      hide ShouldRetry;
      due := [];
      var left := items.Keys;
      while left != {}
        invariant left <= items.Keys
        invariant forall item <- due :: item.id in items.Keys - left && items[item.id] == item
        invariant forall id | id in items.Keys - left :: items[id] in due <==> Eligible(items[id].Value(), retryDelay, now)
        invariant forall i, k | 0 <= i < k < |due| :: due[i] != due[k]
        decreases |left|
      {
        var id :| id in left;
        var item := items[id];
        if item.status == Pending && item.retryCount < item.maxRetries {
          if IsDue(item, now) {
            due := due + [item];
          }
        }
        left := left - {id};
      }
      batch := NumbersOf(due);
      hide IsDue, DedupeKey, IsDuplicate;
      CollectedAll(due, now);
      hide Takes;
      Collected(now);
    }

    twostate lemma Collected(now: nat)
      requires items == old(items) && made == old(made) && old(batch) == [] && old(current).None? && current.None?
      requires forall n: nat | n < |made| :: made[n].Value() == old(Values())[n]
      requires NoRepeats(batch)
      requires forall n: nat :: n in batch <==> n in Numbers() && n < |made| && Eligible(Values()[n], retryDelay, now)
      ensures Takes(now, Collect(batch))
    {
      assert Values() == old(Values()) && Numbers() == old(Numbers());
    }

    ghost function NumbersOf(due: seq<DlqItem>): (ns: seq<nat>)
      reads this, made
      requires forall item <- due :: item in made
      ensures |ns| == |due| && forall i | 0 <= i < |due| :: ns[i] < |made| && made[ns[i]] == due[i]
    {
      if due == [] then [] else NumbersOf(due[..|due| - 1]) + [NumberOf(due[|due| - 1])]
    }

    /** These are the items whose numbers the retrier holds. */
    ghost predicate Carries(due: seq<DlqItem>)
      reads this
    {
      Numbered(made, batch, due)
    }

    lemma CollectedAll(due: seq<DlqItem>, now: nat)
      requires Valid() && Carries(due)
      requires forall item <- due :: item.id in items && items[item.id] == item
      requires forall id | id in items :: items[id] in due <==> Eligible(items[id].Value(), retryDelay, now)
      requires forall i, k | 0 <= i < k < |due| :: due[i] != due[k]
      ensures NoRepeats(batch)
      ensures forall n: nat :: n in batch <==> n in Numbers() && n < |made| && Eligible(Values()[n], retryDelay, now)
    {
      hide ShouldRetry;
      forall n: nat ensures n in batch <==> n in Numbers() && n < |made| && Eligible(Values()[n], retryDelay, now) {
        if n in batch {
          var i :| 0 <= i < |batch| && batch[i] == n;
          assert due[i] in due && items[due[i].id] == made[n];
        }
        if n < |made| && Listed(n) && Eligible(Values()[n], retryDelay, now) {
          assert items[made[n].id] in due;
          var i :| 0 <= i < |due| && due[i] == made[n];
          assert made[batch[i]] == made[n];
        }
      }
    }

    function IsDue(item: DlqItem, now: nat): (due: bool)
      reads item
      ensures due <==> ShouldRetry(item.Value(), retryDelay, now)
    {
      if item.lastRetried.None? then true
      else now - item.lastRetried.value >= retryDelay * Pow2(item.retryCount)
    }

    method BeginRetry(item: DlqItem, now: nat)
      requires Valid() && current.None? && batch != [] && batch[0] < |made| && made[batch[0]] == item
      modifies item, this`batch, this`current
      ensures Valid() && batch == old(batch)[1..] && current == Some(old(batch)[0])
      ensures item.Value() == Begun(old(item.Value()), now)
      ensures Takes(now, Begin)
    {
      item.status, item.lastRetried, item.starts := Retrying, Some(now), item.starts + [now];
      current, batch := Some(batch[0]), batch[1..];
      assert forall n | n in batch :: n in old(batch);
      OneChanged(current.value);
    }

    method EndRetry(item: DlqItem, ok: bool, ghost now: nat)
      requires Valid() && current.Some? && current.value < |made| && made[current.value] == item
      modifies item, this`current
      ensures Valid() && current.None?
      ensures item.Value() == Ended(old(item.Value()), ok)
      ensures Takes(now, End(ok))
    {
      item.retryCount := item.retryCount + 1;
      if ok {
        item.status := Resolved;
      } else if item.retryCount >= item.maxRetries {
        item.status := Exhausted;
      } else {
        item.status := Pending;
      }
      current := None;
      OneChanged(old(current.value));
    }

    /** The callback is called for one item; to the queue this is the beginning and the end of a retry. */
    method RetryItem(item: DlqItem, call: Call, ghost start: Queue, ghost before: seq<Step>, ghost now: nat)
      requires Valid() && current.None? && batch != [] && batch[0] < |made| && made[batch[0]] == item
      requires Leads(start, before, Abs(now)) && now <= call.at
      modifies item, this`batch, this`current
      ensures Valid() && current.None? && batch == old(batch)[1..]
      ensures item.Value() == Ended(Begun(old(item.Value()), call.at), call.ok)
      ensures Leads(start, before + [Pass(call.at - now)] + [Begin] + [End(call.ok)], Abs(call.at))
    {
      hide Leads;
      ghost var steps := before + [Pass(call.at - now)];
      Onward(start, before, Abs(now), Pass(call.at - now), Abs(call.at));
      ghost var was := Abs(call.at);
      BeginRetry(item, call.at);
      Onward(start, steps, was, Begin, Abs(call.at));
      was, steps := Abs(call.at), steps + [Begin];
      EndRetry(item, call.ok, call.at);
      Onward(start, steps, was, End(call.ok), Abs(call.at));
    }

    /** Nothing but this item has changed, and what the retrier holds. */
    twostate lemma OneChanged(n: nat)
      requires n < |made| && made == old(made) && items == old(items)
      requires forall k: nat | k < |made| && k != n :: made[k].Value() == old(made[k].Value())
      ensures Values() == old(Values())[n := made[n].Value()] && Numbers() == old(Numbers())
    {
      assert forall k: nat | k < |made| :: Listed(k) <==> old(Listed(k));
    }

    method DiscardItem(id: string, ghost now: nat) returns (found: bool)
      requires Valid()
      modifies if id in items then {items[id]} else {}
      ensures Valid() && items == old(items) && found == (id in items)
      ensures View() == if found then old(View())[id := old(View())[id].(status := Discarded)] else old(View())
      ensures found ==> Takes(now, Discard(NumberOf(items[id])))
    {
      hide Takes;
      found := id in items;
      if found {
        items[id].status := Discarded;
        DiscardTaken(id, NumberOf(items[id]), now);
        DiscardSeen(id, NumberOf(items[id]));
      }
    }

    /** Only the item of this id and number has changed: it is discarded. */
    twostate predicate Discards(id: string, n: nat)
      reads this, made, items.Values
    {
      && old(Valid()) && items == old(items) && made == old(made) && batch == old(batch) && current == old(current)
      && id in items && n < |made| && made[n] == items[id] && n < |old(made)|
      && made[n].Value() == old(made[n].Value()).(status := Discarded)
      && forall k: nat | k < |made| && k != n :: made[k].Value() == old(Values())[k]
    }

    twostate lemma DiscardTaken(id: string, new n: nat, new now: nat)
      requires Discards(id, n)
      ensures Takes(now, Discard(n))
    {
      hide DedupeKey, ItemKey, IsDuplicate, ShouldRetry, IsStale;
      OneChanged(n);
    }

    twostate lemma DiscardSeen(id: string, new n: nat)
      requires Discards(id, n)
      ensures Valid() && View() == old(View())[id := old(View())[id].(status := Discarded)]
    {
      assert forall other | other in items && other != id :: items[other] != items[id];
    }

    /** Resolved and discarded items older than the cutoff are removed, and no others. */
    method CleanupResolved(cutoff: int) returns (removed: nat)
      requires Valid()
      modifies this`items
      ensures Valid()
      ensures forall id :: id in items <==> id in old(items) && !IsStale(old(items)[id].Value(), cutoff)
      ensures forall id | id in items :: items[id] == old(items)[id]
      ensures removed + |items| == |old(items)|
      ensures forall now: nat :: Takes(now, Cleanup(cutoff))
    {
      hide Valid, Abs;
      removed := 0;
      var left := items.Keys;
      while left != {}
        invariant left <= items.Keys <= old(items).Keys
        invariant forall id | id in items :: items[id] == old(items)[id]
        invariant forall id | id in old(items) && id !in left :: id in items <==> !IsStale(old(items)[id].Value(), cutoff)
        invariant removed + |items| == |old(items)|
        decreases |left|
      {
        var id :| id in left;
        var item := items[id];
        if (item.status == Resolved || item.status == Discarded) && item.firstFailed < cutoff {
          OneLess(items, id);
          items := items - {id};
          removed := removed + 1;
        }
        left := left - {id};
      }
      CleanedUp(cutoff);
    }

    /** The stale items are gone from the map, and nothing else has changed. */
    twostate lemma CleanedUp(cutoff: int)
      requires old(Valid()) && made == old(made) && batch == old(batch) && current == old(current)
      requires forall item <- made :: item.Value() == old(item.Value())
      requires forall id :: id in items <==> id in old(items) && !IsStale(old(items)[id].Value(), cutoff)
      requires forall id | id in items :: items[id] == old(items)[id]
      ensures Valid() && forall now: nat :: Takes(now, Cleanup(cutoff))
    {
      assert Values() == old(Values());
      assert Numbers() == set n | n in old(Numbers()) && !(n < |made| && IsStale(old(Values())[n], cutoff));
    }

    method GetStats() returns (stats: Stats)
      requires Valid()
      ensures Tallied(stats, View(), items.Keys) && stats.total == |items|
    {
      hide Valid;
      stats := Stats(|items|, 0, 0, 0, 0, 0);
      var left := items.Keys;
      ghost var view, seen := View(), {};
      NothingTallied(stats, view);
      hide Tallied, Bumped;
      while left != {}
        invariant seen !! left && seen + left == items.Keys && stats.total == |items|
        invariant Tallied(stats, view, seen)
        decreases |left|
      {
        var id :| id in left;
        assert view[id].status == items[id].status;
        TalliedOneMore(stats, view, seen, id);
        stats := Bumped(stats, items[id].status);
        seen, left := seen + {id}, left - {id};
      }
      assert seen == items.Keys;
    }
  }
}
