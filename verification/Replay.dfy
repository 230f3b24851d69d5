/**
 * Replaying a log onto a sink that may be ahead of, behind, or partly between points of the
 * source's history. The sink is described key by key: it holds what the source held at some
 * index of the log. Replay moves the lower bound of these indices on, and never the rows back
 * beyond it.
 */
module Replay {
  import opened Wrappers
  import opened Pipeline

  // ---------------------------------------------------------------- the source

  /**
   * A committed change, the event it is announced with, and where its transaction was committed.
   * An UPDATE of the primary key also removes the row under its old key, which the event does not
   * mention.
   */
  datatype Entry = Entry(event: ChangeEvent, movedFrom: Option<Key>, commitLsn: nat)

  /** The table as it was when the log began, and the log. */
  datatype Source = Source(base: Table, log: seq<Entry>)

  function Commit(docs: Table, e: Entry): Table {
    Apply(if e.movedFrom.Some? then docs - {e.movedFrom.value} else docs, e.event)
  }

  /** The table after the first `n` entries. */
  function TableAt(src: Source, n: nat): Table
    requires n <= |src.log|
  {
    if n == 0 then src.base else Commit(TableAt(src, n - 1), src.log[n - 1])
  }

  function ValueAt(src: Source, n: nat, k: Key): Option<Document>
    requires n <= |src.log|
  {
    Lookup(TableAt(src, n), k)
  }

  /** The sink holds, for this key, what the source held at some index from `lo` to `hi`. */
  ghost predicate Between(src: Source, docs: Table, k: Key, lo: nat, hi: nat)
    requires hi <= |src.log|
  {
    exists i | lo <= i <= hi :: Lookup(docs, k) == ValueAt(src, i, k)
  }

  ghost predicate AllBetween(src: Source, docs: Table, lo: nat, hi: nat)
    requires hi <= |src.log|
  {
    forall k :: Between(src, docs, k, lo, hi)
  }

  function Max(a: nat, b: nat): nat {
    if a < b then b else a
  }

  predicate KeysStay(log: seq<Entry>) {
    forall i | 0 <= i < |log| :: log[i].movedFrom.None?
  }

  /** The events of the log from index `a` on, as many as there are in `events`. */
  predicate Stretch(log: seq<Entry>, a: int, events: seq<ChangeEvent>) {
    && 0 <= a && a + |events| <= |log|
    && forall i | 0 <= i < |events| :: events[i] == log[a + i].event
  }

  lemma StretchKept(log: seq<Entry>, e: Entry, a: int, events: seq<ChangeEvent>)
    ensures Stretch(log, a, events) ==> Stretch(log + [e], a, events)
  {
  }

  lemma Widen(src: Source, docs: Table, k: Key, lo: nat, hi: nat, lo': nat, hi': nat)
    requires hi <= hi' <= |src.log| && lo' <= lo && Between(src, docs, k, lo, hi)
    ensures Between(src, docs, k, lo', hi')
  {
    hide ValueAt;
    var i :| lo <= i <= hi && Lookup(docs, k) == ValueAt(src, i, k);
  }

  lemma WidenAll(src: Source, docs: Table, lo: nat, hi: nat, lo': nat, hi': nat)
    requires hi <= hi' <= |src.log| && lo' <= lo && AllBetween(src, docs, lo, hi)
    ensures AllBetween(src, docs, lo', hi')
  {
    hide Between;
    forall k ensures Between(src, docs, k, lo', hi') {
      Widen(src, docs, k, lo, hi, lo', hi');
    }
  }

  lemma LookupApplied(docs: Table, e: ChangeEvent, k: Key)
    ensures k != e.key ==> Lookup(Apply(docs, e), k) == Lookup(docs, k)
    ensures e.op != Other ==> Lookup(Apply(docs, e), e.key) == if e.op == Delete then None else Some(e.document)
  {
  }

  /** Replaying the entry at `a` on a sink that lies between `a` and `hi` moves the lower bound on. */
  lemma ReplayOne(src: Source, docs: Table, k: Key, a: nat, hi: nat)
    requires KeysStay(src.log) && a < |src.log| && hi <= |src.log| && Between(src, docs, k, a, hi)
    ensures Between(src, Apply(docs, src.log[a].event), k, a + 1, Max(hi, a + 1))
  {
    hide Apply, Lookup;
    var e := src.log[a].event;
    LookupSame(docs, TableAt(src, a), e, k);
    var i :| a <= i <= hi && Lookup(docs, k) == ValueAt(src, i, k);
    assert ValueAt(src, a + 1, k) == Lookup(Apply(TableAt(src, a), e), k);
    LookupApplied(docs, e, k);
    if k == e.key && e.op != Other {
      LookupApplied(TableAt(src, a), e, k);
      assert Lookup(Apply(docs, e), k) == ValueAt(src, a + 1, k);
    } else if i == a {
      assert Lookup(Apply(docs, e), k) == ValueAt(src, a + 1, k);
    } else {
      OtherChangesNothing(docs, e, k);
      assert Lookup(Apply(docs, e), k) == ValueAt(src, i, k);
    }
  }

  lemma LookupSame(a: Table, b: Table, e: ChangeEvent, k: Key)
    ensures Lookup(a, k) == Lookup(b, k) ==> Lookup(Apply(a, e), k) == Lookup(Apply(b, e), k)
  {
  }

  lemma OtherChangesNothing(docs: Table, e: ChangeEvent, k: Key)
    requires k != e.key || e.op == Other
    ensures Lookup(Apply(docs, e), k) == Lookup(docs, k)
  {
  }

  /**
   * Replaying a stretch of the log that begins at or before the lower bound of the sink brings
   * every key at least to the end of the stretch, whatever the sink had seen before.
   */
  lemma {:induction false} ReplayStretch(src: Source, docs: Table, lo: nat, hi: nat, a: nat, events: seq<ChangeEvent>)
    requires KeysStay(src.log) && hi <= |src.log| && AllBetween(src, docs, lo, hi)
    requires a <= lo && Stretch(src.log, a, events)
    ensures var end := a + |events|; AllBetween(src, ApplyAll(docs, events), end, Max(hi, end))
    decreases |events|
  {
    hide Between, ValueAt, Apply;
    if events == [] {
      WidenAll(src, docs, lo, hi, a, Max(hi, a));
    } else {
      var n := |events| - 1;
      ReplayStretch(src, docs, lo, hi, a, events[..n]);
      var before := ApplyAll(docs, events[..n]);
      var end := a + n + 1;
      var top := Max(hi, end);
      forall k ensures Between(src, ApplyAll(docs, events), k, end, top) {
        assert Between(src, before, k, a + n, Max(hi, a + n));
        ReplayOne(src, before, k, a + n, Max(hi, a + n));
      }
    }
  }

  lemma {:induction false} TableKept(src: Source, e: Entry, n: nat)
    requires n <= |src.log|
    ensures TableAt(src.(log := src.log + [e]), n) == TableAt(src, n)
  {
    if n > 0 {
      TableKept(src, e, n - 1);
    }
  }

  lemma ValueKept(src: Source, e: Entry, n: nat, k: Key)
    requires n <= |src.log|
    ensures ValueAt(src.(log := src.log + [e]), n, k) == ValueAt(src, n, k)
  {
    TableKept(src, e, n);
  }

  lemma BetweenKept(src: Source, e: Entry, docs: Table, k: Key, lo: nat, hi: nat)
    requires hi <= |src.log| && Between(src, docs, k, lo, hi)
    ensures Between(src.(log := src.log + [e]), docs, k, lo, hi)
  {
    hide TableAt, Lookup;
    var i :| lo <= i <= hi && Lookup(docs, k) == ValueAt(src, i, k);
    TableKept(src, e, i);
    assert Lookup(docs, k) == ValueAt(src.(log := src.log + [e]), i, k);
  }

  lemma SameTable(a: Table, b: Table)
    requires forall k :: Lookup(a, k) == Lookup(b, k)
    ensures a == b
  {
    forall k ensures (k in a <==> k in b) && (k in a ==> a[k] == b[k]) {
      assert Lookup(a, k) == Lookup(b, k);
    }
  }

  // ---------------------------------------------------------------- which rows a list of events changes

  /** Some event of the list changes the row of this key. */
  predicate Touches(events: seq<ChangeEvent>, k: Key) {
    exists i :: 0 <= i < |events| && events[i].key == k && events[i].op != Other
  }

  lemma {:induction false} Untouched(docs: Table, events: seq<ChangeEvent>, k: Key)
    requires !Touches(events, k)
    ensures Lookup(ApplyAll(docs, events), k) == Lookup(docs, k)
    decreases |events|
  {
    hide Apply, Lookup;
    if events != [] {
      var n := |events| - 1;
      assert forall i | 0 <= i < n :: events[..n][i] == events[i];
      Untouched(docs, events[..n], k);
      OtherChangesNothing(ApplyAll(docs, events[..n]), events[n], k);
    }
  }

  lemma {:induction false} Overwritten(a: Table, b: Table, events: seq<ChangeEvent>, k: Key)
    requires Lookup(a, k) == Lookup(b, k) || Touches(events, k)
    ensures Lookup(ApplyAll(a, events), k) == Lookup(ApplyAll(b, events), k)
    decreases |events|
  {
    hide Apply, Lookup;
    if events != [] {
      var n := |events| - 1;
      var x, y := ApplyAll(a, events[..n]), ApplyAll(b, events[..n]);
      if events[n].key == k && events[n].op != Other {
        LookupApplied(x, events[n], k);
        LookupApplied(y, events[n], k);
      } else {
        if Touches(events, k) {
          var i :| 0 <= i < |events| && events[i].key == k && events[i].op != Other;
          assert events[..n][i] == events[i];
        }
        Overwritten(a, b, events[..n], k);
        LookupSame(x, y, events[n], k);
      }
    }
  }

  lemma {:induction false} AppliedInTwo(docs: Table, a: seq<ChangeEvent>, b: seq<ChangeEvent>)
    ensures ApplyAll(docs, a + b) == ApplyAll(ApplyAll(docs, a), b)
    decreases |b|
  {
    hide Apply;
    if b == [] {
      assert a + b == a;
    } else {
      var n := |b| - 1;
      assert (a + b)[..|a| + n] == a + b[..n];
      AppliedInTwo(docs, a, b[..n]);
    }
  }

  lemma AppliedOne(docs: Table, e: ChangeEvent)
    ensures ApplyAll(docs, [e]) == Apply(docs, e)
  {
    assert [e][..0] == [];
  }

  // ---------------------------------------------------------------- when replay arrives at the source

  /** The events of the log from index `r` on. */
  function EventsFrom(log: seq<Entry>, r: nat): (events: seq<ChangeEvent>)
    requires r <= |log|
    ensures Stretch(log, r, events) && r + |events| == |log|
  {
    seq(|log| - r, i requires 0 <= i < |log| - r => log[r + i].event)
  }

  /** The log will overwrite this row, or the sink has it as the source had it at `r`. */
  predicate RecoversRow(src: Source, docs: Table, r: nat, k: Key)
    requires r <= |src.log|
  {
    Touches(EventsFrom(src.log, r), k) || Lookup(docs, k) == ValueAt(src, r, k)
  }

  /** Every row that the log from `r` on leaves alone is in the sink as the source had it at `r`. */
  ghost predicate Recovers(src: Source, docs: Table, r: nat)
    requires r <= |src.log|
  {
    forall k :: RecoversRow(src, docs, r, k)
  }

  lemma TouchesFrom(log: seq<Entry>, r: nat, k: Key)
    requires r < |log|
    ensures Touches(EventsFrom(log, r), k) <==>
            (log[r].event.key == k && log[r].event.op != Other) || Touches(EventsFrom(log, r + 1), k)
  {
    var here, further := EventsFrom(log, r), EventsFrom(log, r + 1);
    assert here[0] == log[r].event;
    assert forall i | 0 <= i < |further| :: further[i] == here[i + 1];
    if Touches(here, k) {
      var i :| 0 <= i < |here| && here[i].key == k && here[i].op != Other;
      assert i > 0 ==> here[i] == further[i - 1];
    }
  }

  lemma StepsOn(src: Source, r: nat, k: Key)
    requires KeysStay(src.log) && r < |src.log|
    ensures ValueAt(src, r + 1, k) == Lookup(Apply(TableAt(src, r), src.log[r].event), k)
  {
  }

  /** Whether a row recovers is settled before the entry at `r` is replayed. */
  lemma RowRecoversOn(src: Source, docs: Table, r: nat, k: Key)
    requires KeysStay(src.log) && r < |src.log|
    ensures RecoversRow(src, Apply(docs, src.log[r].event), r + 1, k) <==> RecoversRow(src, docs, r, k)
    ensures RecoversRow(src, docs, r + 1, k) ==> RecoversRow(src, docs, r, k)
  {
    var e := src.log[r].event;
    StepsOn(src, r, k);
    TouchesFrom(src.log, r, k);
    LookupSame(docs, TableAt(src, r), e, k);
    LookupApplied(docs, e, k);
    LookupApplied(TableAt(src, r), e, k);
    hide Apply, Lookup, Touches, EventsFrom, KeysStay, TableAt;
    assert ValueAt(src, r, k) == Lookup(TableAt(src, r), k);
    if k != e.key || e.op == Other {
      OtherChangesNothing(docs, e, k);
      OtherChangesNothing(TableAt(src, r), e, k);
    }
  }

  /** The earlier replay begins, the more it recovers. */
  lemma {:induction false} RowRecoversSooner(src: Source, docs: Table, r: nat, r': nat, k: Key)
    requires KeysStay(src.log) && r <= r' <= |src.log| && RecoversRow(src, docs, r', k)
    ensures RecoversRow(src, docs, r, k)
    decreases r' - r
  {
    hide RecoversRow, KeysStay;
    if r < r' {
      RowRecoversOn(src, docs, r' - 1, k);
      RowRecoversSooner(src, docs, r, r' - 1, k);
    }
  }

  lemma {:induction false} RowRecoversAcross(src: Source, docs: Table, a: nat, events: seq<ChangeEvent>, k: Key)
    requires KeysStay(src.log) && Stretch(src.log, a, events)
    ensures RecoversRow(src, ApplyAll(docs, events), a + |events|, k) <==> RecoversRow(src, docs, a, k)
    decreases |events|
  {
    hide RecoversRow, Apply;
    if events != [] {
      var n := |events| - 1;
      RowRecoversAcross(src, docs, a, events[..n], k);
      RowRecoversOn(src, ApplyAll(docs, events[..n]), a + n, k);
    }
  }

  /** Replaying a stretch of the log neither makes a sink recover nor keeps it from it. */
  lemma RecoversAcross(src: Source, docs: Table, a: nat, events: seq<ChangeEvent>)
    requires KeysStay(src.log) && Stretch(src.log, a, events)
    ensures Recovers(src, ApplyAll(docs, events), a + |events|) <==> Recovers(src, docs, a)
  {
    hide RecoversRow, KeysStay;
    var end, after := a + |events|, ApplyAll(docs, events);
    forall k ensures RecoversRow(src, after, end, k) <==> RecoversRow(src, docs, a, k) {
      RowRecoversAcross(src, docs, a, events, k);
    }
  }

  /** On the source itself a stretch of the log leads on along its history. */
  lemma {:induction false} StretchFollows(src: Source, a: nat, events: seq<ChangeEvent>)
    requires KeysStay(src.log) && Stretch(src.log, a, events)
    ensures ApplyAll(TableAt(src, a), events) == TableAt(src, a + |events|)
    decreases |events|
  {
    hide Apply;
    if events != [] {
      StretchFollows(src, a, events[..|events| - 1]);
    }
  }

  lemma RecoversSooner(src: Source, docs: Table, r: nat, r': nat)
    requires KeysStay(src.log) && r <= r' <= |src.log| && Recovers(src, docs, r')
    ensures Recovers(src, docs, r)
  {
    hide RecoversRow, KeysStay;
    forall k ensures RecoversRow(src, docs, r, k) {
      assert RecoversRow(src, docs, r', k);
      RowRecoversSooner(src, docs, r, r', k);
    }
  }

  /** At the end of the log there is nothing left to recover with. */
  lemma RecoveredExactly(src: Source, docs: Table)
    ensures Recovers(src, docs, |src.log|) <==> docs == TableAt(src, |src.log|)
  {
    hide TableAt;
    var n := |src.log|;
    assert EventsFrom(src.log, n) == [];
    if Recovers(src, docs, n) {
      forall k ensures Lookup(docs, k) == Lookup(TableAt(src, n), k) {
        assert RecoversRow(src, docs, n, k);
      }
      SameTable(docs, TableAt(src, n));
    }
  }

  /**
   * Replaying the log from any index on any sink: it arrives at the source's table exactly when
   * every row that the rest of the log leaves alone is already as the source had it there.
   */
  lemma ReplayExactly(src: Source, docs: Table, r: nat)
    requires KeysStay(src.log) && r <= |src.log|
    ensures ApplyAll(docs, EventsFrom(src.log, r)) == TableAt(src, |src.log|) <==> Recovers(src, docs, r)
  {
    hide Recovers, KeysStay, TableAt, ApplyAll;
    RecoversAcross(src, docs, r, EventsFrom(src.log, r));
    RecoveredExactly(src, ApplyAll(docs, EventsFrom(src.log, r)));
  }

  /** The rows of a sink that lies between `lo` and `hi` recover from `lo`, and from anywhere before. */
  lemma {:induction false} RowBetweenRecovers(src: Source, docs: Table, k: Key, r: nat, hi: nat)
    requires KeysStay(src.log) && r <= hi <= |src.log| && Between(src, docs, k, r, hi)
    ensures RecoversRow(src, docs, r, k)
    decreases |src.log| - r
  {
    hide TableAt, EventsFrom, Touches;
    var i :| r <= i <= hi && Lookup(docs, k) == ValueAt(src, i, k);
    if i > r {
      assert Between(src, docs, k, r + 1, hi);
      RowBetweenRecovers(src, docs, k, r + 1, hi);
      hide RecoversRow, Between;
      RowRecoversOn(src, docs, r, k);
    }
  }

  lemma BetweenRecovers(src: Source, docs: Table, lo: nat, hi: nat, r: nat)
    requires KeysStay(src.log) && r <= lo <= hi <= |src.log| && AllBetween(src, docs, lo, hi)
    ensures Recovers(src, docs, r)
  {
    hide Between, RecoversRow, KeysStay;
    WidenAll(src, docs, lo, hi, r, hi);
    forall k ensures RecoversRow(src, docs, r, k) {
      RowBetweenRecovers(src, docs, k, r, hi);
    }
  }

  lemma RowRecoversKept(src: Source, e: Entry, docs: Table, r: nat, k: Key)
    requires r <= |src.log| && RecoversRow(src, docs, r, k)
    ensures RecoversRow(src.(log := src.log + [e]), docs, r, k)
  {
    hide ValueAt;
    var t := src.(log := src.log + [e]);
    var before, after := EventsFrom(src.log, r), EventsFrom(t.log, r);
    ValueKept(src, e, r, k);
    if Touches(before, k) {
      var i :| 0 <= i < |before| && before[i].key == k && before[i].op != Other;
      assert after[i] == before[i];
    }
  }
}
