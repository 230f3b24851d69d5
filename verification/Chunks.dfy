/**
 * Cutting a table into chunks for a parallel snapshot: by a number of equal id ranges, by a fixed
 * stride of ids, and by position. Whatever the scheme, reading the chunks one after the other is
 * reading the table once.
 */
module Chunks {
  import opened Wrappers
  import opened Pipeline
  import opened Replay
  import opened Handoff
  import opened HandoffRuns

  /** A range of ids, with its end outside. */
  datatype Chunk = Chunk(start: int, end: int)

  /** The chunks are not empty, and each begins where the one before ends, from `a` to `b`. */
  predicate Chain(chunks: seq<Chunk>, a: int, b: int) {
    if chunks == [] then a == b
    else
      var last := chunks[|chunks| - 1];
      last.start < last.end == b && Chain(chunks[..|chunks| - 1], a, last.start)
  }

  // ---------------------------------------------------------------- reading

  datatype Row = Row(id: int, document: Document)

  predicate Sorted(table: seq<Row>) {
    forall i, k | 0 <= i < k < |table| :: table[i].id < table[k].id
  }

  /** WHERE id >= a AND id < b ORDER BY id, on a table in order of its ids. */
  function Select(table: seq<Row>, a: int, b: int): seq<Row> {
    if table == [] then []
    else
      var last := table[|table| - 1];
      Select(table[..|table| - 1], a, b) + if a <= last.id < b then [last] else []
  }

  function SelectAll(table: seq<Row>, chunks: seq<Chunk>): seq<Row> {
    if chunks == [] then []
    else
      var last := chunks[|chunks| - 1];
      SelectAll(table, chunks[..|chunks| - 1]) + Select(table, last.start, last.end)
  }

  lemma {:induction false} SelectBelow(table: seq<Row>, a: int, b: int)
    requires forall i | 0 <= i < |table| :: table[i].id < a
    ensures Select(table, a, b) == []
    decreases |table|
  {
    if table != [] {
      SelectBelow(table[..|table| - 1], a, b);
    }
  }

  lemma {:induction false} SelectInTwo(table: seq<Row>, a: int, m: int, b: int)
    requires Sorted(table) && a <= m <= b
    ensures Select(table, a, m) + Select(table, m, b) == Select(table, a, b)
    decreases |table|
  {
    if table != [] {
      var n := |table| - 1;
      var init, last := table[..n], table[n];
      SelectInTwo(init, a, m, b);
      if last.id < m {
        SelectBelow(init, m, b);
      }
      SelectLast(table, a, m);
      SelectLast(table, m, b);
      SelectLast(table, a, b);
      hide Select, Sorted;
      var low, high := Select(init, a, m), Select(init, m, b);
      if m <= last.id < b {
        assert low + (high + [last]) == (low + high) + [last];
      }
    }
  }

  lemma SelectLast(table: seq<Row>, a: int, b: int)
    requires table != []
    ensures var init, last := table[..|table| - 1], table[|table| - 1];
            Select(table, a, b) == if a <= last.id < b then Select(init, a, b) + [last] else Select(init, a, b)
  {
  }

  lemma {:induction false} ChainInOrder(chunks: seq<Chunk>, a: int, b: int)
    requires Chain(chunks, a, b)
    ensures a <= b
    decreases |chunks|
  {
    if chunks != [] {
      ChainInOrder(chunks[..|chunks| - 1], a, chunks[|chunks| - 1].start);
    }
  }

  lemma {:induction false} SelectedAsOne(table: seq<Row>, chunks: seq<Chunk>, a: int, b: int)
    requires Sorted(table) && Chain(chunks, a, b)
    ensures SelectAll(table, chunks) == Select(table, a, b)
    decreases |chunks|
  {
    if chunks == [] {
      SelectNothing(table, a);
    } else {
      var n := |chunks| - 1;
      SelectedAsOne(table, chunks[..n], a, chunks[n].start);
      ChainInOrder(chunks[..n], a, chunks[n].start);
      SelectInTwo(table, a, chunks[n].start, b);
    }
  }

  lemma {:induction false} SelectNothing(table: seq<Row>, a: int)
    ensures Select(table, a, a) == []
    decreases |table|
  {
    if table != [] {
      SelectNothing(table[..|table| - 1], a);
    }
  }

  lemma {:induction false} SelectEverything(table: seq<Row>, a: int, b: int)
    requires forall i | 0 <= i < |table| :: a <= table[i].id < b
    ensures Select(table, a, b) == table
    decreases |table|
  {
    if table != [] {
      var n := |table| - 1;
      SelectEverything(table[..n], a, b);
      assert table[..n] + [table[n]] == table;
    }
  }

  /** Reading the chunks of a chain in order is reading the whole table in order, each row once. */
  lemma ChunksAreTheTable(table: seq<Row>, chunks: seq<Chunk>, a: int, b: int)
    requires Sorted(table) && Chain(chunks, a, b) && forall i | 0 <= i < |table| :: a <= table[i].id < b
    ensures SelectAll(table, chunks) == table
  {
    SelectedAsOne(table, chunks, a, b);
    SelectEverything(table, a, b);
  }

  predicate Holds(chunk: Chunk, id: int) {
    chunk.start <= id < chunk.end
  }

  /** The chunk that an id lies in. */
  function ChunkOf(chunks: seq<Chunk>, id: int): (i: Option<nat>)
    ensures i.Some? ==> i.value < |chunks| && Holds(chunks[i.value], id)
  {
    if chunks == [] then None
    else if Holds(chunks[|chunks| - 1], id) then Some(|chunks| - 1)
    else ChunkOf(chunks[..|chunks| - 1], id)
  }

  /** Every id of the range lies in exactly one chunk, and no other id lies in any. */
  lemma {:induction false} ExactlyOneChunk(chunks: seq<Chunk>, a: int, b: int, id: int)
    requires Chain(chunks, a, b)
    ensures ChunkOf(chunks, id).Some? <==> a <= id < b
    ensures forall i | 0 <= i < |chunks| && Holds(chunks[i], id) :: ChunkOf(chunks, id) == Some(i)
    decreases |chunks|
  {
    if chunks != [] {
      var n := |chunks| - 1;
      ChainInOrder(chunks[..n], a, chunks[n].start);
      ExactlyOneChunk(chunks[..n], a, chunks[n].start, id);
      forall i | 0 <= i < |chunks| && Holds(chunks[i], id) ensures ChunkOf(chunks, id) == Some(i) {
        if i < n {
          assert chunks[..n][i] == chunks[i];
        }
      }
    }
  }

  // ---------------------------------------------------------------- int64

  const MAX_INT64: int := 0x7fff_ffff_ffff_ffff
  const MIN_INT64: int := -MAX_INT64 - 1

  /** The arithmetic of int64. */
  function Wrap(v: int): (w: int)
    ensures MIN_INT64 <= w <= MAX_INT64
  {
    (v - MIN_INT64) % 0x1_0000_0000_0000_0000 + MIN_INT64
  }

  lemma WrapsOnce(v: int)
    requires MIN_INT64 <= v <= 2 * MAX_INT64
    ensures Wrap(v) == if v <= MAX_INT64 then v else v - 0x1_0000_0000_0000_0000
  {
  }

  // ---------------------------------------------------------------- a number of equal ranges

  lemma ChainExtended(chunks: seq<Chunk>, a: int, b: int, c: int)
    requires Chain(chunks, a, b) && b < c
    ensures Chain(chunks + [Chunk(b, c)], a, c)
  {
    assert (chunks + [Chunk(b, c)])[..|chunks|] == chunks;
  }

  /** Division rounds towards zero. */
  function Quotient(a: int, b: int): int
    requires b != 0
  {
    if (a < 0) == (b < 0) then Abs(a) / Abs(b) else -(Abs(a) / Abs(b))
  }

  function Abs(a: int): nat {
    if a < 0 then -a else a
  }

  /** How many chunks there will be: the range in units of the chunk size, but not none, and not too many. */
  function ChunkCount(total: int, chunkSize: nat, maxChunks: nat): int
    requires chunkSize >= 1
  {
    var n := Quotient(total, chunkSize);
    var notNone := if n == 0 then 1 else n;
    if notNone > maxChunks then maxChunks else notNone
  }

  predicate RangeInputs(minId: int, maxId: int, chunkSize: nat, maxChunks: nat) {
    MIN_INT64 <= minId <= maxId <= MAX_INT64 && 1 <= chunkSize <= MAX_INT64 && 1 <= maxChunks <= MAX_INT64
  }

  /**
   * The end of the last chunk is an int64, and so is the number of ids; or that number comes out
   * negative, but so little that it makes a single chunk.
   */
  predicate RangeFits(minId: int, maxId: int, chunkSize: nat) {
    maxId < MAX_INT64 && (maxId - minId < MAX_INT64 || 0x1_0000_0000_0000_0000 - (maxId - minId + 1) < chunkSize)
  }

  lemma QuotientBelow(total: nat, size: nat)
    requires size >= 1
    ensures 0 <= total / size <= total && (total / size == 0 <==> total < size)
  {
    if total < size {
      assert total / size == 0;
    } else {
      assert total == size * (total / size) + total % size;
    }
  }

  /** The number of ids as an int64, and what it makes of the number of chunks. */
  lemma CountedRange(minId: int, maxId: int, chunkSize: nat, maxChunks: nat)
    requires RangeInputs(minId, maxId, chunkSize, maxChunks)
    ensures var range := maxId - minId + 1;
            var total := Wrap(range);
            var count := ChunkCount(total, chunkSize, maxChunks);
            && count <= maxChunks && count != 0
            && (range <= MAX_INT64 ==> total == range && 1 <= count <= total)
            && (range > MAX_INT64 ==> total == range - 0x1_0000_0000_0000_0000 <= 0 && count <= 1)
            && (range > MAX_INT64 ==> (count == 1 <==> -total < chunkSize))
  {
    var range := maxId - minId + 1;
    if range <= MAX_INT64 {
      WrapsOnce(range);
      QuotientBelow(range, chunkSize);
    } else {
      Wrapped(range);
      QuotientBelow(0x1_0000_0000_0000_0000 - range, chunkSize);
    }
  }

  /** All but the last have the same width, and the last is wider by less than the number of chunks. */
  predicate EquallyWide(chunks: seq<Chunk>, total: int)
    requires chunks != []
  {
    var width := total / |chunks|;
    && (forall i | 0 <= i < |chunks| - 1 :: chunks[i].end - chunks[i].start == width)
    && width <= chunks[|chunks| - 1].end - chunks[|chunks| - 1].start < width + |chunks|
  }

  /** As many as whole chunk sizes fit the range, but at least one and at most the limit. */
  predicate IsWholeSizes(n: int, total: nat, chunkSize: nat, maxChunks: nat)
    requires chunkSize >= 1
  {
    var whole := total / chunkSize;
    n == if whole < 1 then 1 else if whole > maxChunks then maxChunks else whole
  }

  lemma CountIs(total: nat, chunkSize: nat, maxChunks: nat)
    requires chunkSize >= 1 && maxChunks >= 1
    ensures IsWholeSizes(ChunkCount(total, chunkSize, maxChunks), total, chunkSize, maxChunks)
    ensures total == 1 ==> IsWholeSizes(1, total, chunkSize, maxChunks)
  {
    if total == 1 {
      QuotientBelow(1, chunkSize);
    }
  }

  lemma Wrapped(v: int)
    requires MAX_INT64 < v <= 0x1_0000_0000_0000_0000
    ensures Wrap(v) == v - 0x1_0000_0000_0000_0000
  {
  }

  lemma StepFits(total: nat, n: nat)
    requires 1 <= n <= total
    ensures var step := total / n; step >= 1 && total == n * step + total % n && 0 <= total % n < n
  {
  }

  lemma Times(i: nat, step: nat)
    ensures (i + 1) * step == i * step + step
  {
  }

  lemma WithinRange(i: nat, n: nat, step: nat, total: nat)
    requires i <= n && total >= n * step
    ensures 0 <= i * step <= total
  {
    Monotone(i, n, step);
  }

  lemma Monotone(a: nat, b: nat, c: nat)
    requires a <= b
    ensures a * c <= b * c
  {
  }

  /** What the loop has made: the chunks so far of equal width, the last one up to behind the greatest id. */
  predicate RangesSoFar(chunks: seq<Chunk>, minId: int, maxId: int, step: nat, count: nat, i: nat)
    requires |chunks| == i
  {
    && (i < count ==> Chain(chunks, minId, minId + i * step))
    && (forall k | 0 <= k < i && k < count - 1 :: chunks[k].end - chunks[k].start == step)
    && (i == count > 0 ==> Chain(chunks, minId, maxId + 1) && step <= chunks[i - 1].end - chunks[i - 1].start < step + count)
  }

  lemma RangeAdded(chunks: seq<Chunk>, minId: int, maxId: int, step: nat, count: nat, i: nat)
    requires |chunks| == i < count && minId <= maxId && 1 <= count <= maxId - minId + 1 && step == (maxId - minId + 1) / count
    requires RangesSoFar(chunks, minId, maxId, step, count, i)
    ensures var last := Chunk(minId + i * step, if i == count - 1 then maxId + 1 else minId + (i + 1) * step);
            RangesSoFar(chunks + [last], minId, maxId, step, count, i + 1)
  {
    StepFits(maxId - minId + 1, count);
    Times(i, step);
    hide Chain;
    if i == count - 1 {
      Remainder(maxId - minId + 1, count, step, i);
      ChainExtended(chunks, minId, minId + i * step, maxId + 1);
    } else {
      ChainExtended(chunks, minId, minId + i * step, minId + (i + 1) * step);
    }
  }

  /** In int64 the starts and ends are what they should be, but for the end of the last chunk. */
  lemma EndsWithin(minId: int, maxId: int, step: nat, count: nat, i: nat)
    requires MIN_INT64 <= minId <= maxId <= MAX_INT64 && maxId - minId < MAX_INT64 && i < count <= maxId - minId + 1
    requires step == (maxId - minId + 1) / count
    ensures Wrap(minId + Wrap(i * step)) == minId + i * step
    ensures i < count - 1 ==> Wrap(minId + Wrap((i + 1) * step)) == minId + (i + 1) * step
  {
    StepFits(maxId - minId + 1, count);
    WithinRange(i, count, step, maxId - minId + 1);
    WithinRange(i + 1, count, step, maxId - minId + 1);
    Times(i, step);
    WrapsOnce(i * step);
    WrapsOnce((i + 1) * step);
    if i < count - 1 {
      Monotone(i + 2, count, step);
      Times(i + 1, step);
      WrapsOnce(minId + (i + 1) * step);
    }
    Monotone(i + 1, count, step);
    WrapsOnce(minId + i * step);
  }

  /**
   * The chunks, computed in int64, run from the least id to just behind the greatest if and only if
   * the range fits; then all but the last have the same width, and the last is wider by less than
   * the number of chunks. There are as many as whole chunk sizes fit the range, but at least one and
   * at most the limit.
   */
  method CreateIdBasedChunks(minId: int, maxId: int, chunkSize: nat, maxChunks: nat) returns (chunks: seq<Chunk>)
    requires RangeInputs(minId, maxId, chunkSize, maxChunks)
    ensures Chain(chunks, minId, maxId + 1) <==> RangeFits(minId, maxId, chunkSize)
    ensures RangeFits(minId, maxId, chunkSize) ==> 1 <= |chunks| <= maxChunks
    ensures maxId - minId < MAX_INT64 ==> IsWholeSizes(|chunks|, maxId - minId + 1, chunkSize, maxChunks)
    ensures RangeFits(minId, maxId, chunkSize) ==> chunks != [] && EquallyWide(chunks, maxId + 1 - minId)
  {
    hide Chain, RangesSoFar, Wrap, Quotient, ChunkCount, IsWholeSizes, EquallyWide;
    WrapsOnce(maxId + 1);
    if minId == maxId {
      chunks := [Chunk(minId, Wrap(maxId + 1))];
      OneChunk(chunks[0], minId, maxId + 1);
      CountIs(1, chunkSize, maxChunks);
      return;
    }
    var totalRange := Wrap(maxId - minId + 1);
    var chunkCount := ChunkCount(totalRange, chunkSize, maxChunks);
    CountedRange(minId, maxId, chunkSize, maxChunks);
    CountIs(maxId - minId + 1, chunkSize, maxChunks);
    var step := Wrap(Quotient(totalRange, chunkCount));
    ghost var whole := maxId - minId < MAX_INT64;
    if whole {
      StepWithin(totalRange, chunkCount);
    }
    chunks := [];
    var i := 0;
    if whole && maxId < MAX_INT64 {
      NoRangesYet(minId, maxId, step, chunkCount);
    }
    while i < chunkCount
      invariant 0 <= i == |chunks| && if chunkCount > 0 then i <= chunkCount else i == 0
      invariant whole && maxId < MAX_INT64 ==> RangesSoFar(chunks, minId, maxId, step, chunkCount, i)
      invariant chunkCount == i ==> chunks[i - 1].end == Wrap(maxId + 1)
      invariant !whole && i == 1 ==> chunks == [Chunk(minId, Wrap(maxId + 1))]
    {
      var startId, endId := Wrap(minId + Wrap(i * step)), Wrap(minId + Wrap((i + 1) * step));
      if whole {
        EndsWithin(minId, maxId, step, chunkCount, i);
      } else {
        StartsAtLeast(minId, i, step);
      }
      if i == chunkCount - 1 {
        endId := Wrap(maxId + 1);
      }
      if whole && maxId < MAX_INT64 {
        RangeAdded(chunks, minId, maxId, step, chunkCount, i);
      }
      chunks := chunks + [Chunk(startId, endId)];
      i := i + 1;
    }
    if whole && maxId < MAX_INT64 {
      RangesDone(chunks, minId, maxId, step, chunkCount);
    } else if chunkCount < 0 {
      NoChunks(minId, maxId + 1);
    } else if whole {
      EndsAt(chunks, minId, maxId + 1);
    } else {
      OneChunk(chunks[0], minId, maxId + 1);
    }
  }

  lemma StepWithin(total: nat, count: nat)
    requires 1 <= count <= total <= MAX_INT64
    ensures Wrap(Quotient(total, count)) == total / count
  {
    QuotientBelow(total, count);
    WrapsOnce(total / count);
  }

  lemma StartsAtLeast(minId: int, i: int, step: int)
    requires MIN_INT64 <= minId <= MAX_INT64
    ensures i == 0 ==> Wrap(minId + Wrap(i * step)) == minId
  {
    if i == 0 {
      assert i * step == 0;
      WrapsOnce(0);
      WrapsOnce(minId);
    }
  }

  lemma NoRangesYet(minId: int, maxId: int, step: nat, count: nat)
    requires count > 0
    ensures RangesSoFar([], minId, maxId, step, count, 0)
  {
    assert minId + 0 * step == minId;
  }

  lemma RangesDone(chunks: seq<Chunk>, minId: int, maxId: int, step: nat, count: nat)
    requires |chunks| == count > 0 && RangesSoFar(chunks, minId, maxId, step, count, count) && step == (maxId + 1 - minId) / count
    ensures Chain(chunks, minId, maxId + 1) && EquallyWide(chunks, maxId + 1 - minId)
  {
    hide Chain;
  }

  lemma OneChunk(chunk: Chunk, a: int, b: int)
    requires a < b && chunk.start == a
    ensures Chain([chunk], a, b) <==> chunk.end == b
    ensures chunk.end == b ==> EquallyWide([chunk], b - a)
  {
    assert [chunk][..0] == [];
  }

  lemma EndsAt(chunks: seq<Chunk>, a: int, b: int)
    requires chunks != []
    ensures Chain(chunks, a, b) ==> chunks[|chunks| - 1].end == b
  {
  }

  lemma NoChunks(a: int, b: int)
    ensures Chain([], a, b) <==> a == b
  {
  }

  lemma EmptyChain(a: int)
    ensures Chain([], a, a)
  {
  }

  lemma Remainder(total: nat, n: nat, step: nat, i: nat)
    requires 1 <= n && i == n - 1 && total == n * step + total % n
    ensures total - i * step == step + total % n
  {
    Times(i, step);
  }

  // ---------------------------------------------------------------- a stride of ids

  /** The loop of the PostgreSQL and MongoDB adapters: the chunks so far and the next start. */
  datatype Stride = Stride(chunks: seq<Chunk>, next: int)

  /** The loop after `n` rounds, or where it has stopped before; its sums are those of int64. */
  function StrideRounds(minId: int, maxId: int, chunkSize: int, n: nat): Stride {
    if n == 0 then Stride([], minId)
    else
      var s := StrideRounds(minId, maxId, chunkSize, n - 1);
      if s.next > maxId then s
      else
        var endId := Wrap(s.next + chunkSize - 1);
        Stride(s.chunks + [Chunk(s.next, (if endId > maxId then maxId else endId) + 1)], Wrap(s.next + chunkSize))
  }

  /** After `n` rounds the loop has stopped, with chunks from the least to the greatest id. */
  predicate Partitioned(minId: int, maxId: int, chunkSize: int, n: nat) {
    var s := StrideRounds(minId, maxId, chunkSize, n);
    s.next > maxId && Chain(s.chunks, minId, maxId + 1)
  }

  /** The number of chunks that it takes. */
  function StrideCount(minId: int, maxId: int, chunkSize: nat): (n: nat)
    requires minId <= maxId && chunkSize >= 1
    ensures n >= 1
  {
    (maxId - minId) / chunkSize + 1
  }

  predicate StrideInputs(minId: int, maxId: int, chunkSize: nat) {
    MIN_INT64 <= minId <= maxId <= MAX_INT64 && 1 <= chunkSize <= MAX_INT64
  }

  lemma CountedRounds(minId: int, maxId: int, chunkSize: nat, n: nat)
    requires minId <= maxId && chunkSize >= 1
    ensures n < StrideCount(minId, maxId, chunkSize) <==> minId + n * chunkSize <= maxId
  {
    var range := maxId - minId;
    var q := range / chunkSize;
    assert range == chunkSize * q + range % chunkSize;
    if n <= q {
      Monotone(n, q, chunkSize);
    } else {
      Monotone(q + 1, n, chunkSize);
      Times(q, chunkSize);
    }
  }

  lemma {:induction false} StrideStarts(minId: int, maxId: int, chunkSize: nat, n: nat)
    requires StrideInputs(minId, maxId, chunkSize) && n < StrideCount(minId, maxId, chunkSize)
    ensures var s := StrideRounds(minId, maxId, chunkSize, n);
            && s.next == minId + n * chunkSize <= maxId && Chain(s.chunks, minId, s.next)
            && forall i | 0 <= i < |s.chunks| :: s.chunks[i].end - s.chunks[i].start == chunkSize
    decreases n
  {
    hide Chain, Wrap, StrideCount;
    if n == 0 {
      EmptyChain(minId);
    } else {
      CountedRounds(minId, maxId, chunkSize, n);
      StrideStarts(minId, maxId, chunkSize, n - 1);
      var s := StrideRounds(minId, maxId, chunkSize, n - 1);
      Times(n - 1, chunkSize);
      WrapsOnce(s.next + chunkSize - 1);
      WrapsOnce(s.next + chunkSize);
      ChainExtended(s.chunks, minId, s.next, s.next + chunkSize);
    }
  }

  /** What the last round of a partition makes, with and without an overflow. */
  lemma LastRound(minId: int, maxId: int, chunkSize: nat) returns (s: Stride, last: Chunk, t: Stride)
    requires StrideInputs(minId, maxId, chunkSize)
    ensures s == StrideRounds(minId, maxId, chunkSize, StrideCount(minId, maxId, chunkSize) - 1)
    ensures t == StrideRounds(minId, maxId, chunkSize, StrideCount(minId, maxId, chunkSize))
    ensures t.chunks == s.chunks + [last] && last.start == s.next && Chain(s.chunks, minId, s.next)
    ensures forall i | 0 <= i < |s.chunks| :: s.chunks[i].end - s.chunks[i].start == chunkSize
    ensures s.next <= maxId < s.next + chunkSize == minId + StrideCount(minId, maxId, chunkSize) * chunkSize
    ensures s.next + chunkSize <= MAX_INT64 ==> last.end == maxId + 1 <= t.next
    ensures s.next + chunkSize > MAX_INT64 ==> t.next <= maxId && !(last.start < last.end == t.next)
  {
    hide Chain, Wrap, StrideCount;
    var n := StrideCount(minId, maxId, chunkSize);
    StrideStarts(minId, maxId, chunkSize, n - 1);
    CountedRounds(minId, maxId, chunkSize, n);
    s, t := StrideRounds(minId, maxId, chunkSize, n - 1), StrideRounds(minId, maxId, chunkSize, n);
    var endId := Wrap(s.next + chunkSize - 1);
    last := Chunk(s.next, (if endId > maxId then maxId else endId) + 1);
    assert t == Stride(s.chunks + [last], Wrap(s.next + chunkSize));
    hide StrideRounds;
    Times(n - 1, chunkSize);
    WrapsOnce(s.next + chunkSize - 1);
    WrapsOnce(s.next + chunkSize);
  }

  /** Adding chunks to a list that is no chain never makes it one. */
  lemma {:induction false} ChainBefore(minId: int, maxId: int, chunkSize: int, k: nat, m: nat, b: int) returns (b': int)
    requires k <= m && Chain(StrideRounds(minId, maxId, chunkSize, m).chunks, minId, b)
    ensures Chain(StrideRounds(minId, maxId, chunkSize, k).chunks, minId, b')
    decreases m
  {
    hide Wrap;
    b' := b;
    if k < m {
      var s, t := StrideRounds(minId, maxId, chunkSize, m - 1), StrideRounds(minId, maxId, chunkSize, m);
      if s.next <= maxId {
        assert t.chunks[..|t.chunks| - 1] == s.chunks;
        b' := ChainBefore(minId, maxId, chunkSize, k, m - 1, s.next);
      } else {
        b' := ChainBefore(minId, maxId, chunkSize, k, m - 1, b);
      }
    }
  }

  /**
   * The loop in int64: after some number of rounds it has stopped with chunks from the least to
   * the greatest id exactly when the sum of the least id and all the strides does not overflow,
   * and then after as many rounds as the range has strides.
   */
  lemma StrideExactly(minId: int, maxId: int, chunkSize: nat)
    requires StrideInputs(minId, maxId, chunkSize)
    ensures var n := StrideCount(minId, maxId, chunkSize);
            && (Partitioned(minId, maxId, chunkSize, n) <==> minId + n * chunkSize <= MAX_INT64)
            && ((exists m: nat :: Partitioned(minId, maxId, chunkSize, m)) <==> minId + n * chunkSize <= MAX_INT64)
  {
    var n := StrideCount(minId, maxId, chunkSize);
    var s, last, t := LastRound(minId, maxId, chunkSize);
    hide Chain, Wrap, StrideCount, StrideRounds;
    assert t.chunks[..|s.chunks|] == s.chunks;
    if minId + n * chunkSize <= MAX_INT64 {
      LastLink(t.chunks, minId, maxId + 1);
    } else {
      forall m: nat | Partitioned(minId, maxId, chunkSize, m) ensures false {
        Overflown(minId, maxId, chunkSize, m);
      }
    }
  }

  lemma LastLink(chunks: seq<Chunk>, a: int, b: int)
    requires chunks != []
    ensures var last := chunks[|chunks| - 1];
            Chain(chunks, a, b) <==> last.start < last.end == b && Chain(chunks[..|chunks| - 1], a, last.start)
  {
  }

  lemma Overflown(minId: int, maxId: int, chunkSize: nat, m: nat)
    requires StrideInputs(minId, maxId, chunkSize) && minId + StrideCount(minId, maxId, chunkSize) * chunkSize > MAX_INT64
    ensures !Partitioned(minId, maxId, chunkSize, m)
  {
    hide Chain, Wrap, StrideCount;
    var n := StrideCount(minId, maxId, chunkSize);
    var s, last, t := LastRound(minId, maxId, chunkSize);
    var u := StrideRounds(minId, maxId, chunkSize, n + 1);
    if Partitioned(minId, maxId, chunkSize, m) {
      if m <= n {
        StrideGoesOn(minId, maxId, chunkSize, m, n);
      } else {
        var b := ChainBefore(minId, maxId, chunkSize, n + 1, m, maxId + 1);
        LastLink(u.chunks, minId, b);
        assert u.chunks[..|t.chunks|] == t.chunks;
        LastLink(t.chunks, minId, t.next);
      }
    }
  }

  lemma {:induction false} StrideGoesOn(minId: int, maxId: int, chunkSize: int, k: nat, m: nat)
    requires k <= m && StrideRounds(minId, maxId, chunkSize, m).next <= maxId
    ensures StrideRounds(minId, maxId, chunkSize, k).next <= maxId
    decreases m
  {
    if k < m {
      StrideGoesOn(minId, maxId, chunkSize, k, m - 1);
    }
  }

  /** The loop itself, where it stops with a partition. */
  method CreateStrideChunks(minId: int, maxId: int, chunkSize: nat) returns (chunks: seq<Chunk>)
    requires minId <= maxId ==>
      StrideInputs(minId, maxId, chunkSize) && minId + StrideCount(minId, maxId, chunkSize) * chunkSize <= MAX_INT64
    ensures minId <= maxId ==> Chain(chunks, minId, maxId + 1) && |chunks| == StrideCount(minId, maxId, chunkSize)
    ensures minId > maxId ==> chunks == []
    ensures forall i | 0 <= i < |chunks| - 1 :: chunks[i].end - chunks[i].start == chunkSize
    ensures forall i | 0 <= i < |chunks| :: chunks[i].end - chunks[i].start <= chunkSize
  {
    hide Chain, Wrap, StrideCount;
    chunks := [];
    ghost var n, count := 0, if minId <= maxId then StrideCount(minId, maxId, chunkSize) else 0;
    var startId := minId;
    while startId <= maxId
      invariant n <= count && |chunks| == n && Stride(chunks, startId) == StrideRounds(minId, maxId, chunkSize, n)
      invariant startId <= maxId ==> n < count
      invariant minId > maxId ==> startId == minId
      decreases count - n
    {
      var endId := Wrap(startId + chunkSize - 1);
      if endId > maxId {
        endId := maxId;
      }
      chunks := chunks + [Chunk(startId, endId + 1)];
      startId := Wrap(startId + chunkSize);
      n := n + 1;
      if n == count {
        var s, last, t := LastRound(minId, maxId, chunkSize);
      }
    }
    if minId <= maxId {
      assert n == count by {
        if n < count {
          StrideStarts(minId, maxId, chunkSize, n);
        }
      }
      var s, last, t := LastRound(minId, maxId, chunkSize);
      assert chunks[..|s.chunks|] == s.chunks;
      LastLink(chunks, minId, maxId + 1);
    }
  }

  // ---------------------------------------------------------------- positions

  /** skip and limit on a sorted collection. */
  function Page<T>(docs: seq<T>, skip: nat, limit: nat): seq<T> {
    var from := if skip <= |docs| then skip else |docs|;
    docs[from..if from + limit <= |docs| then from + limit else |docs|]
  }

  function Pages<T>(docs: seq<T>, n: nat, size: nat): seq<T> {
    if n == 0 then [] else Pages(docs, n - 1, size) + Page(docs, (n - 1) * size, size)
  }

  /** The number of skip/limit chunks for an estimated number of documents. */
  function PageCount(estimated: nat, size: nat): nat
    requires size >= 1
  {
    (estimated + size - 1) / size
  }

  /** The first `n` documents, or all if there are fewer. */
  function Front<T>(docs: seq<T>, n: nat): seq<T> {
    if n <= |docs| then docs[..n] else docs
  }

  lemma OnePageMore<T>(docs: seq<T>, from: nat, size: nat)
    ensures Front(docs, from) + Page(docs, from, size) == Front(docs, from + size)
  {
  }

  lemma {:induction false} PagesCover<T>(docs: seq<T>, n: nat, size: nat)
    ensures n * size >= 0 && Pages(docs, n, size) == Front(docs, n * size)
  {
    if n > 0 {
      hide Page, Front;
      PagesCover(docs, n - 1, size);
      Times(n - 1, size);
      OnePageMore(docs, (n - 1) * size, size);
    }
  }

  /** The pages are the whole collection exactly when it has no more documents than the pages have places. */
  lemma PagesAreAllExactly<T>(docs: seq<T>, estimated: nat, size: nat)
    requires size >= 1
    ensures Pages(docs, PageCount(estimated, size), size) == docs <==> |docs| <= PageCount(estimated, size) * size
    ensures |docs| <= estimated ==> Pages(docs, PageCount(estimated, size), size) == docs
  {
    var n := PageCount(estimated, size);
    PagesCover(docs, n, size);
    assert docs[..|docs|] == docs;
    RoundedUp(estimated, size);
  }

  lemma RoundedUp(estimated: nat, size: nat)
    requires size >= 1
    ensures estimated <= PageCount(estimated, size) * size < estimated + size
  {
    var v := estimated + size - 1;
    assert v == size * (v / size) + v % size;
  }

  // ---------------------------------------------------------------- batches of records

  function Flatten<T>(batches: seq<seq<T>>): seq<T> {
    if batches == [] then [] else Flatten(batches[..|batches| - 1]) + batches[|batches| - 1]
  }

  /** The rows of a chunk go out in batches of `size`, in order and without loss; only the last may be smaller. */
  method SendInBatches<T>(rows: seq<T>, size: nat) returns (sent: seq<seq<T>>)
    requires size >= 1
    ensures Flatten(sent) == rows
    ensures forall i | 0 <= i < |sent| - 1 :: |sent[i]| == size
    ensures sent != [] ==> 1 <= |sent[|sent| - 1]| <= size
  {
    sent := [];
    var batch: seq<T> := [];
    for i := 0 to |rows|
      invariant Flatten(sent) + batch == rows[..i] && |batch| < size
      invariant forall k | 0 <= k < |sent| :: |sent[k]| == size
    {
      batch := batch + [rows[i]];
      assert Flatten(sent) + batch == rows[..i + 1];
      if |batch| >= size {
        Flattened(sent, batch);
        sent, batch := sent + [batch], [];
      }
    }
    if |batch| > 0 {
      Flattened(sent, batch);
      sent := sent + [batch];
    }
  }

  lemma Flattened<T>(sent: seq<seq<T>>, batch: seq<T>)
    ensures Flatten(sent + [batch]) == Flatten(sent) + batch
  {
    assert (sent + [batch])[..|sent|] == sent;
  }

  // ---------------------------------------------------------------- the plan of the handoff

  /** A chain of chunks, for rows whose key stands for an id, as a plan for the snapshot. */
  function PlanOf(chunks: seq<Chunk>, idOf: Key -> int): Plan {
    Plan(|chunks|, (k: Key) => ChunkOf(chunks, idOf(k)))
  }

  /** Chunks that run from the least to the greatest id of a table make a plan the handoff may start from. */
  lemma ChunksMakeAPlan(chunks: seq<Chunk>, idOf: Key -> int, j: Job, minId: int, maxId: int)
    requires Chain(chunks, minId, maxId + 1) && KeysStay(j.src.log) && Ordered(j)
    requires j.mode.Snapshotting? && j.inFlight == map[] && j.done == {} && j.buffers == EMPTY
    requires j.slot == j.lo == j.pos <= j.far == |j.src.log| && j.confirmed <= j.slotLsn
    requires forall k | k in TableAt(j.src, |j.src.log|) :: minId <= idOf(k) <= maxId
    ensures Initial(PlanOf(chunks, idOf), j)
  {
    hide Chain, ChunkOf, TableAt, KeysStay, Ordered;
    var plan := PlanOf(chunks, idOf);
    forall k ensures plan.owner(k).Some? ==> plan.owner(k).value < plan.count {
      var _ := ChunkOf(chunks, idOf(k));
    }
    forall k | ValueAt(j.src, |j.src.log|, k).Some? ensures plan.owner(k).Some? {
      assert k in TableAt(j.src, |j.src.log|);
      ExactlyOneChunk(chunks, minId, maxId + 1, idOf(k));
    }
  }
}
