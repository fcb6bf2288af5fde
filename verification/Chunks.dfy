/** Block slicing of the deposit poller (pkg/ethereum/client.go). */
module Chunks {
  import opened Arith

  const MAX_UINT64: int := 0xFFFF_FFFF_FFFF_FFFF

  /** Go's uint64. Arithmetic that would wrap in Go is a verification error here. */
  newtype uint64 = x: int | 0 <= x <= 0xFFFF_FFFF_FFFF_FFFF

  /** An inclusive span of block numbers. */
  datatype BlockRange = BlockRange(start: uint64, end: uint64) {
    ghost function Size(): int {
      end as int - start as int + 1
    }

    ghost predicate Covers(b: int) {
      start as int <= b <= end as int
    }
  }

  /**
   * `chunks` cuts [start, end] into consecutive slices: each ends right before
   * the next begins, all but the last hold exactly `maxRange` blocks, and the
   * last holds between one and `maxRange`.
   */
  ghost predicate IsPartition(chunks: seq<BlockRange>, start: int, end: int, maxRange: int) {
    && |chunks| > 0
    && chunks[0].start as int == start
    && chunks[|chunks| - 1].end as int == end
    && 1 <= chunks[|chunks| - 1].Size() <= maxRange
    && (forall i :: 0 <= i < |chunks| - 1 ==> chunks[i].Size() == maxRange)
    && (forall i :: 1 <= i < |chunks| ==> chunks[i].start as int == chunks[i - 1].end as int + 1)
  }

  /** The loop of chunkRange. Every uint64 operation is proved not to wrap. */
  method ChunkRange(start: uint64, end: uint64, maxRange: uint64) returns (chunks: seq<BlockRange>)
    ensures chunks == [] <==> start > end || maxRange == 0
    ensures start <= end && maxRange > 0 ==> IsPartition(chunks, start as int, end as int, maxRange as int)
  {
    if start > end || maxRange == 0 {
      return [];
    }
    chunks := [];
    var s := start;
    while s <= end
      invariant start <= s
      invariant chunks == [] ==> s == start
      invariant chunks != [] ==>
          chunks[0].start == start && chunks[|chunks| - 1].end as int == s as int - 1
      invariant s as int <= end as int + 1
      invariant s <= end ==> forall i :: 0 <= i < |chunks| ==> chunks[i].Size() == maxRange as int
      invariant s > end ==> IsPartition(chunks, start as int, end as int, maxRange as int)
      invariant forall i :: 1 <= i < |chunks| ==> chunks[i].start as int == chunks[i - 1].end as int + 1
      decreases end as int - s as int
    {
      var e := end;
      if end - s >= maxRange {
        e := s + maxRange - 1;
      }
      chunks := chunks + [BlockRange(s, e)];
      if e == 0xFFFF_FFFF_FFFF_FFFF {
        break;
      }
      s := e + 1;
    }
  }

  /** Slice i of a partition starts i full slices after the beginning. */
  lemma {:induction false} SliceStart(chunks: seq<BlockRange>, start: int, end: int, maxRange: int, i: nat)
    requires IsPartition(chunks, start, end, maxRange) && i < |chunks|
    ensures chunks[i].start as int == start + i * maxRange
  {
    if i == 0 {
    } else {
      SliceStart(chunks, start, end, maxRange, i - 1);
      assert chunks[i - 1].Size() == maxRange;
      assert i * maxRange == (i - 1) * maxRange + maxRange;
    }
  }

  /** A partition has as many slices as the capacity the source reserves, counted in true integers. */
  lemma SliceCount(chunks: seq<BlockRange>, start: int, end: int, maxRange: int)
    requires IsPartition(chunks, start, end, maxRange)
    ensures maxRange > 0 && |chunks| == (end - start) / maxRange + 1
  {
    var last := |chunks| - 1;
    SliceStart(chunks, start, end, maxRange, last);
    QuotientFromRemainder(end - start, last, maxRange, chunks[last].Size() - 1);
  }

  /** The uint64 capacity hint is that count, except that it wraps to zero for single-block slices of all 2^64 blocks. */
  lemma CapacityHint(chunks: seq<BlockRange>, start: uint64, end: uint64, maxRange: uint64)
    requires IsPartition(chunks, start as int, end as int, maxRange as int)
    ensures ((end as int - start as int) / maxRange as int + 1) % (MAX_UINT64 + 1) == |chunks|
            <==> !(start == 0 && end as int == MAX_UINT64 && maxRange == 1)
  {
    SliceCount(chunks, start as int, end as int, maxRange as int);
    var n, d := end as int - start as int, maxRange as int;
    DivMod(n, d);
    if d >= 2 {
      if n / d >= MAX_UINT64 {
        MulMonotone(MAX_UINT64, n / d, d);
        MulMonotone(2, d, MAX_UINT64);
      }
    } else {
      QuotientFromRemainder(n, n, 1, 0);
    }
    HintWraps(n / d + 1);
  }

  lemma HintWraps(count: int)
    requires 1 <= count <= MAX_UINT64 + 1
    ensures count % (MAX_UINT64 + 1) == count <==> count <= MAX_UINT64
  {
  }

  /** Slices come in block order. */
  lemma {:induction false} SlicesOrdered(chunks: seq<BlockRange>, start: int, end: int, maxRange: int, i: nat, j: nat)
    requires IsPartition(chunks, start, end, maxRange) && i < j < |chunks|
    ensures chunks[i].end < chunks[j].start
    decreases j
  {
    if i < j - 1 {
      SlicesOrdered(chunks, start, end, maxRange, i, j - 1);
      assert chunks[j - 1].Size() == maxRange;
      SliceCount(chunks, start, end, maxRange);
    }
  }

  /** Every block of [start, end] lies in exactly one slice, and no other block lies in any. */
  lemma {:induction false} EachBlockInOneSlice(chunks: seq<BlockRange>, start: int, end: int, maxRange: int, b: int)
    requires IsPartition(chunks, start, end, maxRange)
    ensures (exists i :: 0 <= i < |chunks| && chunks[i].Covers(b)) <==> start <= b <= end
    ensures forall i, j :: 0 <= i < |chunks| && 0 <= j < |chunks| && chunks[i].Covers(b) && chunks[j].Covers(b) ==> i == j
  {
    forall i, j | 0 <= i < j < |chunks|
      ensures chunks[i].end < chunks[j].start
    {
      SlicesOrdered(chunks, start, end, maxRange, i, j);
    }
    SliceCount(chunks, start, end, maxRange);
    forall i | 0 <= i < |chunks|
      ensures start <= chunks[i].start as int && chunks[i].end as int <= end
    {
      if i > 0 { SlicesOrdered(chunks, start, end, maxRange, 0, i); }
      if i < |chunks| - 1 { SlicesOrdered(chunks, start, end, maxRange, i, |chunks| - 1); }
    }
    if start <= b <= end {
      var k := CoveringSlice(chunks, start, end, maxRange, b, |chunks| - 1);
    }
  }

  lemma {:induction false} CoveringSlice(chunks: seq<BlockRange>, start: int, end: int, maxRange: int, b: int, k: nat)
    returns (i: nat)
    requires IsPartition(chunks, start, end, maxRange) && k < |chunks|
    requires start <= b <= chunks[k].end as int
    ensures i < |chunks| && chunks[i].Covers(b)
  {
    if chunks[k].start as int <= b {
      i := k;
    } else {
      i := CoveringSlice(chunks, start, end, maxRange, b, k - 1);
    }
  }

  /** The partition is unique, so IsPartition says everything there is to say about chunkRange's result. */
  lemma {:induction false} PartitionUnique(a: seq<BlockRange>, b: seq<BlockRange>, start: int, end: int, maxRange: int)
    requires IsPartition(a, start, end, maxRange) && IsPartition(b, start, end, maxRange)
    ensures a == b
  {
    SliceCount(a, start, end, maxRange);
    SliceCount(b, start, end, maxRange);
    forall i | 0 <= i < |a|
      ensures a[i] == b[i]
    {
      SliceStart(a, start, end, maxRange, i);
      SliceStart(b, start, end, maxRange, i);
      if i < |a| - 1 {
        assert a[i].Size() == b[i].Size();
      }
    }
  }
}
