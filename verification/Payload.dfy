/**
The layout of a payload: where the data, the offsets array and the scatter-gather area sit, and
where each scatter-gather buffer lands in the receiver (kext/binder_txn.c:428-449 and 499-550).
All arithmetic is uint64_t, and every length comes from the client.
*/
module Payload {
  import opened Common
  import opened Arena
  import opened ArenaRuns

  /** BINDER_MAX_TRANSACTION_SIZE. */
  const MAX_PAYLOAD: nat := 1024 * 1024

  function OffArea(data: U64): U64 { Align(data) }

  function SgArea(data: U64, offs: U64): U64 { Plus(OffArea(data), Align(offs)) }

  function Total(data: U64, offs: U64, extra: U64): U64 { Plus(SgArea(data, offs), Align(extra)) }

  /** The bounds checks of binder_transaction. */
  predicate Accepted(data: U64, offs: U64, extra: U64) {
    && data <= MAX_PAYLOAD && offs <= MAX_PAYLOAD && extra <= MAX_PAYLOAD && offs % 8 == 0
    && Total(data, offs, extra) != 0 && Total(data, offs, extra) <= MAX_PAYLOAD
  }

  /** Rounding up without a word size. */
  function RoundUp(x: nat): (r: nat)
    ensures r % 8 == 0 && x <= r < x + 8
  {
    (x + 7) / 8 * 8
  }

  lemma AlignIsRoundUp(x: U64)
    requires x <= MAX_PAYLOAD
    ensures Align(x) == RoundUp(x)
  {}

  lemma PlusIsSum(a: U64, b: U64)
    requires a + b < WRAP
    ensures Plus(a, b) == a + b
  {}

  /** Sizes within bounds do not wrap. */
  lemma TotalIs(data: U64, offs: U64, extra: U64)
    requires data <= MAX_PAYLOAD && offs <= MAX_PAYLOAD && extra <= MAX_PAYLOAD
    ensures OffArea(data) == RoundUp(data) && SgArea(data, offs) == RoundUp(data) + RoundUp(offs)
    ensures Total(data, offs, extra) == RoundUp(data) + RoundUp(offs) + RoundUp(extra)
  {
    AlignIsRoundUp(data);
    AlignIsRoundUp(offs);
    AlignIsRoundUp(extra);
    PlusIsSum(OffArea(data), Align(offs));
    PlusIsSum(SgArea(data, offs), Align(extra));
  }

  /** What the checks admit, in unbounded arithmetic: no client-supplied size gets past them by wrapping. */
  lemma AcceptedMeans(data: U64, offs: U64, extra: U64)
    ensures Accepted(data, offs, extra) <==>
      (offs % 8 == 0 && 0 < RoundUp(data) + RoundUp(offs) + RoundUp(extra) <= MAX_PAYLOAD)
  {
    if data <= MAX_PAYLOAD && offs <= MAX_PAYLOAD && extra <= MAX_PAYLOAD { TotalIs(data, offs, extra); }
  }

  /** The three areas are disjoint, in order, aligned, and fill the kernel copy, whose size is
      exactly what the allocator is asked for. */
  lemma AreasDisjoint(data: U64, offs: U64, extra: U64)
    requires Accepted(data, offs, extra)
    ensures data <= OffArea(data) && OffArea(data) + offs <= SgArea(data, offs)
    ensures SgArea(data, offs) + extra <= SgArea(data, offs) + Align(extra) == Total(data, offs, extra)
    ensures OffArea(data) % 8 == 0 && SgArea(data, offs) % 8 == 0 && Align(extra) % 8 == 0
    ensures Total(data, offs, extra) == NeedFor(data, offs, extra)
  {
    TotalIs(data, offs, extra);
    AlignIsRoundUp(extra);
  }

  // ---------------------------------------------------------------- scatter-gather buffers

  /** Bytes used in the third area by the buffers placed so far. */
  function Used(lengths: seq<U64>): nat {
    if lengths == [] then 0 else Used(lengths[..|lengths| - 1]) + RoundUp(lengths[|lengths| - 1])
  }

  /** When a parcel's parentless buffers all find room. */
  predicate Room(lengths: seq<U64>, extra: U64) {
    (forall i | 0 <= i < |lengths| :: lengths[i] <= extra) && Used(lengths) <= RoundUp(extra)
  }

  lemma {:induction false} UsedGrows(lengths: seq<U64>, i: nat, j: nat)
    requires i <= j <= |lengths|
    ensures Used(lengths[..i]) <= Used(lengths[..j])
    ensures i < j ==> Used(lengths[..i]) + RoundUp(lengths[i]) <= Used(lengths[..j])
    decreases j - i
  {
    if i < j {
      UsedGrows(lengths, i, j - 1);
      assert lengths[..j][..j - 1] == lengths[..j - 1];
    }
  }

  lemma {:induction false} UsedAligned(lengths: seq<U64>)
    ensures Used(lengths) % 8 == 0
  {
    if lengths != [] { UsedAligned(lengths[..|lengths| - 1]); }
  }

  /** Where the `i`-th scatter-gather buffer is written, as an offset into the payload. */
  function Slot(sgArea: nat, lengths: seq<U64>, i: nat): nat
    requires i <= |lengths|
  {
    sgArea + Used(lengths[..i])
  }

  /** The walk over a parcel's scatter-gather objects: each either gets the next aligned stretch
      of the third area or fails the whole transaction. */
  method PlaceBuffers(sgArea: U64, extra: U64, uaddr: U64, lengths: seq<U64>)
    returns (ok: bool, pointers: seq<U64>)
    requires extra <= MAX_PAYLOAD && uaddr + sgArea + RoundUp(extra) < WRAP
    ensures ok <==> Room(lengths, extra)
    ensures ok ==> |pointers| == |lengths|
    ensures ok ==> forall i | 0 <= i < |lengths| :: pointers[i] == uaddr + Slot(sgArea, lengths, i)
  {
    var sgUsed: U64 := 0;
    AlignIsRoundUp(extra);
    PlusIsSum(uaddr, sgArea);
    pointers := [];
    var i := 0;
    while i < |lengths|
      invariant i <= |lengths| && |pointers| == i
      invariant sgUsed == Used(lengths[..i]) <= RoundUp(extra)
      invariant forall k | 0 <= k < i :: lengths[k] <= extra
      invariant forall k | 0 <= k < i :: pointers[k] == uaddr + Slot(sgArea, lengths, k)
    {
      var need := Align(lengths[i]);
      assert lengths[..i + 1][..i] == lengths[..i];
      if lengths[i] > extra {
        return false, [];
      }
      AlignIsRoundUp(lengths[i]);
      PlusIsSum(sgUsed, need);
      if Plus(sgUsed, need) > Align(extra) {
        UsedGrows(lengths, i + 1, |lengths|);
        assert lengths[..|lengths|] == lengths;
        return false, [];
      }
      PlusIsSum(uaddr + sgArea, sgUsed);
      pointers := pointers + [Plus(Plus(uaddr, sgArea), sgUsed)];
      sgUsed := Plus(sgUsed, need);
      i := i + 1;
    }
    assert lengths[..|lengths|] == lengths;
    ok := true;
  }

  /** A placed buffer stays inside the third area. */
  lemma BufferInArea(sgArea: nat, extra: U64, lengths: seq<U64>, i: nat)
    requires Room(lengths, extra) && i < |lengths|
    ensures sgArea <= Slot(sgArea, lengths, i) && Slot(sgArea, lengths, i) + lengths[i] <= sgArea + RoundUp(extra)
  {
    UsedGrows(lengths, i, |lengths|);
    assert lengths[..|lengths|] == lengths;
  }

  /** Placed buffers never overlap. */
  lemma BuffersDisjoint(sgArea: nat, lengths: seq<U64>, i: nat, j: nat)
    requires i < j < |lengths|
    ensures Slot(sgArea, lengths, i) + lengths[i] <= Slot(sgArea, lengths, j)
  {
    UsedGrows(lengths, i, j);
  }

  /** Placed buffers are aligned. */
  lemma BuffersAligned(sgArea: nat, lengths: seq<U64>, i: nat)
    requires sgArea % 8 == 0 && i <= |lengths|
    ensures Slot(sgArea, lengths, i) % 8 == 0
  {
    UsedAligned(lengths[..i]);
  }

  /** Nothing is wasted: the first buffer is at the start of the area, and each next one (or the end of the used part)
      is at the first aligned address behind the one before, so less than 8 bytes lie between. */
  lemma BuffersTight(sgArea: nat, lengths: seq<U64>, i: nat)
    requires sgArea % 8 == 0 && i < |lengths|
    ensures Slot(sgArea, lengths, 0) == sgArea
    ensures Slot(sgArea, lengths, i) + lengths[i] <= Slot(sgArea, lengths, i + 1) < Slot(sgArea, lengths, i) + lengths[i] + 8
    ensures forall x | x % 8 == 0 && Slot(sgArea, lengths, i) + lengths[i] <= x :: Slot(sgArea, lengths, i + 1) <= x
  {
    assert lengths[..i + 1][..i] == lengths[..i];
    BuffersAligned(sgArea, lengths, i + 1);
  }

  /** What PlaceBuffers asks of the address is so of every payload that got a buffer: its areas end inside the arena,
      and the arena ends inside the address space. */
  lemma PayloadFits(st: ArenaState, data: U64, offs: U64, extra: U64, isAsync: bool, record: bool)
    requires Inv(st) && Accepted(data, offs, extra)
    requires AllocStep(st, NeedFor(data, offs, extra), isAsync, record).1.Some?
    ensures var uaddr := st.addr + AllocStep(st, NeedFor(data, offs, extra), isAsync, record).1.value;
      extra <= MAX_PAYLOAD && uaddr + SgArea(data, offs) + RoundUp(extra) <= st.addr + st.size < WRAP
  {
    NeedAligned(data, offs, extra);
    AllocRefines(st, NeedFor(data, offs, extra), isAsync, record);
    AreasDisjoint(data, offs, extra);
    AlignIsRoundUp(extra);
  }

  /** The pointers handed to the receiver lie in bytes the arena holds for this very payload. */
  lemma PointersInOwnExtent(st: ArenaState, data: U64, offs: U64, extra: U64, isAsync: bool, record: bool,
                            lengths: seq<U64>, i: nat, b: nat)
    requires Inv(st) && Accepted(data, offs, extra) && Room(lengths, extra) && i < |lengths|
    requires AllocStep(st, NeedFor(data, offs, extra), isAsync, record).1.Some?
    requires b < lengths[i]
    ensures var (st', r) := AllocStep(st, NeedFor(data, offs, extra), isAsync, record);
      Owner(st'.buffers, r.value + Slot(SgArea(data, offs), lengths, i) + b) == Some(r.value)
  {
    var need := NeedFor(data, offs, extra);
    NeedAligned(data, offs, extra);
    AllocRefines(st, need, isAsync, record);
    AreasDisjoint(data, offs, extra);
    UsedGrows(lengths, i, |lengths|);
    assert lengths[..|lengths|] == lengths;
  }
}
