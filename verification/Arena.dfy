/**
The transaction arena of kext/binder_alloc.c: one offset-ordered list of buffers that covers
the region a client registered, with first-fit allocation, splitting and coalescing.

The list functions below (`FirstFit`, `Carve`, `Coalesce`) say what one allocation or one free
does to the list; `ArenaAllocator` in ArenaAllocator.dfy is the driver's imperative form.
*/
module Arena {
  import opened Common

  /** Remainders below this stay with the allocation as slack. */
  const MIN_SPLIT: nat := 32

  /** `need` is what the allocator was asked for: the aligned sum of the payload sizes the
      driver records, and what it charges to the asynchronous budget. */
  datatype Buffer = Buffer(offset: nat, size: nat, free: bool, isAsync: bool, need: nat)
  {
    function End(): nat { offset + size }
  }

  function NeedFor(dataSize: U64, offsetsSize: U64, extraSize: U64): U64 {
    Plus(Plus(Align(dataSize), Align(offsetsSize)), Align(extraSize))
  }

  /** A free buffer carries no payload description. */
  function FreeBuffer(offset: nat, size: nat): Buffer {
    Buffer(offset, size, true, false, 0)
  }

  // ---------------------------------------------------------------- the list invariant

  /** In order, without gap or overlap, over [0, total), in non-empty multiples of eight. */
  ghost predicate Tiles(bs: seq<Buffer>, total: nat) {
    && |bs| > 0
    && bs[0].offset == 0
    && bs[|bs| - 1].End() == total
    && (forall i | 0 <= i < |bs| :: bs[i].size > 0 && bs[i].size % 8 == 0 && bs[i].offset % 8 == 0)
    && (forall i, j | 0 <= i < |bs| && 0 <= j < |bs| && j == i + 1 :: bs[i].End() == bs[j].offset)
  }

  ghost predicate NoFreeNeighbours(bs: seq<Buffer>) {
    forall i, j | 0 <= i < |bs| && 0 <= j < |bs| && j == i + 1 :: !(bs[i].free && bs[j].free)
  }

  /** Free buffers describe no payload. */
  ghost predicate Blank(bs: seq<Buffer>) {
    forall i | 0 <= i < |bs| && bs[i].free :: bs[i] == FreeBuffer(bs[i].offset, bs[i].size)
  }

  ghost predicate ValidList(bs: seq<Buffer>, total: nat) {
    Tiles(bs, total) && NoFreeNeighbours(bs) && Blank(bs)
  }

  /** The live allocations, as the client sees them. */
  ghost function Live(bs: seq<Buffer>): set<Buffer> {
    set i | 0 <= i < |bs| && !bs[i].free :: bs[i]
  }

  /** Extents are separate, not just neighbouring ones. */
  lemma {:induction false} Ordered(bs: seq<Buffer>, total: nat, i: nat, j: nat)
    requires Tiles(bs, total)
    requires i < j < |bs|
    ensures bs[i].End() <= bs[j].offset
    decreases j - i
  {
    if i + 1 < j {
      Ordered(bs, total, i + 1, j);
      assert bs[i].End() == bs[i + 1].offset;
    }
  }

  lemma Bounded(bs: seq<Buffer>, total: nat, i: nat)
    requires Tiles(bs, total) && i < |bs|
    ensures bs[i].End() <= total
  {
    if i < |bs| - 1 { Ordered(bs, total, i, |bs| - 1); }
  }

  // ---------------------------------------------------------------- the byte map

  /** Who holds a byte: the start of the live extent around it, or nobody. */
  function Owner(bs: seq<Buffer>, b: nat): Option<nat> {
    if bs == [] then None
    else if b < bs[0].End() then (if bs[0].free then None else Some(bs[0].offset))
    else Owner(bs[1..], b)
  }

  /** The byte map agrees with the extent that contains the byte. */
  lemma {:induction false} OwnerAt(bs: seq<Buffer>, i: nat, b: nat)
    requires i < |bs| && bs[i].offset <= b < bs[i].End()
    requires forall k | 0 <= k < i :: bs[k].End() <= bs[i].offset
    ensures Owner(bs, b) == (if bs[i].free then None else Some(bs[i].offset))
  {
    if i > 0 { OwnerAt(bs[1..], i - 1, b); }
  }

  lemma OwnerIn(bs: seq<Buffer>, total: nat, i: nat, b: nat)
    requires Tiles(bs, total) && i < |bs| && bs[i].offset <= b < bs[i].End()
    ensures Owner(bs, b) == (if bs[i].free then None else Some(bs[i].offset))
  {
    forall k | 0 <= k < i ensures bs[k].End() <= bs[i].offset { Ordered(bs, total, k, i); }
    OwnerAt(bs, i, b);
  }

  /** Every byte of the arena lies in exactly one extent; this finds it. */
  lemma {:induction false} Locate(bs: seq<Buffer>, total: nat, b: nat) returns (i: nat)
    requires Tiles(bs, total) && b < total
    ensures i < |bs| && bs[i].offset <= b < bs[i].End()
  {
    i := 0;
    while bs[i].End() <= b
      invariant i < |bs| && bs[i].offset <= b
      decreases |bs| - i
    {
      assert i + 1 < |bs| ==> bs[i].End() == bs[i + 1].offset;
      i := i + 1;
    }
  }

  /** `n` bytes from `a` are inside the arena and held by nobody. */
  ghost predicate FreeRun(bs: seq<Buffer>, total: nat, a: nat, n: nat) {
    a + n <= total && forall b | a <= b < a + n :: Owner(bs, b) == None
  }

  /** A free run of bytes never straddles two buffers, because free neighbours are merged. */
  lemma {:induction false} RunInOneBuffer(bs: seq<Buffer>, total: nat, a: nat, n: nat) returns (i: nat)
    requires Tiles(bs, total) && NoFreeNeighbours(bs)
    requires n > 0 && FreeRun(bs, total, a, n)
    ensures i < |bs| && bs[i].free && bs[i].offset <= a && a + n <= bs[i].End()
  {
    i := Locate(bs, total, a);
    assert Owner(bs, a) == None;
    OwnerIn(bs, total, i, a);
    if bs[i].End() < a + n {
      var next := bs[i].End();
      assert Owner(bs, next) == None;
      if i + 1 < |bs| {
        assert bs[i + 1].offset == next;
        OwnerIn(bs, total, i + 1, next);
      }
      assert false;
    }
  }

  /** A free buffer is a free run. */
  lemma BufferIsRun(bs: seq<Buffer>, total: nat, i: nat, n: nat)
    requires Tiles(bs, total) && i < |bs| && bs[i].free && n <= bs[i].size
    ensures FreeRun(bs, total, bs[i].offset, n)
  {
    Bounded(bs, total, i);
    forall b | bs[i].offset <= b < bs[i].offset + n ensures Owner(bs, b) == None {
      OwnerIn(bs, total, i, b);
    }
  }

  // ---------------------------------------------------------------- allocation

  predicate Fits(b: Buffer, need: nat) { b.free && b.size >= need }

  /** The index of the first buffer that fits, or the length of the list. */
  function FirstFit(bs: seq<Buffer>, need: nat): (i: nat)
    ensures i <= |bs|
    ensures forall k | 0 <= k < i :: !Fits(bs[k], need)
    ensures i < |bs| ==> Fits(bs[i], need)
  {
    if bs == [] then 0
    else if Fits(bs[0], need) then 0
    else 1 + FirstFit(bs[1..], need)
  }

  predicate Splits(b: Buffer, need: nat) { b.size >= need + MIN_SPLIT }

  /** Take buffer `i` for an allocation, leaving a worthwhile remainder free behind it. */
  function Carve(bs: seq<Buffer>, i: nat, isAsync: bool, need: nat): seq<Buffer>
    requires i < |bs|
  {
    if Splits(bs[i], need) then
      bs[..i] + [Buffer(bs[i].offset, need, false, isAsync, need),
                 FreeBuffer(bs[i].offset + need, bs[i].size - need)] + bs[i + 1..]
    else
      bs[i := Buffer(bs[i].offset, bs[i].size, false, isAsync, need)]
  }

  /** The buffer an allocation hands out. */
  function Carved(bs: seq<Buffer>, i: nat, isAsync: bool, need: nat): Buffer
    requires i < |bs|
  {
    Carve(bs, i, isAsync, need)[i]
  }

  /** First fit over buffers is lowest fit over bytes, and it fails only when no run exists. */
  lemma LowestFit(bs: seq<Buffer>, total: nat, need: nat)
    requires Tiles(bs, total) && NoFreeNeighbours(bs) && need > 0
    ensures var i := FirstFit(bs, need);
      if i == |bs| then forall a :: !FreeRun(bs, total, a, need)
      else FreeRun(bs, total, bs[i].offset, need)
           && forall a | FreeRun(bs, total, a, need) :: bs[i].offset <= a
  {
    var i := FirstFit(bs, need);
    forall a | FreeRun(bs, total, a, need) ensures i < |bs| && bs[i].offset <= a {
      var k := RunInOneBuffer(bs, total, a, need);
      assert Fits(bs[k], need);
      if i < k { Ordered(bs, total, i, k); }
    }
    if i < |bs| { BufferIsRun(bs, total, i, need); }
  }

  /** A list cut at `i` and at `j` still tiles when the middle is replaced by a tiling of the same window. */
  lemma Splice(bs: seq<Buffer>, total: nat, i: nat, j: nat, ms: seq<Buffer>)
    requires Tiles(bs, total) && i < j <= |bs| && |ms| > 0
    requires ms[0].offset == bs[i].offset && ms[|ms| - 1].End() == bs[j - 1].End()
    requires forall k | 0 <= k < |ms| :: ms[k].size > 0 && ms[k].size % 8 == 0 && ms[k].offset % 8 == 0
    requires forall k, l | 0 <= k < |ms| && 0 <= l < |ms| && l == k + 1 :: ms[k].End() == ms[l].offset
    ensures Tiles(bs[..i] + ms + bs[j..], total)
  {
    var cs := bs[..i] + ms + bs[j..];
    forall k, l | 0 <= k < |cs| && 0 <= l < |cs| && l == k + 1 ensures cs[k].End() == cs[l].offset {
      if l < i {
        assert cs[k] == bs[k] && cs[l] == bs[l];
      } else if k < i {
        assert cs[k] == bs[k] && cs[l] == ms[0] && bs[k].End() == bs[i].offset;
      } else if l < i + |ms| {
        assert cs[k] == ms[k - i] && cs[l] == ms[l - i];
      } else if k < i + |ms| {
        assert cs[k] == ms[|ms| - 1] && cs[l] == bs[j] && bs[j - 1].End() == bs[j].offset;
      } else {
        var d := j - i - |ms|;
        assert cs[k] == bs[k + d] && cs[l] == bs[l + d];
      }
    }
  }

  lemma CarveKeepsList(bs: seq<Buffer>, total: nat, i: nat, isAsync: bool, need: nat)
    requires ValidList(bs, total) && i < |bs|
    requires 0 < need && need % 8 == 0 && Fits(bs[i], need)
    ensures ValidList(Carve(bs, i, isAsync, need), total)
  {
    var cs := Carve(bs, i, isAsync, need);
    if Splits(bs[i], need) {
      var ms := [Buffer(bs[i].offset, need, false, isAsync, need),
                 FreeBuffer(bs[i].offset + need, bs[i].size - need)];
      Splice(bs, total, i, i + 1, ms);
      assert cs == bs[..i] + ms + bs[i + 1..];
      CarveSplitNeighbours(bs, i, ms);
    }
  }

  lemma CarveSplitNeighbours(bs: seq<Buffer>, i: nat, ms: seq<Buffer>)
    requires NoFreeNeighbours(bs) && Blank(bs) && i < |bs| && bs[i].free
    requires |ms| == 2 && !ms[0].free && ms[1].free && Blank(ms)
    ensures NoFreeNeighbours(bs[..i] + ms + bs[i + 1..]) && Blank(bs[..i] + ms + bs[i + 1..])
  {
    var cs := bs[..i] + ms + bs[i + 1..];
    forall k, l | 0 <= k < |cs| && 0 <= l < |cs| && l == k + 1 ensures !(cs[k].free && cs[l].free) {
      if l < i {
        assert cs[k] == bs[k] && cs[l] == bs[l];
      } else if k > i + 1 {
        assert cs[k] == bs[k - 1] && cs[l] == bs[l - 1];
      } else if k == i + 1 {
        assert cs[l] == bs[i + 1];
      }
    }
  }

  lemma NeedAligned(data: U64, offs: U64, extra: U64)
    ensures NeedFor(data, offs, extra) % 8 == 0
  {
    PlusAligned(Align(data), Align(offs));
    PlusAligned(Plus(Align(data), Align(offs)), Align(extra));
  }

  lemma PlusAligned(a: U64, b: U64)
    requires a % 8 == 0 && b % 8 == 0
    ensures Plus(a, b) % 8 == 0
  {}

  /** Allocation adds one live extent and leaves the others where they are. */
  lemma CarveAddsLive(bs: seq<Buffer>, total: nat, i: nat, isAsync: bool, need: nat)
    requires ValidList(bs, total) && i < |bs|
    requires 0 < need && need % 8 == 0 && Fits(bs[i], need)
    ensures var c := Carved(bs, i, isAsync, need);
      && Live(Carve(bs, i, isAsync, need)) == Live(bs) + {c}
      && c !in Live(bs)
  {
    var cs := Carve(bs, i, isAsync, need);
    var c := Carved(bs, i, isAsync, need);
    var grown := if |cs| == |bs| then 0 else 1;
    forall b | b in Live(cs) ensures b in Live(bs) + {c} {
      var k :| 0 <= k < |cs| && !cs[k].free && cs[k] == b;
      if k < i { assert bs[k] == b; } else if k > i { assert bs[k - grown] == b; }
    }
    forall b | b in Live(bs) ensures b in Live(cs) && b != c {
      var k :| 0 <= k < |bs| && !bs[k].free && bs[k] == b;
      if k < i { assert cs[k] == b; Ordered(bs, total, k, i); }
      else if k > i { assert cs[k + grown] == b; Ordered(bs, total, i, k); }
    }
    assert cs[i] == c;
  }

  // ---------------------------------------------------------------- freeing

  function MergeNext(bs: seq<Buffer>, i: nat): seq<Buffer>
    requires i < |bs|
  {
    if i + 1 < |bs| && bs[i + 1].free
    then bs[..i] + [bs[i].(size := bs[i].size + bs[i + 1].size)] + bs[i + 2..]
    else bs
  }

  function MergePrev(bs: seq<Buffer>, i: nat): seq<Buffer>
    requires i < |bs|
  {
    if i > 0 && bs[i - 1].free
    then bs[..i - 1] + [bs[i - 1].(size := bs[i - 1].size + bs[i].size)] + bs[i + 1..]
    else bs
  }

  /** Free buffer `i` and merge it with whichever neighbours are free. */
  function Coalesce(bs: seq<Buffer>, i: nat): seq<Buffer>
    requires i < |bs|
  {
    MergePrev(MergeNext(bs[i := FreeBuffer(bs[i].offset, bs[i].size)], i), i)
  }

  /** Free neighbours, if any, only on the two sides of `i`. */
  ghost predicate MergedBut(bs: seq<Buffer>, i: nat) {
    forall k, j | 0 <= k < |bs| && 0 <= j < |bs| && j == k + 1 && k != i && j != i :: !(bs[k].free && bs[j].free)
  }

  lemma MergeNextKeeps(bs: seq<Buffer>, total: nat, i: nat)
    requires Tiles(bs, total) && Blank(bs) && MergedBut(bs, i) && i < |bs| && bs[i].free
    ensures var cs := MergeNext(bs, i);
      && i < |cs| && cs[i].free && Tiles(cs, total) && Blank(cs) && MergedBut(cs, i)
      && (i + 1 < |cs| ==> !cs[i + 1].free) && Live(cs) == Live(bs)
  {
    if i + 1 < |bs| && bs[i + 1].free {
      MergePair(bs, total, i);
      var cs := MergeNext(bs, i);
      forall k, l | 0 <= k < |cs| && 0 <= l < |cs| && l == k + 1 && k != i && l != i
        ensures !(cs[k].free && cs[l].free)
      {
        if l < i { assert cs[k] == bs[k] && cs[l] == bs[l]; }
        else { assert cs[k] == bs[k + 1] && cs[l] == bs[l + 1]; }
      }
      if i + 1 < |cs| { assert cs[i + 1] == bs[i + 2]; }
    }
  }

  lemma MergePrevKeeps(bs: seq<Buffer>, total: nat, i: nat)
    requires Tiles(bs, total) && Blank(bs) && MergedBut(bs, i) && i < |bs| && bs[i].free
    requires i + 1 < |bs| ==> !bs[i + 1].free
    ensures ValidList(MergePrev(bs, i), total) && Live(MergePrev(bs, i)) == Live(bs)
  {
    var cs := MergePrev(bs, i);
    if i > 0 && bs[i - 1].free {
      MergePair(bs, total, i - 1);
      forall k, l | 0 <= k < |cs| && 0 <= l < |cs| && l == k + 1 ensures !(cs[k].free && cs[l].free) {
        if l < i - 1 { assert cs[k] == bs[k] && cs[l] == bs[l]; }
        else if l == i - 1 { assert cs[k] == bs[k] && cs[l].free == bs[l].free; }
        else { assert cs[l] == bs[l + 1]; assert k >= i ==> cs[k] == bs[k + 1]; }
      }
    }
  }

  /** Two adjoining free buffers made one. */
  lemma MergePair(bs: seq<Buffer>, total: nat, i: nat)
    requires Tiles(bs, total) && Blank(bs) && i + 1 < |bs| && bs[i].free && bs[i + 1].free
    ensures var cs := bs[..i] + [bs[i].(size := bs[i].size + bs[i + 1].size)] + bs[i + 2..];
      Tiles(cs, total) && Blank(cs) && Live(cs) == Live(bs)
  {
    var m := bs[i].(size := bs[i].size + bs[i + 1].size);
    assert bs[i].End() == bs[i + 1].offset;
    Splice(bs, total, i, i + 2, [m]);
    MergedLive(bs, i, m);
  }

  lemma MergedLive(bs: seq<Buffer>, i: nat, m: Buffer)
    requires i + 1 < |bs| && bs[i].free && bs[i + 1].free && m.free
    ensures Live(bs[..i] + [m] + bs[i + 2..]) == Live(bs)
  {
    var cs := bs[..i] + [m] + bs[i + 2..];
    forall b | b in Live(bs) ensures b in Live(cs) {
      var k :| 0 <= k < |bs| && !bs[k].free && bs[k] == b;
      assert cs[if k < i then k else k - 1] == b;
    }
    forall b | b in Live(cs) ensures b in Live(bs) {
      var k :| 0 <= k < |cs| && !cs[k].free && cs[k] == b;
      assert bs[if k < i then k else k + 1] == b;
    }
  }

  /** Freeing keeps the list valid and removes exactly that live extent. */
  lemma CoalesceRemovesLive(bs: seq<Buffer>, total: nat, i: nat)
    requires ValidList(bs, total) && i < |bs| && !bs[i].free
    ensures ValidList(Coalesce(bs, i), total)
    ensures Live(Coalesce(bs, i)) == Live(bs) - {bs[i]}
  {
    var fs := bs[i := FreeBuffer(bs[i].offset, bs[i].size)];
    FreedLive(bs, total, i);
    MergeNextKeeps(fs, total, i);
    MergePrevKeeps(MergeNext(fs, i), total, i);
  }

  lemma FreedLive(bs: seq<Buffer>, total: nat, i: nat)
    requires ValidList(bs, total) && i < |bs| && !bs[i].free
    ensures Live(bs[i := FreeBuffer(bs[i].offset, bs[i].size)]) == Live(bs) - {bs[i]}
  {
    var fs := bs[i := FreeBuffer(bs[i].offset, bs[i].size)];
    forall b | b in Live(fs) ensures b in Live(bs) - {bs[i]} {
      var k :| 0 <= k < |fs| && !fs[k].free && fs[k] == b;
      assert bs[k] == b;
      if k < i { Ordered(bs, total, k, i); } else { Ordered(bs, total, i, k); }
    }
    forall b | b in Live(bs) - {bs[i]} ensures b in Live(fs) {
      var k :| 0 <= k < |bs| && !bs[k].free && bs[k] == b;
      assert fs[k] == b;
    }
  }

  // ---------------------------------------------------------------- canonical form

  /** Tiling of [from, to) with the invariant of `ValidList`, as a property of list suffixes. */
  ghost predicate Suffix(bs: seq<Buffer>, from: nat, to: nat) {
    && (forall i | 0 <= i < |bs| :: bs[i].size > 0 && (bs[i].free ==> bs[i] == FreeBuffer(bs[i].offset, bs[i].size)))
    && (forall i, j | 0 <= i < |bs| && 0 <= j < |bs| && j == i + 1 ::
          bs[i].End() == bs[j].offset && !(bs[i].free && bs[j].free))
    && (if bs == [] then from == to else bs[0].offset == from && bs[|bs| - 1].End() == to)
  }

  lemma {:induction false} SuffixOrdered(bs: seq<Buffer>, from: nat, to: nat, i: nat)
    requires Suffix(bs, from, to) && 0 < i < |bs|
    ensures bs[0].End() <= bs[i].offset
  {
    if i > 1 {
      SuffixOrdered(bs, from, to, i - 1);
      assert bs[i - 1].End() == bs[i].offset;
    }
  }

  lemma SuffixTail(bs: seq<Buffer>, from: nat, to: nat)
    requires Suffix(bs, from, to) && bs != []
    ensures Suffix(bs[1..], bs[0].End(), to)
    ensures Live(bs[1..]) == Live(bs) - (if bs[0].free then {} else {bs[0]})
  {
    var ts := bs[1..];
    if ts != [] { assert bs[0].End() == bs[1].offset; }
    forall b | b in Live(ts) ensures b in Live(bs) && b != bs[0] {
      var k :| 0 <= k < |ts| && !ts[k].free && ts[k] == b;
      assert bs[k + 1] == b;
      SuffixOrdered(bs, from, to, k + 1);
    }
    forall b | b in Live(bs) && b != bs[0] ensures b in Live(ts) {
      var k :| 0 <= k < |bs| && !bs[k].free && bs[k] == b;
      assert ts[k - 1] == b;
    }
  }

  /** The heads of two suffixes with the same live set and the same start are equal. */
  lemma SameHead(bs: seq<Buffer>, cs: seq<Buffer>, from: nat, to: nat)
    requires Suffix(bs, from, to) && Suffix(cs, from, to) && Live(bs) == Live(cs)
    requires bs != [] && cs != []
    ensures bs[0] == cs[0]
  {
    HeadFrom(bs, cs, from, to);
    HeadFrom(cs, bs, from, to);
  }

  lemma HeadFrom(bs: seq<Buffer>, cs: seq<Buffer>, from: nat, to: nat)
    requires Suffix(bs, from, to) && Suffix(cs, from, to) && Live(bs) == Live(cs)
    requires bs != [] && cs != []
    ensures !bs[0].free ==> bs[0] == cs[0]
    ensures bs[0].free && cs[0].free ==> bs[0].size >= cs[0].size
  {
    if !bs[0].free {
      assert bs[0] in Live(bs);
      var k :| 0 <= k < |cs| && !cs[k].free && cs[k] == bs[0];
      if k > 0 { SuffixOrdered(cs, from, to, k); }
    } else if cs[0].free && bs[0].size < cs[0].size {
      if |bs| == 1 {
        if |cs| > 1 { SuffixOrdered(cs, from, to, |cs| - 1); }
      } else {
        assert bs[0].End() == bs[1].offset && !bs[1].free;
        assert bs[1] in Live(bs);
        var k :| 0 <= k < |cs| && !cs[k].free && cs[k] == bs[1];
        SuffixOrdered(cs, from, to, k);
      }
    }
  }

  lemma {:induction false} SuffixUnique(bs: seq<Buffer>, cs: seq<Buffer>, from: nat, to: nat)
    requires Suffix(bs, from, to) && Suffix(cs, from, to) && Live(bs) == Live(cs)
    ensures bs == cs
  {
    if bs == [] || cs == [] {
      if cs != [] && |cs| > 1 { SuffixOrdered(cs, from, to, |cs| - 1); }
      if bs != [] && |bs| > 1 { SuffixOrdered(bs, from, to, |bs| - 1); }
    } else {
      SameHead(bs, cs, from, to);
      SuffixTail(bs, from, to);
      SuffixTail(cs, from, to);
      SuffixUnique(bs[1..], cs[1..], bs[0].End(), to);
      assert bs == [bs[0]] + bs[1..] && cs == [cs[0]] + cs[1..];
    }
  }

  /** Canonical form: the live extents determine the whole list. */
  lemma Canonical(bs: seq<Buffer>, cs: seq<Buffer>, total: nat)
    requires ValidList(bs, total) && ValidList(cs, total)
    requires Live(bs) == Live(cs)
    ensures bs == cs
  {
    SuffixUnique(bs, cs, 0, total);
  }

  /** An allocation undone at once leaves the list exactly as it was. */
  lemma AllocThenFree(bs: seq<Buffer>, total: nat, i: nat, isAsync: bool, need: nat)
    requires ValidList(bs, total) && i < |bs|
    requires 0 < need && need % 8 == 0 && Fits(bs[i], need)
    ensures Coalesce(Carve(bs, i, isAsync, need), i) == bs
  {
    var cs := Carve(bs, i, isAsync, need);
    CarveKeepsList(bs, total, i, isAsync, need);
    CarveAddsLive(bs, total, i, isAsync, need);
    CoalesceRemovesLive(cs, total, i);
    Canonical(Coalesce(cs, i), bs, total);
  }
}
