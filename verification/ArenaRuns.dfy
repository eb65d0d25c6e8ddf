/**
Whole runs of the arena: registration, then any sequence of allocations and frees
(kext/binder_alloc.c:126-307), with the byte-level meaning of each step, the order
independence of frees, and the ledger of the asynchronous budget.
*/
module ArenaRuns {
  import opened Common
  import opened Arena

  /** What the driver keeps per process: arena_addr, arena_size, buffers, free_async_space. */
  datatype ArenaState = ArenaState(addr: U64, size: U64, buffers: seq<Buffer>, freeAsync: nat)

  const UNREGISTERED := ArenaState(0, 0, [], 0)

  const ARENA_MIN: nat := 128 * 1024
  const ARENA_MAX: nat := 4 * 1024 * 1024

  function Registered(addr: U64, size: U64): ArenaState {
    ArenaState(addr, size, [FreeBuffer(0, size)], size / 2)
  }

  /** A live buffer exceeds what was asked for by less than a split's worth. */
  ghost predicate Charged(bs: seq<Buffer>) {
    forall i | 0 <= i < |bs| && !bs[i].free :: Slack(bs[i]) in {0, 8, 16, 24}
  }

  /** Bytes a buffer holds beyond its request. */
  function Slack(b: Buffer): int { b.size - b.need }

  ghost predicate Inv(st: ArenaState) {
    if st.size == 0 then st == UNREGISTERED
    else ValidList(st.buffers, st.size) && Charged(st.buffers) && st.addr + st.size < WRAP && st.size % 8 == 0
  }

  // ---------------------------------------------------------------- steps

  predicate Refused(st: ArenaState, need: nat, isAsync: bool) {
    st.size == 0 || need == 0 || need > st.size || (isAsync && need > st.freeAsync)
  }

  /** binder_buffer_alloc: the new state, and the offset handed out. `record` says whether
      memory for a split record could be had. */
  function AllocStep(st: ArenaState, need: nat, isAsync: bool, record: bool): (ArenaState, Option<nat>) {
    var i := FirstFit(st.buffers, need);
    if Refused(st, need, isAsync) || i == |st.buffers| || (Splits(st.buffers[i], need) && !record) then (st, None)
    else (st.(buffers := Carve(st.buffers, i, isAsync, need),
              freeAsync := if isAsync then st.freeAsync - need else st.freeAsync),
          Some(st.buffers[i].offset))
  }

  /** The index of the live buffer that starts at `off`, or the length of the list. */
  function LiveIndex(bs: seq<Buffer>, off: nat): (i: nat)
    ensures i <= |bs|
    ensures i < |bs| ==> !bs[i].free && bs[i].offset == off
    ensures i == |bs| ==> forall k | 0 <= k < |bs| :: bs[k].free || bs[k].offset != off
  {
    if bs == [] then 0
    else if !bs[0].free && bs[0].offset == off then 0
    else 1 + LiveIndex(bs[1..], off)
  }

  function FreeAt(bs: seq<Buffer>, off: nat): seq<Buffer> {
    var i := LiveIndex(bs, off);
    if i < |bs| then Coalesce(bs, i) else bs
  }

  /** What a free gives back to the asynchronous budget. */
  function Refund(bs: seq<Buffer>, off: nat): nat {
    var i := LiveIndex(bs, off);
    if i < |bs| && bs[i].isAsync then bs[i].size else 0
  }

  /** binder_buffer_free of the buffer that starts at `off`; freeing what is not live does nothing. */
  function FreeStep(st: ArenaState, off: nat): ArenaState {
    st.(buffers := FreeAt(st.buffers, off), freeAsync := st.freeAsync + Refund(st.buffers, off))
  }

  datatype Op =
    | Alloc(data: U64, offs: U64, extra: U64, isAsync: bool, record: bool)
    | Free(off: nat)

  function Step(st: ArenaState, op: Op): ArenaState {
    match op
    case Alloc(data, offs, extra, isAsync, record) => AllocStep(st, NeedFor(data, offs, extra), isAsync, record).0
    case Free(off) => FreeStep(st, off)
  }

  function Run(st: ArenaState, ops: seq<Op>): ArenaState
    decreases |ops|
  {
    if ops == [] then st else Run(Step(st, ops[0]), ops[1..])
  }

  // ---------------------------------------------------------------- the invariant over runs

  lemma RegisteredInv(addr: U64, size: U64)
    requires size > 0 && size % 8 == 0 && addr + size < WRAP
    ensures Inv(Registered(addr, size))
  {}

  lemma AllocKeepsInv(st: ArenaState, need: nat, isAsync: bool, record: bool)
    requires Inv(st) && need % 8 == 0
    ensures Inv(AllocStep(st, need, isAsync, record).0)
  {
    var i := FirstFit(st.buffers, need);
    if AllocStep(st, need, isAsync, record).1.Some? {
      CarveKeepsList(st.buffers, st.size, i, isAsync, need);
      CarveKeepsCharged(st.buffers, st.size, i, isAsync, need);
    }
  }

  lemma CarveKeepsCharged(bs: seq<Buffer>, total: nat, i: nat, isAsync: bool, need: nat)
    requires ValidList(bs, total) && Charged(bs) && i < |bs|
    requires 0 < need && need % 8 == 0 && Fits(bs[i], need)
    ensures Charged(Carve(bs, i, isAsync, need))
  {
    var cs := Carve(bs, i, isAsync, need);
    SmallMultiple(bs[i].size, need);
    CarveAddsLive(bs, total, i, isAsync, need);
    forall k | 0 <= k < |cs| && !cs[k].free ensures Slack(cs[k]) in {0, 8, 16, 24} {
      assert cs[k] in Live(cs);
      if cs[k] in Live(bs) {
        var l :| 0 <= l < |bs| && !bs[l].free && bs[l] == cs[k];
        assert Slack(bs[l]) in {0, 8, 16, 24};
      }
    }
  }

  lemma SmallMultiple(size: nat, need: nat)
    requires size % 8 == 0 && need % 8 == 0 && need <= size
    ensures size < need + MIN_SPLIT ==> size - need in {0, 8, 16, 24}
  {}

  lemma FreeKeepsInv(st: ArenaState, off: nat)
    requires Inv(st)
    ensures Inv(FreeStep(st, off))
  {
    var i := LiveIndex(st.buffers, off);
    if i < |st.buffers| {
      var cs := Coalesce(st.buffers, i);
      CoalesceRemovesLive(st.buffers, st.size, i);
      forall k | 0 <= k < |cs| && !cs[k].free ensures Slack(cs[k]) in {0, 8, 16, 24} {
        assert cs[k] in Live(cs);
        var l :| 0 <= l < |st.buffers| && !st.buffers[l].free && st.buffers[l] == cs[k];
      }
    }
  }

  /** Every run keeps the arena tiled, merged and charged. */
  lemma {:induction false} RunKeepsInv(st: ArenaState, ops: seq<Op>)
    requires Inv(st)
    ensures Inv(Run(st, ops)) && Run(st, ops).size == st.size && Run(st, ops).addr == st.addr
    decreases |ops|
  {
    if ops != [] {
      StepKeepsInv(st, ops[0]);
      RunKeepsInv(Step(st, ops[0]), ops[1..]);
    }
  }

  lemma StepKeepsInv(st: ArenaState, op: Op)
    requires Inv(st)
    ensures Inv(Step(st, op)) && Step(st, op).size == st.size && Step(st, op).addr == st.addr
  {
    match op
    case Alloc(data, offs, extra, isAsync, record) =>
      NeedAligned(data, offs, extra);
      AllocKeepsInv(st, NeedFor(data, offs, extra), isAsync, record);
    case Free(off) => FreeKeepsInv(st, off);
  }

  // ---------------------------------------------------------------- refinement of the byte map

  /** The byte map is determined by the live extents. */
  lemma OwnerIsLive(bs: seq<Buffer>, total: nat, b: nat)
    requires Tiles(bs, total) && b < total
    ensures Owner(bs, b).Some? ==>
      exists e :: e in Live(bs) && e.offset == Owner(bs, b).value && e.offset <= b < e.End()
    ensures forall e | e in Live(bs) && e.offset <= b < e.End() :: Owner(bs, b) == Some(e.offset)
  {
    var i := Locate(bs, total, b);
    OwnerIn(bs, total, i, b);
    if !bs[i].free { assert bs[i] in Live(bs); }
    forall e | e in Live(bs) && e.offset <= b < e.End() ensures Owner(bs, b) == Some(e.offset) {
      var k :| 0 <= k < |bs| && !bs[k].free && bs[k] == e;
      OwnerIn(bs, total, k, b);
    }
  }

  /** If one live set is the other plus one extent, the byte maps differ on that extent only. */
  lemma OwnerGains(bs: seq<Buffer>, cs: seq<Buffer>, total: nat, c: Buffer, b: nat)
    requires Tiles(bs, total) && Tiles(cs, total) && b < total
    requires Live(cs) == Live(bs) + {c} && c !in Live(bs)
    ensures Owner(cs, b) == if c.offset <= b < c.End() then Some(c.offset) else Owner(bs, b)
  {
    OwnerIsLive(bs, total, b);
    OwnerIsLive(cs, total, b);
    assert c in Live(cs);
  }

  /** Allocation as the byte map sees it: the extent handed out was free, starts as low as any
      run of that length, is aligned, becomes owned by its own start, and no other byte changes hands. */
  lemma AllocRefines(st: ArenaState, need: nat, isAsync: bool, record: bool)
    requires Inv(st) && need % 8 == 0 && AllocStep(st, need, isAsync, record).1.Some?
    ensures var (st', r) := AllocStep(st, need, isAsync, record);
      exists n :: need <= n < need + MIN_SPLIT && AllocEffect(st.buffers, st'.buffers, st.size, r.value, n, need)
  {
    var bs := st.buffers;
    var i := FirstFit(bs, need);
    var (st', r) := AllocStep(st, need, isAsync, record);
    var c := Carved(bs, i, isAsync, need);
    CarveKeepsList(bs, st.size, i, isAsync, need);
    CarveAddsLive(bs, st.size, i, isAsync, need);
    LowestFit(bs, st.size, need);
    BufferIsRun(bs, st.size, i, c.size);
    Bounded(bs, st.size, i);
    forall b | 0 <= b < st.size
      ensures Owner(st'.buffers, b) == if c.offset <= b < c.End() then Some(c.offset) else Owner(bs, b)
    {
      OwnerGains(bs, st'.buffers, st.size, c, b);
    }
    assert AllocEffect(bs, st'.buffers, st.size, r.value, c.size, need);
  }

  ghost predicate AllocEffect(bs: seq<Buffer>, cs: seq<Buffer>, total: nat, off: nat, n: nat, need: nat) {
    && off % 8 == 0
    && FreeRun(bs, total, off, n)
    && (forall a | FreeRun(bs, total, a, need) :: off <= a)
    && (forall b | 0 <= b < total :: Owner(cs, b) == if off <= b < off + n then Some(off) else Owner(bs, b))
  }

  /** When the size, budget and record checks pass, allocation fails exactly when no run of
      `need` free bytes exists. */
  lemma AllocFailsIffNoRun(st: ArenaState, need: nat, isAsync: bool)
    requires Inv(st) && !Refused(st, need, isAsync)
    ensures AllocStep(st, need, isAsync, true).1.None? <==>
      forall a :: !FreeRun(st.buffers, st.size, a, need)
  {
    LowestFit(st.buffers, st.size, need);
  }

  /** An allocation of the lowest run of free bytes at `a` needs a record for the part it leaves. */
  ghost predicate Leaves(st: ArenaState, a: nat, need: nat) { FreeRun(st.buffers, st.size, a, need + MIN_SPLIT) }

  /** When an allocation is granted: something is asked for, an asynchronous one is within the budget, there is a run of
      that many free bytes, and there is memory for a record if the lowest one goes on for a split's worth or more.
      Nothing else is refused: the whole arena can be had. */
  lemma AllocGrantedIff(st: ArenaState, need: nat, isAsync: bool, record: bool)
    requires Inv(st)
    ensures AllocStep(st, need, isAsync, record).1.Some? <==>
      && need > 0 && (isAsync ==> need <= st.freeAsync)
      && exists a :: FreeRun(st.buffers, st.size, a, need) && (record || !Leaves(st, a, need))
                     && forall b | FreeRun(st.buffers, st.size, b, need) :: a <= b
  {
    if need > 0 && st.size > 0 {
      LowestFit(st.buffers, st.size, need);
      var i := FirstFit(st.buffers, need);
      if i < |st.buffers| { LeavesIff(st, i, need); }
    }
  }

  lemma LeavesIff(st: ArenaState, i: nat, need: nat)
    requires Inv(st) && st.size > 0 && i < |st.buffers| && Fits(st.buffers[i], need) && need > 0
    ensures Leaves(st, st.buffers[i].offset, need) <==> Splits(st.buffers[i], need)
  {
    var bs, a := st.buffers, st.buffers[i].offset;
    if Splits(bs[i], need) { BufferIsRun(bs, st.size, i, need + MIN_SPLIT); }
    if Leaves(st, a, need) {
      var k := RunInOneBuffer(bs, st.size, a, need + MIN_SPLIT);
      if k < i { Ordered(bs, st.size, k, i); }
      if i < k { Ordered(bs, st.size, i, k); }
    }
  }

  /** Freeing as the byte map sees it: exactly the bytes of that extent are let go. */
  lemma FreeRefines(st: ArenaState, off: nat, b: nat)
    requires Inv(st) && b < st.size
    ensures Owner(FreeStep(st, off).buffers, b) ==
      if Owner(st.buffers, b) == Some(off) then None else Owner(st.buffers, b)
  {
    var bs := st.buffers;
    var i := LiveIndex(bs, off);
    OwnerIsLive(bs, st.size, b);
    if i < |bs| {
      CoalesceRemovesLive(bs, st.size, i);
      assert bs[i] in Live(bs);
      assert Live(bs) == Live(Coalesce(bs, i)) + {bs[i]};
      OwnerGains(Coalesce(bs, i), bs, st.size, bs[i], b);
      OwnerIsLive(Coalesce(bs, i), st.size, b);
      forall e | e in Live(Coalesce(bs, i)) ensures e.offset != off { OneStart(bs, st.size, bs[i], e); }
    }
  }

  /** Live extents have different starts. */
  lemma OneStart(bs: seq<Buffer>, total: nat, d: Buffer, e: Buffer)
    requires Tiles(bs, total) && d in Live(bs) && e in Live(bs) && d != e
    ensures d.offset != e.offset
  {
    var i :| 0 <= i < |bs| && !bs[i].free && bs[i] == d;
    var j :| 0 <= j < |bs| && !bs[j].free && bs[j] == e;
    if i < j { Ordered(bs, total, i, j); } else { Ordered(bs, total, j, i); }
  }

  // ---------------------------------------------------------------- frees in any order

  lemma FreeAtRemoves(bs: seq<Buffer>, total: nat, off: nat)
    requires ValidList(bs, total)
    ensures ValidList(FreeAt(bs, off), total)
    ensures Live(FreeAt(bs, off)) == set e | e in Live(bs) && e.offset != off
  {
    var i := LiveIndex(bs, off);
    if i < |bs| {
      CoalesceRemovesLive(bs, total, i);
      assert bs[i] in Live(bs);
      forall e | e in Live(bs) && e != bs[i] ensures e.offset != off { OneStart(bs, total, bs[i], e); }
    } else {
      forall e | e in Live(bs) ensures e.offset != off {
        var k :| 0 <= k < |bs| && !bs[k].free && bs[k] == e;
      }
    }
  }

  /** Two frees commute, whatever they name. */
  lemma FreesCommute(bs: seq<Buffer>, total: nat, a: nat, b: nat)
    requires ValidList(bs, total)
    ensures FreeAt(FreeAt(bs, a), b) == FreeAt(FreeAt(bs, b), a)
  {
    FreeAtRemoves(bs, total, a);
    FreeAtRemoves(bs, total, b);
    FreeAtRemoves(FreeAt(bs, a), total, b);
    FreeAtRemoves(FreeAt(bs, b), total, a);
    assert Live(FreeAt(FreeAt(bs, a), b)) == Live(FreeAt(FreeAt(bs, b), a));
    Canonical(FreeAt(FreeAt(bs, a), b), FreeAt(FreeAt(bs, b), a), total);
  }

  function FreeEach(bs: seq<Buffer>, order: seq<nat>): seq<Buffer>
    decreases |order|
  {
    if order == [] then bs else FreeEach(FreeAt(bs, order[0]), order[1..])
  }

  lemma {:induction false} FreeEachRemoves(bs: seq<Buffer>, total: nat, order: seq<nat>)
    requires ValidList(bs, total)
    ensures ValidList(FreeEach(bs, order), total)
    ensures Live(FreeEach(bs, order)) == set e | e in Live(bs) && e.offset !in order
    decreases |order|
  {
    if order != [] {
      FreeAtRemoves(bs, total, order[0]);
      FreeEachRemoves(FreeAt(bs, order[0]), total, order[1..]);
    }
  }

  /** Freeing everything, in any order, leaves the arena as registration left it. */
  lemma FreeEverything(bs: seq<Buffer>, total: nat, order: seq<nat>)
    requires ValidList(bs, total) && total % 8 == 0 && total > 0
    requires forall e | e in Live(bs) :: e.offset in order
    ensures FreeEach(bs, order) == [FreeBuffer(0, total)]
  {
    FreeEachRemoves(bs, total, order);
    assert ValidList([FreeBuffer(0, total)], total);
    assert Live([FreeBuffer(0, total)]) == {} == Live(FreeEach(bs, order));
    Canonical(FreeEach(bs, order), [FreeBuffer(0, total)], total);
  }

  // ---------------------------------------------------------------- the asynchronous budget

  /** What the live asynchronous buffers were charged. */
  function AsyncCharge(bs: seq<Buffer>): nat {
    if bs == [] then 0
    else (if !bs[0].free && bs[0].isAsync then bs[0].need else 0) + AsyncCharge(bs[1..])
  }

  lemma {:induction false} ChargeAppend(a: seq<Buffer>, b: seq<Buffer>)
    ensures AsyncCharge(a + b) == AsyncCharge(a) + AsyncCharge(b)
  {
    if a == [] {
      assert a + b == b;
    } else {
      assert (a + b)[1..] == a[1..] + b;
      ChargeAppend(a[1..], b);
    }
  }

  function ChargeOf(b: Buffer): nat { if !b.free && b.isAsync then b.need else 0 }

  lemma ChargeOne(b: Buffer)
    ensures AsyncCharge([b]) == ChargeOf(b)
  {
    assert [b][1..] == [];
  }

  lemma ChargeTwo(b: Buffer, c: Buffer)
    ensures AsyncCharge([b, c]) == ChargeOf(b) + ChargeOf(c)
  {
    assert [b, c] == [b] + [c];
    ChargeAppend([b], [c]);
    ChargeOne(b);
    ChargeOne(c);
  }

  /** Replacing a window of the list changes the charge by the difference of the windows. */
  lemma ChargeSplice(bs: seq<Buffer>, i: nat, j: nat, ms: seq<Buffer>)
    requires i <= j <= |bs|
    ensures AsyncCharge(bs[..i] + ms + bs[j..]) == AsyncCharge(bs) - AsyncCharge(bs[i..j]) + AsyncCharge(ms)
  {
    assert bs == bs[..i] + bs[i..j] + bs[j..];
    ChargeAppend(bs[..i] + bs[i..j], bs[j..]);
    ChargeAppend(bs[..i], bs[i..j]);
    ChargeAppend(bs[..i] + ms, bs[j..]);
    ChargeAppend(bs[..i], ms);
  }

  lemma ChargeSet(bs: seq<Buffer>, i: nat, b: Buffer)
    requires i < |bs|
    ensures AsyncCharge(bs[i := b]) == AsyncCharge(bs) - ChargeOf(bs[i]) + ChargeOf(b)
  {
    assert bs[i := b] == bs[..i] + [b] + bs[i + 1..];
    assert bs[i..i + 1] == [bs[i]];
    ChargeSplice(bs, i, i + 1, [b]);
    ChargeOne(b);
    ChargeOne(bs[i]);
  }

  lemma SplitCharge(bs: seq<Buffer>, i: nat, c: Buffer, f: Buffer)
    requires i < |bs| && bs[i].free && f.free
    ensures AsyncCharge(bs[..i] + [c, f] + bs[i + 1..]) == AsyncCharge(bs) + ChargeOf(c)
  {
    assert bs[i..i + 1] == [bs[i]];
    ChargeSplice(bs, i, i + 1, [c, f]);
    ChargeOne(bs[i]);
    ChargeTwo(c, f);
  }

  lemma CarveCharge(bs: seq<Buffer>, i: nat, isAsync: bool, need: nat)
    requires i < |bs| && bs[i].free
    ensures AsyncCharge(Carve(bs, i, isAsync, need)) ==
      AsyncCharge(bs) + (if isAsync then need else 0)
  {
    if Splits(bs[i], need) {
      SplitCharge(bs, i, Buffer(bs[i].offset, need, false, isAsync, need),
                  FreeBuffer(bs[i].offset + need, bs[i].size - need));
    } else {
      ChargeSet(bs, i, Buffer(bs[i].offset, bs[i].size, false, isAsync, need));
    }
  }

  lemma MergeNextCharge(bs: seq<Buffer>, i: nat)
    requires i < |bs| && bs[i].free
    ensures AsyncCharge(MergeNext(bs, i)) == AsyncCharge(bs)
    ensures i < |MergeNext(bs, i)| && MergeNext(bs, i)[i].free
  {
    if i + 1 < |bs| && bs[i + 1].free { MergeCharge(bs, i); }
  }

  lemma MergePrevCharge(bs: seq<Buffer>, i: nat)
    requires i < |bs| && bs[i].free
    ensures AsyncCharge(MergePrev(bs, i)) == AsyncCharge(bs)
  {
    if i > 0 && bs[i - 1].free { MergeCharge(bs, i - 1); }
  }

  lemma CoalesceCharge(bs: seq<Buffer>, i: nat)
    requires i < |bs|
    ensures AsyncCharge(Coalesce(bs, i)) == AsyncCharge(bs) - ChargeOf(bs[i])
  {
    var f := FreeBuffer(bs[i].offset, bs[i].size);
    ChargeSet(bs, i, f);
    MergeNextCharge(bs[i := f], i);
    MergePrevCharge(MergeNext(bs[i := f], i), i);
  }

  lemma MergeCharge(bs: seq<Buffer>, i: nat)
    requires i + 1 < |bs| && bs[i].free && bs[i + 1].free
    ensures AsyncCharge(bs[..i] + [bs[i].(size := bs[i].size + bs[i + 1].size)] + bs[i + 2..]) == AsyncCharge(bs)
  {
    var m := bs[i].(size := bs[i].size + bs[i + 1].size);
    assert bs[i..i + 2] == [bs[i], bs[i + 1]];
    ChargeSplice(bs, i, i + 2, [m]);
    ChargeTwo(bs[i], bs[i + 1]);
    ChargeOne(m);
  }

  /** What one operation adds to the budget that was never charged to it. */
  function Credit(st: ArenaState, op: Op): int {
    match op
    case Alloc(_, _, _, _, _) => 0
    case Free(off) =>
      var i := LiveIndex(st.buffers, off);
      if i < |st.buffers| && st.buffers[i].isAsync then Slack(st.buffers[i]) else 0
  }

  function Credits(st: ArenaState, ops: seq<Op>): int
    decreases |ops|
  {
    if ops == [] then 0 else Credit(st, ops[0]) + Credits(Step(st, ops[0]), ops[1..])
  }

  function Balance(st: ArenaState): nat { st.freeAsync + AsyncCharge(st.buffers) }

  /** Each credit is less than a split's worth, and never a debt. */
  lemma CreditIsSlack(st: ArenaState, op: Op)
    requires Inv(st)
    ensures Credit(st, op) in {0, 8, 16, 24}
  {}

  lemma StepBalance(st: ArenaState, op: Op)
    requires Inv(st)
    ensures Balance(Step(st, op)) == Balance(st) + Credit(st, op)
  {
    match op
    case Alloc(data, offs, extra, isAsync, record) =>
      var need := NeedFor(data, offs, extra);
      if AllocStep(st, need, isAsync, record).1.Some? {
        CarveCharge(st.buffers, FirstFit(st.buffers, need), isAsync, need);
      }
    case Free(off) =>
      var i := LiveIndex(st.buffers, off);
      if i < |st.buffers| { CoalesceCharge(st.buffers, i); }
  }

  lemma {:induction false} RunBalance(st: ArenaState, ops: seq<Op>)
    requires Inv(st)
    ensures Balance(Run(st, ops)) == Balance(st) + Credits(st, ops)
    decreases |ops|
  {
    if ops != [] {
      StepBalance(st, ops[0]);
      StepKeepsInv(st, ops[0]);
      RunBalance(Step(st, ops[0]), ops[1..]);
    }
  }

  /** The ledger: unspent budget plus live charges is half the arena plus the slack credited so far. */
  lemma AsyncLedger(addr: U64, size: U64, ops: seq<Op>)
    requires size > 0 && size % 8 == 0 && addr + size < WRAP
    ensures Balance(Run(Registered(addr, size), ops)) == size / 2 + Credits(Registered(addr, size), ops)
  {
    var st := Registered(addr, size);
    RegisteredInv(addr, size);
    ChargeOne(FreeBuffer(0, size));
    RunBalance(st, ops);
  }

  /** Live asynchronous charges are within half the arena exactly when no credited slack has been spent. */
  lemma AsyncHalf(addr: U64, size: U64, ops: seq<Op>)
    requires size > 0 && size % 8 == 0 && addr + size < WRAP
    ensures var st := Run(Registered(addr, size), ops);
      AsyncCharge(st.buffers) <= size / 2 <==> Credits(Registered(addr, size), ops) <= st.freeAsync
  {
    AsyncLedger(addr, size, ops);
  }

  /** An asynchronous allocation that goes through. */
  predicate TakesAsync(st: ArenaState, op: Op) {
    op.Alloc? && op.isAsync && AllocStep(st, NeedFor(op.data, op.offs, op.extra), true, op.record).1.Some?
  }

  /** Before each operation: it leaves the charges within half the arena if and only if they were, and it does not
      spend credited slack. Only an asynchronous allocation can. */
  lemma StepKeepsHalfIff(addr: U64, size: U64, ops: seq<Op>, op: Op)
    requires size > 0 && size % 8 == 0 && addr + size < WRAP
    requires AsyncCharge(Run(Registered(addr, size), ops).buffers) <= size / 2
    ensures var st := Run(Registered(addr, size), ops);
      AsyncCharge(Step(st, op).buffers) <= size / 2 <==>
        (TakesAsync(st, op) ==>
           Credits(Registered(addr, size), ops) + NeedFor(op.data, op.offs, op.extra) <= st.freeAsync)
  {
    var st := Run(Registered(addr, size), ops);
    AsyncLedger(addr, size, ops);
    RegisteredInv(addr, size);
    RunKeepsInv(Registered(addr, size), ops);
    StepBalance(st, op);
    StepBudget(st, op);
  }

  /** An operation takes from the budget only as an asynchronous allocation, and a free returns at least its charge. */
  lemma StepBudget(st: ArenaState, op: Op)
    requires Inv(st)
    ensures TakesAsync(st, op) ==>
      Step(st, op).freeAsync == st.freeAsync - NeedFor(op.data, op.offs, op.extra) && Credit(st, op) == 0
    ensures !TakesAsync(st, op) ==> st.freeAsync + Credit(st, op) <= Step(st, op).freeAsync
  {}

  // A run that credits slack: a sync allocation leaves a snug gap, a small oneway call takes the
  // whole gap, is charged 64 and refunded 88, and the next oneway call may hold the difference.
  const OVERRUN_0 := Registered(0x10000, ARENA_MIN)
  const OVERRUN_1 := OVERRUN_0.(buffers := [Buffer(0, 130984, false, false, 130984), FreeBuffer(130984, 88)])
  const OVERRUN_2 := OVERRUN_0.(freeAsync := 65472,
    buffers := [Buffer(0, 130984, false, false, 130984), Buffer(130984, 88, false, true, 64)])
  const OVERRUN_3 := OVERRUN_1.(freeAsync := 65560)
  const OVERRUN_4 := OVERRUN_0.(freeAsync := 65560)
  const OVERRUN_5 := OVERRUN_0.(freeAsync := 0,
    buffers := [Buffer(0, 65560, false, true, 65560), FreeBuffer(65560, 65512)])

  const OVERRUN_OPS := [Alloc(130984, 0, 0, false, true), Alloc(64, 0, 0, true, true), Free(130984), Free(0),
                       Alloc(65560, 0, 0, true, true)]

  lemma OverrunSecond()
    ensures Step(OVERRUN_1, OVERRUN_OPS[1]) == OVERRUN_2
  {
    var bs := OVERRUN_1.buffers;
    assert FirstFit(bs, 64) == 1 by { assert bs[1..] == [bs[1]]; }
  }

  lemma OverrunFirstHalf()
    ensures Run(OVERRUN_0, OVERRUN_OPS[..2]) == OVERRUN_2
  {
    assert Step(OVERRUN_0, OVERRUN_OPS[0]) == OVERRUN_1;
    OverrunSecond();
    assert OVERRUN_OPS[..2][1..] == [OVERRUN_OPS[1]];
    assert Run(OVERRUN_1, [OVERRUN_OPS[1]]) == OVERRUN_2;
  }

  lemma OverrunFrees()
    ensures Run(OVERRUN_2, OVERRUN_OPS[2..4]) == OVERRUN_4
  {
    var bs := OVERRUN_2.buffers;
    assert LiveIndex(bs, 130984) == 1 by { assert bs[1..] == [bs[1]]; }
    assert Step(OVERRUN_2, OVERRUN_OPS[2]) == OVERRUN_3;
    assert Step(OVERRUN_3, OVERRUN_OPS[3]) == OVERRUN_4;
    assert OVERRUN_OPS[2..4][1..] == [OVERRUN_OPS[3]];
    assert Run(OVERRUN_3, [OVERRUN_OPS[3]]) == OVERRUN_4;
  }

  lemma OverrunLast()
    ensures Run(OVERRUN_4, OVERRUN_OPS[4..]) == OVERRUN_5
  {
    assert Step(OVERRUN_4, OVERRUN_OPS[4]) == OVERRUN_5;
    assert OVERRUN_OPS[4..][1..] == [];
  }

  lemma {:induction false} RunAppend(st: ArenaState, a: seq<Op>, b: seq<Op>)
    ensures Run(st, a + b) == Run(Run(st, a), b)
    decreases |a|
  {
    if a == [] {
      assert a + b == b;
    } else {
      assert (a + b)[1..] == a[1..] + b;
      RunAppend(Step(st, a[0]), a[1..], b);
    }
  }

  /** Otherwise it need not: a run that credits slack can leave more than half the arena charged
      to live asynchronous buffers. */
  lemma HalfCanBeExceeded()
    ensures AsyncCharge(Run(Registered(0x10000, ARENA_MIN), OVERRUN_OPS).buffers) > ARENA_MIN / 2
  {
    OverrunFirstHalf();
    OverrunFrees();
    OverrunLast();
    RunAppend(OVERRUN_0, OVERRUN_OPS[..2], OVERRUN_OPS[2..4]);
    RunAppend(OVERRUN_0, OVERRUN_OPS[..2] + OVERRUN_OPS[2..4], OVERRUN_OPS[4..]);
    assert OVERRUN_OPS == OVERRUN_OPS[..2] + OVERRUN_OPS[2..4] + OVERRUN_OPS[4..];
    ChargeTwo(OVERRUN_5.buffers[0], OVERRUN_5.buffers[1]);
  }
}
