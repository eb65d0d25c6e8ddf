/**
The arena bookkeeping of one process as kext/binder_alloc.c runs it: fields updated in place,
lists scanned by loops. Every method is proved equal to the step functions of ArenaRuns.
*/
module ArenaAllocator {
  import opened Common
  import opened Arena
  import opened ArenaRuns

  datatype Errno = OK | EBUSY | EINVAL | ENOMEM

  /** Page sizes of the two architectures the driver is built for. */
  predicate PageSize(page: nat) { page == 4096 || page == 16384 }

  /** A range of a process's addresses that can be its arena: of a permitted size, whole pages, not at 0, and not
      past the end of the address space. */
  predicate Placeable(a: U64, n: U64, page: nat)
    requires PageSize(page)
  {
    ARENA_MIN <= n <= ARENA_MAX && n % page == 0 && a % page == 0 && a != 0 && a + n < WRAP
  }

  class Allocator {
    var addr: U64
    var size: U64
    var buffers: seq<Buffer>
    var freeAsync: nat

    ghost function View(): ArenaState
      reads this
    {
      ArenaState(addr, size, buffers, freeAsync)
    }

    ghost predicate Valid()
      reads this
    {
      Inv(View())
    }

    constructor ()
      ensures Valid() && View() == UNREGISTERED
    {
      addr, size, buffers, freeAsync := 0, 0, [], 0;
    }

    /** binder_arena_register: one arena, then a range that can be one, then memory; `record` says whether memory for
        the first buffer could be had. */
    method Register(a: U64, n: U64, page: nat, record: bool) returns (err: Errno)
      requires Valid() && PageSize(page)
      modifies this
      ensures Valid()
      ensures View() == if err == OK then Registered(a, n) else old(View())
      ensures err == if old(size) != 0 then EBUSY else if !Placeable(a, n, page) then EINVAL
        else if !record then ENOMEM else OK
    {
      if size != 0 { return EBUSY; }
      if n < ARENA_MIN || n > ARENA_MAX { return EINVAL; }
      if n % page != 0 || a % page != 0 { return EINVAL; }
      if a == 0 || Plus(a, n) < a { return EINVAL; }
      if !record { return ENOMEM; }
      buffers := [FreeBuffer(0, n)];
      addr := a;
      size := n;
      freeAsync := n / 2;
      PageMultiple(n, page);
      PageMultiple(a, page);
      err := OK;
    }

    /** binder_buffer_alloc: a first-fit scan, then the split and the budget. */
    method Alloc(data: U64, offs: U64, extra: U64, isAsync: bool, record: bool) returns (r: Option<nat>)
      requires Valid()
      modifies this`buffers, this`freeAsync
      ensures Valid()
      ensures (View(), r) == AllocStep(old(View()), NeedFor(data, offs, extra), isAsync, record)
    {
      ghost var st := View();
      var need := NeedFor(data, offs, extra);
      NeedAligned(data, offs, extra);
      AllocKeepsInv(st, need, isAsync, record);
      if size == 0 { return None; }
      if need == 0 || need > size { return None; }
      if isAsync && need > freeAsync { return None; }

      var i := FindFit(need);
      if i == |buffers| { return None; }

      var off := buffers[i].offset;
      var taken := Take(i, need, isAsync, record);
      if !taken { return None; }
      if isAsync {
        freeAsync := freeAsync - need;
      }
      return Some(off);
    }

    /** The scan of binder_buffer_alloc. */
    method FindFit(need: nat) returns (i: nat)
      ensures i == FirstFit(buffers, need)
    {
      i := 0;
      while i < |buffers| && !(buffers[i].free && buffers[i].size >= need)
        invariant i <= |buffers|
        invariant forall k | 0 <= k < i :: !Fits(buffers[k], need)
      {
        i := i + 1;
      }
      FirstFitIs(buffers, need, i);
    }

    /** The second half of binder_buffer_alloc: split the chosen buffer and mark it taken. */
    method Take(i: nat, need: nat, isAsync: bool, record: bool) returns (ok: bool)
      requires i < |buffers| && Fits(buffers[i], need)
      modifies this`buffers
      ensures ok == (record || !Splits(old(buffers)[i], need))
      ensures buffers == if ok then Carve(old(buffers), i, isAsync, need) else old(buffers)
    {
      var buf := buffers[i];
      if buf.size - need >= MIN_SPLIT {
        if !record { return false; }
        var split := FreeBuffer(buf.offset + need, buf.size - need);
        buffers := buffers[..i + 1] + [split] + buffers[i + 1..];
        buf := buf.(size := need);
      }
      buffers := buffers[i := Buffer(buf.offset, buf.size, false, isAsync, need)];
      return true;
    }

    /** binder_buffer_free of the buffer at list position `i`; a free one is left alone. */
    method Free(i: nat)
      requires Valid() && i < |buffers|
      modifies this`buffers, this`freeAsync
      ensures Valid()
      ensures View() == if old(buffers)[i].free then old(View()) else FreeStep(old(View()), old(buffers)[i].offset)
    {
      if buffers[i].free { return; }
      ghost var st := View();
      LiveIndexIs(st.buffers, st.size, i);
      FreeKeepsInv(st, st.buffers[i].offset);
      if buffers[i].isAsync {
        freeAsync := freeAsync + buffers[i].size;
      }
      Merge(i);
    }

    /** The second half of binder_buffer_free: blank the buffer, then merge forwards and backwards. */
    method Merge(i: nat)
      requires i < |buffers|
      modifies this`buffers
      ensures buffers == Coalesce(old(buffers), i)
    {
      buffers := buffers[i := FreeBuffer(buffers[i].offset, buffers[i].size)];
      if i + 1 < |buffers| && buffers[i + 1].free {
        var merged := buffers[i].(size := buffers[i].size + buffers[i + 1].size);
        buffers := buffers[..i] + [merged] + buffers[i + 2..];
      }
      if i > 0 && buffers[i - 1].free {
        var merged := buffers[i - 1].(size := buffers[i - 1].size + buffers[i].size);
        buffers := buffers[..i - 1] + [merged] + buffers[i + 1..];
      }
    }

    /** binder_buffer_lookup: a pointer names a buffer exactly when it is the client address of
        the start of a live one. */
    method Lookup(userPtr: U64) returns (r: Option<nat>)
      requires Valid()
      ensures r.Some? ==> r.value < |buffers| && !buffers[r.value].free && addr + buffers[r.value].offset == userPtr
      ensures r.None? ==> forall k | 0 <= k < |buffers| && !buffers[k].free :: addr + buffers[k].offset != userPtr
    {
      if size == 0 || userPtr < addr { return None; }
      var offset := userPtr - addr;
      if offset >= size {
        forall k | 0 <= k < |buffers| ensures buffers[k].End() <= size { Bounded(buffers, size, k); }
        return None;
      }
      var i := 0;
      while i < |buffers|
        invariant i <= |buffers|
        invariant forall k | 0 <= k < i :: buffers[k].offset != offset
      {
        if buffers[i].offset == offset {
          forall k | i < k < |buffers| ensures buffers[k].offset != offset { Ordered(buffers, size, i, k); }
          return if buffers[i].free then None else Some(i);
        }
        if buffers[i].offset > offset {
          forall k | i < k < |buffers| ensures buffers[k].offset != offset { Ordered(buffers, size, i, k); }
          break;
        }
        i := i + 1;
      }
      return None;
    }
  }

  lemma PageMultiple(n: nat, page: nat)
    requires PageSize(page) && n % page == 0
    ensures n % 8 == 0
  {}

  lemma {:induction false} FirstFitIs(bs: seq<Buffer>, need: nat, i: nat)
    requires i <= |bs| && (forall k | 0 <= k < i :: !Fits(bs[k], need)) && (i < |bs| ==> Fits(bs[i], need))
    ensures FirstFit(bs, need) == i
  {
    if i > 0 { FirstFitIs(bs[1..], need, i - 1); }
  }

  lemma LiveIndexIs(bs: seq<Buffer>, total: nat, i: nat)
    requires Tiles(bs, total) && i < |bs| && !bs[i].free
    ensures LiveIndex(bs, bs[i].offset) == i
  {
    var j := LiveIndex(bs, bs[i].offset);
    if j < i { Ordered(bs, total, j, i); } else if i < j < |bs| { Ordered(bs, total, i, j); }
  }
}
