/**
The open-slot table of kext/binder_dev.c:60-249: every lookup of a binder device hands out a
minor, a process's outstanding lookup is handed the same one again, and when the table is full
the longest-standing lookup that never became an open is taken back.
*/
module Slots {
  import opened Common

  const CTL_MINOR: nat := 63
  const CLONE_BASE: nat := 64
  const MAX_OPENS: nat := 448

  /** One entry of g_slots. `proc` is whether a binder_proc hangs off it. */
  datatype Slot = Slot(cloned: bool, isOpen: bool, pid: int, context: Option<nat>, proc: bool, sequence: U64)

  const EMPTY_SLOT := Slot(false, false, 0, None, false, 0)

  datatype Table = Table(slots: seq<Slot>, sequence: U64)

  predicate Unopened(s: Slot) { s.cloned && !s.isOpen }

  /** The slot a process was handed for a context and has not opened yet. */
  predicate Outstanding(s: Slot, pid: int, ctx: nat) {
    Unopened(s) && s.pid == pid && s.context == Some(ctx)
  }

  // ---------------------------------------------------------------- lookups

  /** The first outstanding slot from `i` on, or the length of the table. */
  function FindOutstanding(ss: seq<Slot>, pid: int, ctx: nat, i: nat): (r: nat)
    requires i <= |ss|
    ensures i <= r <= |ss|
    ensures forall k | i <= k < r :: !Outstanding(ss[k], pid, ctx)
    ensures r < |ss| ==> Outstanding(ss[r], pid, ctx)
    decreases |ss| - i
  {
    if i == |ss| || Outstanding(ss[i], pid, ctx) then i else FindOutstanding(ss, pid, ctx, i + 1)
  }

  /** The first slot never handed out or closed since, from `i` on, or the length of the table. */
  function FindVacant(ss: seq<Slot>, i: nat): (r: nat)
    requires i <= |ss|
    ensures i <= r <= |ss|
    ensures forall k | i <= k < r :: ss[k].cloned
    ensures r < |ss| ==> !ss[r].cloned
    decreases |ss| - i
  {
    if i == |ss| || !ss[i].cloned then i else FindVacant(ss, i + 1)
  }

  /** Of the first `n` slots, the unopened one with the least sequence number below the all-ones mark. */
  function Oldest(ss: seq<Slot>, n: nat): (r: Option<nat>)
    requires n <= |ss|
    ensures r.Some? ==> r.value < n && Unopened(ss[r.value]) && ss[r.value].sequence < WRAP - 1
    ensures forall k | 0 <= k < n && Unopened(ss[k]) && ss[k].sequence < WRAP - 1 ::
      r.Some? && ss[r.value].sequence <= ss[k].sequence
  {
    if n == 0 then None
    else
      var r := Oldest(ss, n - 1);
      if !ss[n - 1].isOpen && ss[n - 1].cloned
         && ss[n - 1].sequence < (if r.Some? then ss[r.value].sequence else WRAP - 1)
      then Some(n - 1) else r
  }

  /** binder_clone for a context in use: the table afterwards, and the slot handed out. */
  function CloneStep(t: Table, pid: int, ctx: nat): (Table, Option<nat>) {
    var seq' := Plus(t.sequence, 1);
    var i := FindOutstanding(t.slots, pid, ctx, 0);
    if i < |t.slots| then
      (Table(t.slots[i := t.slots[i].(sequence := seq')], seq'), Some(i))
    else
      var v := FindVacant(t.slots, 0);
      var pick := if v < |t.slots| then Some(v) else Oldest(t.slots, |t.slots|);
      if pick.None? then (t, None)
      else (Table(t.slots[pick.value := Slot(true, false, pid, Some(ctx), false, seq')], seq'), pick)
  }

  datatype OpenResult = Opened | ENXIO | EBUSY | ENOMEM

  /** binder_dev_open of a cloned minor; `memory` says whether a binder_proc could be allocated. */
  function OpenStep(t: Table, i: nat, memory: bool): (Table, OpenResult)
    requires i < |t.slots|
  {
    var s := t.slots[i];
    if !s.cloned || s.context.None? then (t, ENXIO)
    else if s.isOpen then (t, EBUSY)
    else if !memory then (t, ENOMEM)
    else (t.(slots := t.slots[i := s.(proc := true, isOpen := true, pid := 0)]), Opened)
  }

  /** binder_dev_close. */
  function CloseStep(t: Table, i: nat): Table
    requires i < |t.slots|
  {
    t.(slots := t.slots[i := EMPTY_SLOT.(sequence := t.slots[i].sequence)])
  }

  // ---------------------------------------------------------------- runs

  datatype Op = Clone(pid: int, ctx: nat) | Open(slot: nat, memory: bool) | Close(slot: nat)

  /** A table together with the slots handed out so far, oldest first. */
  datatype History = History(table: Table, handed: seq<nat>)

  function Step(h: History, op: Op): History {
    match op
    case Clone(pid, ctx) =>
      var (t, r) := CloneStep(h.table, pid, ctx);
      History(t, if r.Some? then h.handed + [r.value] else h.handed)
    case Open(i, memory) => if i < |h.table.slots| then h.(table := OpenStep(h.table, i, memory).0) else h
    case Close(i) => if i < |h.table.slots| then h.(table := CloseStep(h.table, i)) else h
  }

  function Run(h: History, ops: seq<Op>): History
    decreases |ops|
  {
    if ops == [] then h else Run(Step(h, ops[0]), ops[1..])
  }

  const INITIAL := History(Table(seq(MAX_OPENS, _ => EMPTY_SLOT), 0), [])

  /** `p` is the last time slot `i` was handed out. */
  ghost predicate LastHanded(handed: seq<nat>, i: nat, p: nat) {
    p < |handed| && handed[p] == i && forall q | p < q < |handed| :: handed[q] != i
  }

  /** Between operations, as long as the sequence counter has not wrapped. */
  ghost predicate Inv(h: History) {
    var ss := h.table.slots;
    && |ss| == MAX_OPENS
    && h.table.sequence == |h.handed|
    && (forall i | 0 <= i < |ss| && ss[i].isOpen :: ss[i].cloned && ss[i].proc && ss[i].pid == 0 && ss[i].context.Some?)
    && (forall i | 0 <= i < |ss| && Unopened(ss[i]) ::
          ss[i].context.Some? && !ss[i].proc && ss[i].sequence > 0 && LastHanded(h.handed, i, ss[i].sequence - 1))
    && (forall i, j, pid, ctx | 0 <= i < j < |ss| && Outstanding(ss[i], pid, ctx) :: !Outstanding(ss[j], pid, ctx))
  }

  lemma StepKeepsInv(h: History, op: Op)
    requires Inv(h) && |h.handed| < WRAP - 1
    ensures Inv(Step(h, op))
    ensures |h.handed| <= |Step(h, op).handed| <= |h.handed| + 1
  {
    match op
    case Clone(pid, ctx) => CloneKeepsInv(h, pid, ctx);
    case Open(i, memory) =>
    case Close(i) =>
  }

  lemma CloneKeepsInv(h: History, pid: int, ctx: nat)
    requires Inv(h) && |h.handed| < WRAP - 1
    ensures Inv(Step(h, Clone(pid, ctx)))
  {
    if CloneStep(h.table, pid, ctx).1.Some? {
      CloneKeepsSlots(h, pid, ctx);
      CloneKeepsApart(h, pid, ctx);
    }
  }

  lemma CloneKeepsSlots(h: History, pid: int, ctx: nat)
    requires Inv(h) && |h.handed| < WRAP - 1 && CloneStep(h.table, pid, ctx).1.Some?
    ensures var h' := Step(h, Clone(pid, ctx)); var ss' := h'.table.slots;
      forall k | 0 <= k < |ss'| && Unopened(ss'[k]) ::
        ss'[k].context.Some? && !ss'[k].proc && ss'[k].sequence > 0 && LastHanded(h'.handed, k, ss'[k].sequence - 1)
  {
    var ss, h' := h.table.slots, Step(h, Clone(pid, ctx));
    var i, ss' := CloneStep(h.table, pid, ctx).1.value, h'.table.slots;
    forall k | 0 <= k < |ss'| && Unopened(ss'[k])
      ensures ss'[k].context.Some? && !ss'[k].proc && ss'[k].sequence > 0
      ensures LastHanded(h'.handed, k, ss'[k].sequence - 1)
    {
      if k != i { assert ss'[k] == ss[k]; }
    }
  }

  /** A lookup never makes a second unopened slot for the same process and context. */
  lemma CloneKeepsApart(h: History, pid: int, ctx: nat)
    requires Inv(h) && CloneStep(h.table, pid, ctx).1.Some?
    ensures var ss' := Step(h, Clone(pid, ctx)).table.slots;
      forall a, b, p, c | 0 <= a < b < |ss'| && Outstanding(ss'[a], p, c) :: !Outstanding(ss'[b], p, c)
  {
    var ss, ss' := h.table.slots, Step(h, Clone(pid, ctx)).table.slots;
    var i := CloneStep(h.table, pid, ctx).1.value;
    forall a, b, p, c | 0 <= a < b < |ss'| && Outstanding(ss'[a], p, c) ensures !Outstanding(ss'[b], p, c) {
      var o := FindOutstanding(ss, pid, ctx, 0);
      if a != i && b != i { assert ss'[a] == ss[a] && ss'[b] == ss[b]; }
      else if a == i { assert ss'[b] == ss[b]; }
      else { assert ss'[a] == ss[a]; }
    }
  }

  /** The invariant holds after every run of fewer lookups than the counter can count. */
  lemma {:induction false} RunKeepsInv(h: History, ops: seq<Op>)
    requires Inv(h) && |h.handed| + |ops| < WRAP - 1
    ensures Inv(Run(h, ops)) && |Run(h, ops).handed| <= |h.handed| + |ops|
    decreases |ops|
  {
    if ops != [] {
      StepKeepsInv(h, ops[0]);
      RunKeepsInv(Step(h, ops[0]), ops[1..]);
    }
  }

  lemma InitialInv()
    ensures Inv(INITIAL) && |INITIAL.handed| == 0
  {}

  lemma EveryRun(ops: seq<Op>)
    requires |ops| < WRAP - 1
    ensures Inv(Run(INITIAL, ops))
  {
    InitialInv();
    RunKeepsInv(INITIAL, ops);
  }

  // ---------------------------------------------------------------- what a lookup may do

  /** A lookup in a context in use fails exactly when every slot is opened. */
  lemma FailsIffAllOpened(h: History, pid: int, ctx: nat)
    requires Inv(h) && |h.handed| < WRAP - 1
    ensures CloneStep(h.table, pid, ctx).1.None? <==> forall i | 0 <= i < MAX_OPENS :: h.table.slots[i].isOpen
  {
    var ss := h.table.slots;
    var v := FindVacant(ss, 0);
    if FindOutstanding(ss, pid, ctx, 0) == |ss| && v == |ss| {
      if forall i | 0 <= i < MAX_OPENS :: ss[i].isOpen {
      } else {
        var i :| 0 <= i < MAX_OPENS && !ss[i].isOpen;
        assert Unopened(ss[i]) && LastHanded(h.handed, i, ss[i].sequence - 1);
      }
    } else if v < |ss| {
      assert !ss[v].isOpen;
    }
  }

  /** An opened slot is neither handed out nor touched by anything but its own close. */
  lemma OpenedIsLeftAlone(h: History, op: Op, i: nat)
    requires Inv(h) && i < MAX_OPENS && h.table.slots[i].isOpen && op != Close(i)
    ensures Step(h, op).table.slots[i] == h.table.slots[i]
    ensures Step(h, op).handed == h.handed || Step(h, op).handed[|h.handed|] != i
  {}

  /** A slot taken back from another lookup is, of all unopened slots, the one handed out longest
      ago; and none is taken back while a vacant one is left. */
  lemma ReclaimsLeastRecent(h: History, pid: int, ctx: nat, j: nat)
    requires Inv(h) && |h.handed| < WRAP - 1
    requires var r := CloneStep(h.table, pid, ctx).1;
      r.Some? && Unopened(h.table.slots[r.value]) && !Outstanding(h.table.slots[r.value], pid, ctx)
    requires j < MAX_OPENS && !h.table.slots[j].isOpen
    ensures var r := CloneStep(h.table, pid, ctx).1;
      exists p, q :: LastHanded(h.handed, r.value, p) && LastHanded(h.handed, j, q) && p <= q
  {
    var ss := h.table.slots;
    var r := CloneStep(h.table, pid, ctx).1;
    assert Unopened(ss[j]);
    assert LastHanded(h.handed, r.value, ss[r.value].sequence - 1);
    assert LastHanded(h.handed, j, ss[j].sequence - 1);
  }

  /** What ends a slot's being outstanding: its open, its close, or its being handed to someone else. */
  predicate Consumes(h: History, op: Op, i: nat, pid: int, ctx: nat) {
    match op
    case Clone(p, c) => (p != pid || c != ctx) && CloneStep(h.table, p, c).1 == Some(i)
    case Open(k, memory) => k == i && memory
    case Close(k) => k == i
  }

  ghost predicate Undisturbed(h: History, ops: seq<Op>, i: nat, pid: int, ctx: nat)
    decreases |ops|
  {
    ops == [] || (!Consumes(h, ops[0], i, pid, ctx) && Undisturbed(Step(h, ops[0]), ops[1..], i, pid, ctx))
  }

  lemma OutstandingStays(h: History, op: Op, i: nat, pid: int, ctx: nat)
    requires Inv(h) && i < MAX_OPENS && Outstanding(h.table.slots[i], pid, ctx)
    requires !Consumes(h, op, i, pid, ctx)
    ensures i < |Step(h, op).table.slots| && Outstanding(Step(h, op).table.slots[i], pid, ctx)
  {}

  lemma OutstandingIsReturned(h: History, i: nat, pid: int, ctx: nat)
    requires Inv(h) && i < MAX_OPENS && Outstanding(h.table.slots[i], pid, ctx)
    ensures CloneStep(h.table, pid, ctx).1 == Some(i)
  {
    var o := FindOutstanding(h.table.slots, pid, ctx, 0);
    if o < i { assert false; }
  }

  /** A repeated lookup returns the same minor through any run that does not open, close or
      reclaim its slot. */
  lemma {:induction false} StableUntilConsumed(h: History, ops: seq<Op>, i: nat, pid: int, ctx: nat)
    requires Inv(h) && |h.handed| + |ops| < WRAP - 1
    requires i < MAX_OPENS && Outstanding(h.table.slots[i], pid, ctx)
    requires Undisturbed(h, ops, i, pid, ctx)
    ensures CloneStep(Run(h, ops).table, pid, ctx).1 == Some(i)
    decreases |ops|
  {
    if ops == [] {
      OutstandingIsReturned(h, i, pid, ctx);
    } else {
      StepKeepsInv(h, ops[0]);
      OutstandingStays(h, ops[0], i, pid, ctx);
      StableUntilConsumed(Step(h, ops[0]), ops[1..], i, pid, ctx);
    }
  }

  // ---------------------------------------------------------------- the driver's form

  class SlotTable {
    const slots: array<Slot>
    var sequence: U64

    ghost function View(): Table
      reads this, slots
    {
      Table(slots[..], sequence)
    }

    constructor ()
      ensures fresh(slots) && View() == INITIAL.table
    {
      slots := new Slot[MAX_OPENS](_ => EMPTY_SLOT);
      sequence := 0;
      new;
      assert slots[..] == INITIAL.table.slots;
    }

    /** binder_clone. `allocate` says whether the action is DEVFS_CLONE_ALLOC; the context is what
        binder_context_for_minor found for the base minor. */
    method Clone(allocate: bool, context: Option<nat>, pid: int) returns (minor: int)
      requires slots.Length == MAX_OPENS
      modifies this`sequence, slots
      ensures !allocate ==> minor == 0 && View() == old(View())
      ensures allocate && context.None? ==> minor == -1 && View() == old(View())
      ensures allocate && context.Some? ==> var (t, r) := CloneStep(old(View()), pid, context.value);
        View() == t && minor == if r.Some? then CLONE_BASE + r.value else -1
    {
      if !allocate { return 0; }
      if context.None? { return -1; }
      var i := FindMine(pid, context.value);
      if i < MAX_OPENS {
        sequence := Plus(sequence, 1);
        slots[i] := slots[i].(sequence := sequence);
        return CLONE_BASE + i;
      }
      var pick := FindRoom();
      if pick < 0 { return -1; }
      sequence := Plus(sequence, 1);
      slots[pick] := Slot(true, false, pid, context, false, sequence);
      return CLONE_BASE + pick;
    }

    /** The first loop of binder_clone: the process's outstanding lookup of the context. */
    method FindMine(pid: int, ctx: nat) returns (i: nat)
      requires slots.Length == MAX_OPENS
      ensures i == FindOutstanding(slots[..], pid, ctx, 0)
    {
      i := 0;
      while i < MAX_OPENS
        invariant i <= MAX_OPENS && FindOutstanding(slots[..], pid, ctx, 0) == FindOutstanding(slots[..], pid, ctx, i)
      {
        if slots[i].cloned && !slots[i].isOpen && slots[i].pid == pid && slots[i].context == Some(ctx) { return; }
        i := i + 1;
      }
    }

    /** Its second loop: a slot that is free, or the longest-standing clone that never became an open. */
    method FindRoom() returns (i: int)
      requires slots.Length == MAX_OPENS
      ensures var v := FindVacant(slots[..], 0);
        (if v < MAX_OPENS then Some(v) else Oldest(slots[..], MAX_OPENS)) == if 0 <= i < MAX_OPENS then Some(i) else None
      ensures i < MAX_OPENS
    {
      i := 0;
      var oldest := -1;
      var oldestSeq := WRAP - 1;
      while i < MAX_OPENS && slots[i].cloned
        invariant 0 <= i <= MAX_OPENS && FindVacant(slots[..], 0) == FindVacant(slots[..], i)
        invariant if oldest < 0 then Oldest(slots[..], i) == None && oldestSeq == WRAP - 1
                  else Oldest(slots[..], i) == Some(oldest) && oldestSeq == slots[oldest].sequence
      {
        if !slots[i].isOpen && slots[i].sequence < oldestSeq {
          oldestSeq := slots[i].sequence;
          oldest := i;
        }
        i := i + 1;
      }
      if i == MAX_OPENS { i := oldest; }
    }

    /** binder_dev_open; a minor outside the cloned range names no slot, and only the control device opens without
        one. */
    method Open(minor: nat, memory: bool) returns (r: OpenResult)
      requires slots.Length == MAX_OPENS
      modifies slots
      ensures CLONE_BASE <= minor < CLONE_BASE + MAX_OPENS ==>
        (View(), r) == OpenStep(old(View()), minor - CLONE_BASE, memory)
      ensures !(CLONE_BASE <= minor < CLONE_BASE + MAX_OPENS) ==>
        r == (if minor == CTL_MINOR then Opened else ENXIO) && View() == old(View())
    {
      if minor < CLONE_BASE || minor >= CLONE_BASE + MAX_OPENS {
        return if minor == CTL_MINOR then Opened else ENXIO;
      }
      var i := minor - CLONE_BASE;
      if !slots[i].cloned || slots[i].context.None? { return ENXIO; }
      if slots[i].isOpen { return EBUSY; }
      if !memory { return ENOMEM; }
      slots[i] := slots[i].(proc := true);
      slots[i] := slots[i].(isOpen := true);
      slots[i] := slots[i].(pid := 0);
      assert slots[..] == OpenStep(old(View()), i, memory).0.slots;
      return Opened;
    }

    /** binder_dev_close, the release of the process itself apart. */
    method Close(minor: nat)
      requires slots.Length == MAX_OPENS
      modifies slots
      ensures View() == if CLONE_BASE <= minor < CLONE_BASE + MAX_OPENS
        then CloseStep(old(View()), minor - CLONE_BASE) else old(View())
    {
      if minor < CLONE_BASE || minor >= CLONE_BASE + MAX_OPENS { return; }
      var i := minor - CLONE_BASE;
      if slots[i].proc {
        slots[i] := slots[i].(proc := false);
      }
      slots[i] := Slot(false, false, 0, None, slots[i].proc, slots[i].sequence);
      assert slots[..] == CloseStep(old(View()), i).slots;
    }
  }
}
