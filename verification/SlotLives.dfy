/**
The life of one slot of the table of Slots (kext/binder_dev.c:115-249): handed out by a lookup, opened once, in use until
it is closed, and then free to be handed out again. What an open answers says where in its life the slot is.
*/
module SlotLives {
  import opened Common
  import opened Slots

  // ---------------------------------------------------------------- handed out

  /** A lookup that succeeds leaves its slot outstanding for its caller, records it, and changes no other slot. */
  lemma LookupHands(h: History, pid: int, ctx: nat)
    requires Inv(h) && |h.handed| < WRAP - 1 && CloneStep(h.table, pid, ctx).1.Some?
    ensures var h' := Step(h, Clone(pid, ctx)); var i := CloneStep(h.table, pid, ctx).1.value;
      && i < MAX_OPENS && |h'.table.slots| == MAX_OPENS && Outstanding(h'.table.slots[i], pid, ctx)
      && !h.table.slots[i].isOpen && h'.handed == h.handed + [i]
      && forall k | 0 <= k < MAX_OPENS && k != i :: h'.table.slots[k] == h.table.slots[k]
  {}

  /** Slot `i` was handed out after the first `n` lookups. */
  ghost predicate HandedSince(h: History, n: nat, i: nat) { exists q :: n <= q < |h.handed| && h.handed[q] == i }

  lemma {:induction false} RunAppends(h: History, ops: seq<Op>)
    ensures h.handed <= Run(h, ops).handed
    decreases |ops|
  {
    if ops != [] { RunAppends(Step(h, ops[0]), ops[1..]); }
  }

  lemma SinceStep(h: History, op: Op, ops: seq<Op>, i: nat)
    requires !HandedSince(Run(Step(h, op), ops), |h.handed|, i)
    ensures !HandedSince(Step(h, op), |h.handed|, i) && !HandedSince(Run(Step(h, op), ops), |Step(h, op).handed|, i)
  {
    RunAppends(Step(h, op), ops);
    assert h.handed <= Step(h, op).handed;
    forall q | |h.handed| <= q < |Step(h, op).handed| ensures Step(h, op).handed[q] != i {
      assert Run(Step(h, op), ops).handed[q] == Step(h, op).handed[q];
    }
  }

  // ---------------------------------------------------------------- vacant

  /** A slot that is vacant stays so until a lookup hands it out. */
  lemma {:induction false} VacantUntilHanded(h: History, ops: seq<Op>, i: nat)
    requires Inv(h) && |h.handed| + |ops| < WRAP - 1 && i < MAX_OPENS && !h.table.slots[i].cloned
    requires !HandedSince(Run(h, ops), |h.handed|, i)
    ensures Inv(Run(h, ops)) && !Run(h, ops).table.slots[i].cloned
    decreases |ops|
  {
    if ops != [] {
      var h' := Step(h, ops[0]);
      StepKeepsInv(h, ops[0]);
      SinceStep(h, ops[0], ops[1..], i);
      VacantStep(h, ops[0], i);
      VacantUntilHanded(h', ops[1..], i);
    }
  }

  lemma VacantStep(h: History, op: Op, i: nat)
    requires Inv(h) && |h.handed| < WRAP - 1 && i < MAX_OPENS && !h.table.slots[i].cloned
    requires !HandedSince(Step(h, op), |h.handed|, i)
    ensures i < |Step(h, op).table.slots| && !Step(h, op).table.slots[i].cloned
  {
    if op.Clone? && CloneStep(h.table, op.pid, op.ctx).1.Some? {
      LookupHands(h, op.pid, op.ctx);
      assert Step(h, op).handed[|h.handed|] == CloneStep(h.table, op.pid, op.ctx).1.value;
    }
  }

  /** A slot never handed out answers ENXIO, after any run. */
  lemma NeverHandedIsRefused(ops: seq<Op>, i: nat, memory: bool)
    requires |ops| < WRAP - 1 && i < MAX_OPENS && i !in Run(INITIAL, ops).handed
    ensures Inv(Run(INITIAL, ops)) && OpenStep(Run(INITIAL, ops).table, i, memory) == (Run(INITIAL, ops).table, ENXIO)
  {
    InitialInv();
    VacantUntilHanded(INITIAL, ops, i);
  }

  /** So does a slot that was closed, after any run that does not hand it out again. */
  lemma ClosedIsRefused(h: History, ops: seq<Op>, i: nat, memory: bool)
    requires Inv(h) && |h.handed| + |ops| < WRAP - 1 && i < MAX_OPENS
    requires !HandedSince(Run(Step(h, Close(i)), ops), |h.handed|, i)
    ensures var g := Run(Step(h, Close(i)), ops);
      Inv(g) && OpenStep(g.table, i, memory) == (g.table, ENXIO)
  {
    var h' := Step(h, Close(i));
    StepKeepsInv(h, Close(i));
    VacantUntilHanded(h', ops, i);
  }

  /** A closed slot can be handed out again: no lookup fails, and one that finds every other slot taken and none of its
      own gets this one. */
  lemma ClosedIsHandedOut(h: History, i: nat, pid: int, ctx: nat)
    requires Inv(h) && |h.handed| < WRAP - 1 && i < MAX_OPENS
    ensures var t := Step(h, Close(i)).table;
      && |t.slots| == MAX_OPENS && CloneStep(t, pid, ctx).1.Some?
      && ((forall k | 0 <= k < MAX_OPENS && k != i :: t.slots[k].cloned && !Outstanding(t.slots[k], pid, ctx)) ==>
            CloneStep(t, pid, ctx).1 == Some(i))
      && forall k | 0 <= k < MAX_OPENS && k != i :: t.slots[k] == h.table.slots[k]
  {
    var h' := Step(h, Close(i));
    StepKeepsInv(h, Close(i));
    FailsIffAllOpened(h', pid, ctx);
    assert !h'.table.slots[i].cloned && !h'.table.slots[i].isOpen;
    assert FindVacant(h'.table.slots, 0) <= i;
  }

  // ---------------------------------------------------------------- in use

  /** What an open of a slot answers, and that only the answer Opened changes anything. */
  lemma OpenAnswers(h: History, i: nat, memory: bool)
    requires Inv(h) && i < MAX_OPENS
    ensures var r := OpenStep(h.table, i, memory).1; var x := h.table.slots[i];
      && (r == ENXIO <==> !x.cloned) && (r == EBUSY <==> x.isOpen)
      && (r == Opened <==> Unopened(x) && memory) && (r == ENOMEM <==> Unopened(x) && !memory)
      && (r != Opened ==> Step(h, Open(i, memory)) == h)
  {}

  /** An open that goes through: until its close the slot is in use, any other open of it answers EBUSY, and no lookup
      is handed it, whatever is called meanwhile. */
  lemma {:induction false} InUseUntilClosed(h: History, ops: seq<Op>, i: nat, memory: bool)
    requires Inv(h) && |h.handed| + |ops| < WRAP - 1 && i < MAX_OPENS && Unopened(h.table.slots[i]) && Close(i) !in ops
    ensures var g := Run(Step(h, Open(i, true)), ops);
      && Inv(g) && g.table.slots[i].isOpen && OpenStep(g.table, i, memory) == (g.table, EBUSY)
      && !HandedSince(g, |h.handed|, i)
  {
    var h' := Step(h, Open(i, true));
    StepKeepsInv(h, Open(i, true));
    assert h'.table.slots[i].isOpen && h'.handed == h.handed;
    StaysOpen(h', ops, i);
  }

  lemma {:induction false} StaysOpen(h: History, ops: seq<Op>, i: nat)
    requires Inv(h) && |h.handed| + |ops| < WRAP - 1 && i < MAX_OPENS && h.table.slots[i].isOpen && Close(i) !in ops
    ensures Inv(Run(h, ops)) && Run(h, ops).table.slots[i].isOpen && !HandedSince(Run(h, ops), |h.handed|, i)
    decreases |ops|
  {
    if ops != [] {
      var h' := Step(h, ops[0]);
      assert ops[0] in ops;
      StepKeepsInv(h, ops[0]);
      OpenedIsLeftAlone(h, ops[0], i);
      StaysOpen(h', ops[1..], i);
      RunAppends(h', ops[1..]);
      forall q | |h.handed| <= q < |Run(h, ops).handed| ensures Run(h, ops).handed[q] != i {
        if q < |h'.handed| { assert Run(h, ops).handed[q] == h'.handed[q]; }
      }
    }
  }
}
