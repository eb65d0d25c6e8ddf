/**
What each delivery, exit, close and error comes to. A delivered transaction is off its queue for good, so that nothing
is delivered twice in any run (kext/binder_proc.c:852-858); a thread or process that goes leaves nothing addressed to it
(kext/binder_proc.c:197-273, 357-389); and an error stays with its thread until the thread reads it
(kext/binder_txn.c:374-388, kext/binder_proc.c:236-242).
*/
module CallDelivery {
  import opened Common
  import opened CallStacks
  import opened CallInvariant
  import opened CallSteps
  import opened CallTheorems

  // ---------------------------------------------------------------- deliveries

  /** A reply that is read is gone and changes nothing else. */
  lemma ReplyIsDone(h: History, th: Tid, t: TxnId)
    requires Good(h) && MayDeliver(h.s, th, t) && !h.s.txns[t].needReply
    ensures HDeliver(h, th, t).s == h.s.(txns := h.s.txns - {t})
  {
    forall a | a in h.s.threads ensures h.s.threads[a].stack != Some(t) {
      assert Deepest(h, a, h.s.threads[a].stack);
    }
  }

  /** A call that is read is off its queue and on top of its reader's stack, and changes nothing else. */
  lemma CallIsTaken(h: History, th: Tid, t: TxnId)
    requires Good(h) && MayDeliver(h.s, th, t) && h.s.txns[t].needReply
    ensures var s' := HDeliver(h, th, t).s;
      && t in s'.txns && s'.txns[t].queue.None? && s'.txns[t].toThread == Some(th)
      && th in s'.threads && s'.threads[th].stack == Some(t) && Below(s'.txns, th, t) == h.s.threads[th].stack
      && s'.txns - {t} == h.s.txns - {t} && s'.threads - {th} == h.s.threads - {th}
      && s'.threads[th] == h.s.threads[th].(stack := Some(t)) && s'.txns[t].from == h.s.txns[t].from
  {
    NotItsOwn(h, th, t);
    TakenIs(h.s, Deliver(h.s, th, t), th, t);
  }

  lemma NotItsOwn(h: History, th: Tid, t: TxnId)
    requires Good(h) && MayDeliver(h.s, th, t) && h.s.txns[t].needReply
    ensures h.s.txns[t].from != Some(th)
  {
    assert IsCall(h.s, t) && Addressed(h, t);
    DeliverOnTop(h, th, t);
  }

  lemma TakenIs(s: State, s': State, th: Tid, t: TxnId)
    requires th in s.threads && t in s.txns && s.txns[t].needReply && s.txns[t].from != Some(th) && s' == Deliver(s, th, t)
    ensures t in s'.txns && s'.txns[t].queue.None? && s'.txns[t].toThread == Some(th)
    ensures th in s'.threads && s'.threads[th].stack == Some(t) && Below(s'.txns, th, t) == s.threads[th].stack
    ensures s'.txns - {t} == s.txns - {t} && s'.threads - {th} == s.threads - {th}
    ensures s'.threads[th] == s.threads[th].(stack := Some(t)) && s'.txns[t].from == s.txns[t].from
  {}

  /** A transaction there has been that nobody can be given any more. */
  predicate Done(s: State, t: TxnId) { t < s.next && (t !in s.txns || s.txns[t].queue.None?) }

  lemma DeliveredIsDone(h: History, th: Tid, t: TxnId)
    requires Good(h) && MayDeliver(h.s, th, t)
    ensures Done(HDeliver(h, th, t).s, t)
  {
    if h.s.txns[t].needReply {
      CallIsTaken(h, th, t);
    } else {
      ReplyIsDone(h, th, t);
    }
  }

  /** No step puts it on a queue again. */
  lemma DoneStays(h: History, op: Op, t: TxnId)
    requires Good(h) && May(h.s, op) && Done(h.s, t)
    ensures Done(HStep(h, op).s, t)
  {
    match op
    case OpCall(th, target) => InvLinked(h);
    case OpDeliver(th, u) => DeliverDone(h.s, th, u, t);
    case OpReply(th) => ReplyDone(h.s, th, t);
    case OpFail(_, _) =>
    case OpReadError(_) =>
    case OpExit(th) => ExitDone(h.s, th, t);
    case OpClose(p) => CloseDone(h.s, p, t);
  }

  lemma DeliverDone(s: State, th: Tid, u: TxnId, t: TxnId)
    requires th in s.threads && u in s.txns && Done(s, t)
    ensures Done(Deliver(s, th, u), t)
  {}

  lemma ReplyDone(s: State, th: Tid, t: TxnId)
    requires Serving(s, th) && Done(s, t)
    ensures Done(Reply(s, th), t)
  {}

  lemma ExitDone(s: State, th: Tid, t: TxnId)
    requires th in s.threads && Done(s, t)
    ensures Done(Exit(s, th), t)
  {}

  lemma CloseDone(s: State, p: Pid, t: TxnId)
    requires Done(s, t)
    ensures Done(Close(s, p), t)
  {}

  lemma DoneForGood(hs: seq<History>, ops: seq<Op>, i: nat, j: nat, t: TxnId)
    requires Run(hs, ops) && i <= j < |hs| && Done(hs[i].s, t)
    ensures Done(hs[j].s, t)
  {
    forall k | i <= k < j ensures KeepsDone(hs[k].s, hs[k + 1].s, t) { DoneNext(hs, ops, k, t); }
    DoneThrough(hs, i, j, t);
  }

  predicate KeepsDone(s: State, s': State, t: TxnId) { Done(s, t) ==> Done(s', t) }

  lemma DoneNext(hs: seq<History>, ops: seq<Op>, i: nat, t: TxnId)
    requires Run(hs, ops) && i < |ops|
    ensures KeepsDone(hs[i].s, hs[i + 1].s, t)
  {
    var h, h' := RunStep(hs, ops, i);
    if Done(h.s, t) { StepsToDone(h, ops[i], h', t); }
  }

  lemma {:induction false} DoneThrough(hs: seq<History>, i: nat, j: nat, t: TxnId)
    requires i <= j < |hs| && Done(hs[i].s, t) && forall k | i <= k < j :: KeepsDone(hs[k].s, hs[k + 1].s, t)
    ensures Done(hs[j].s, t)
  {
    if i < j {
      DoneThrough(hs, i, j - 1, t);
      assert KeepsDone(hs[j - 1].s, hs[j - 1 + 1].s, t);
    }
  }

  /** One step of a run, from a good state. */
  lemma RunStep(hs: seq<History>, ops: seq<Op>, i: nat) returns (h: History, h': History)
    requires Run(hs, ops) && i < |ops|
    ensures h == hs[i] && h' == hs[i + 1] && Good(h) && StepsTo(h, ops[i], h')
  {
    EveryRun(hs, ops, i);
    h, h' := hs[i], hs[i + 1];
  }

  lemma StepsToDone(h: History, op: Op, h': History, t: TxnId)
    requires Good(h) && StepsTo(h, op, h') && Done(h.s, t)
    ensures Done(h'.s, t)
  {
    DoneStays(h, op, t);
  }

  /** In every run no transaction, call or reply, is delivered twice. */
  lemma NeverTwice(hs: seq<History>, ops: seq<Op>, i: nat, j: nat, t: TxnId)
    requires Run(hs, ops) && i < j < |ops| && ops[i].OpDeliver? && ops[i].t == t
    ensures !(ops[j].OpDeliver? && ops[j].t == t)
  {
    var h, h' := RunStep(hs, ops, i);
    StepsToDelivered(h, ops[i], h');
    DoneForGood(hs, ops, i + 1, j, t);
    var g, g' := RunStep(hs, ops, j);
  }

  lemma StepsToDelivered(h: History, op: Op, h': History)
    requires Good(h) && StepsTo(h, op, h') && op.OpDeliver?
    ensures Done(h'.s, op.t)
  {
    DeliveredIsDone(h, op.th, op.t);
  }

  // ---------------------------------------------------------------- going away

  /** Thread `a` has a call that `th` is serving. */
  ghost predicate ServesCallOf(s: State, th: Tid, a: Tid) {
    exists t :: IsCall(s, t) && s.txns[t].from == Some(a) && s.txns[t].queue.None? && s.txns[t].toThread == Some(th)
  }

  /** After a thread exit another thread has BR_DEAD_REPLY queued if and only if it had before or the thread that went
      was serving a call of its, and nothing else of it changes. */
  lemma ExitTellsIff(h: History, th: Tid, a: Tid)
    requires th in h.s.threads && a in h.s.threads && a != th
    ensures var s' := HExit(h, th).s;
      && a in s'.threads && s'.threads[a] == h.s.threads[a].(error := s'.threads[a].error)
      && s'.threads[a].error == if ServesCallOf(h.s, th, a) then Some(DeadReply) else h.s.threads[a].error
  {
    LosesIff(h.s, th, a);
    ExitThreads(h.s, th, a);
  }

  lemma LosesIff(s: State, th: Tid, a: Tid)
    ensures LosesServer(s.txns, a, {th}) <==> ServesCallOf(s, th, a)
  {
    if ServesCallOf(s, th, a) {
      var t :| IsCall(s, t) && s.txns[t].from == Some(a) && s.txns[t].queue.None? && s.txns[t].toThread == Some(th);
      assert ServedBy(s.txns[t], {th});
    }
    if LosesServer(s.txns, a, {th}) {
      var t :| t in s.txns && s.txns[t].from == Some(a) && ServedBy(s.txns[t], {th});
      assert IsCall(s, t);
    }
  }

  lemma ExitThreads(s: State, th: Tid, a: Tid)
    requires th in s.threads && a in s.threads && a != th
    ensures var s' := Exit(s, th);
      && a in s'.threads && s'.threads[a] == s.threads[a].(error := s'.threads[a].error)
      && s'.threads[a].error == if LosesServer(s.txns, a, {th}) then Some(DeadReply) else s.threads[a].error
  {}

  /** Nothing is addressed to a thread. */
  predicate Unaddressed(x: Txn, th: Tid) {
    x.from != Some(th) && x.queue != Some(ThreadQueue(th)) && !(x.needReply && x.queue.None? && x.toThread == Some(th))
  }

  /** A thread that exits leaves every transaction there, none addressed to it: what waited on its own queue waits on the
      queue of its process, and what concerns other threads is as it was. */
  lemma ExitLeaves(h: History, th: Tid, t: TxnId)
    requires Good(h) && th in h.s.threads && t in h.s.txns
    ensures var s' := HExit(h, th).s; var x := h.s.txns[t];
      && th !in s'.threads && s'.procs == h.s.procs && t in s'.txns && Unaddressed(s'.txns[t], th)
      && s'.txns[t].queue == (if x.queue == Some(ThreadQueue(th)) then Some(ProcQueue(h.s.threads[th].proc)) else x.queue)
      && (Unaddressed(x, th) ==> s'.txns[t] == x)
      && (x.from != Some(th) ==> s'.txns[t].from == x.from)
  {
  }

  /** A process that closes leaves no thread of its own, and of its transactions those that were taken by one of its
      threads, none addressed to any of them; a transaction between others is as it was. */
  lemma CloseLeaves(h: History, p: Pid, t: TxnId)
    requires t in h.s.txns
    ensures var s' := HClose(h, p).s; var x := h.s.txns[t]; var gone := ThreadsOf(h.s, p);
      && p !in s'.procs && s'.procs == h.s.procs - {p}
      && s'.threads.Keys == h.s.threads.Keys - gone
      && (forall a | a in s'.threads :: s'.threads[a].proc == h.s.threads[a].proc)
      && (t in s'.txns <==> !(x.queue == Some(ProcQueue(p)) || exists a :: a in gone && x.queue == Some(ThreadQueue(a))))
      && (t in s'.txns ==> forall a | a in gone :: Unaddressed(s'.txns[t], a))
      && (t in s'.txns && (forall a | a in gone :: Unaddressed(x, a)) ==> s'.txns[t] == x)
  {
    CloseThreads(h.s, p);
    CloseTxn(h.s, p, t);
  }

  lemma CloseThreads(s: State, p: Pid)
    ensures var s' := Close(s, p);
      && s'.procs == s.procs - {p} && s'.threads.Keys == s.threads.Keys - ThreadsOf(s, p)
      && forall a | a in s'.threads :: s'.threads[a].proc == s.threads[a].proc
  {}

  lemma CloseTxn(s: State, p: Pid, t: TxnId)
    requires t in s.txns
    ensures var s' := Close(s, p); var x := s.txns[t]; var gone := ThreadsOf(s, p);
      && (t in s'.txns <==> !(x.queue == Some(ProcQueue(p)) || exists a :: a in gone && x.queue == Some(ThreadQueue(a))))
      && (t in s'.txns ==> forall a | a in gone :: Unaddressed(s'.txns[t], a))
      && (t in s'.txns && (forall a | a in gone :: Unaddressed(x, a)) ==> s'.txns[t] == x)
  {
    var x, gone := s.txns[t], ThreadsOf(s, p);
    if forall a | a in gone :: Unaddressed(x, a) { assert Detached(x, gone) == x; }
  }

  // ---------------------------------------------------------------- errors

  /** What ends a thread's error: its reading it, or its going. */
  predicate EndsError(s: State, op: Op, th: Tid) {
    match op
    case OpReadError(a) => a == th
    case OpExit(a) => a == th
    case OpClose(p) => th in s.threads && s.threads[th].proc == p
    case _ => false
  }

  /** Thread `a` is still there, with an error if it had one. */
  predicate ErrorKept(s: State, s': State, a: Tid) {
    a in s.threads && a in s'.threads && (s.threads[a].error.Some? ==> s'.threads[a].error.Some?)
  }

  lemma PopKeepsErrors(threads: map<Tid, Thread>, th: Option<Tid>, t: TxnId, below: Option<TxnId>, a: Tid)
    requires a in threads
    ensures a in PopIf(threads, th, t, below) && PopIf(threads, th, t, below)[a].error == threads[a].error
  {}

  lemma FreeKeepsErrors(s: State, t: TxnId, a: Tid)
    requires t in s.txns && a in s.threads
    ensures a in FreeTxn(s, t).threads && FreeTxn(s, t).threads[a].error == s.threads[a].error
  {
    var x := s.txns[t];
    PopKeepsErrors(s.threads, x.from, t, x.fromParent, a);
    PopKeepsErrors(PopIf(s.threads, x.from, t, x.fromParent), x.toThread, t, x.toParent, a);
  }

  lemma ReplyKeepsErrors(s: State, th: Tid, a: Tid)
    requires Serving(s, th) && a in s.threads
    ensures ErrorKept(s, Reply(s, th), a)
  {
    var t := s.threads[th].stack.value;
    var popped := s.(threads := s.threads[th := s.threads[th].(stack := s.txns[t].toParent)]);
    FreeKeepsErrors(popped, t, a);
    FreeKeepsErrors(popped.(threads := popped.threads[th := popped.threads[th].(error := Some(DeadReply))]), t, a);
  }

  lemma DeliverKeepsErrors(s: State, th: Tid, t: TxnId, a: Tid)
    requires th in s.threads && t in s.txns && a in s.threads
    ensures ErrorKept(s, Deliver(s, th, t), a)
  {
    FreeKeepsErrors(s, t, a);
  }

  lemma ErrorStays(h: History, op: Op, h': History, th: Tid)
    requires Good(h) && StepsTo(h, op, h') && th in h.s.threads && !EndsError(h.s, op, th)
    ensures ErrorKept(h.s, h'.s, th)
  {
    if op.OpDeliver? { DeliverKeepsErrors(h.s, op.th, op.t, th); }
    if op.OpReply? { ReplyKeepsErrors(h.s, op.th, th); }
  }

  predicate HasError(s: State, th: Tid) { th in s.threads && s.threads[th].error.Some? }

  /** In every run an error is there to be read until it is, or its thread goes. */
  lemma ErrorUntilRead(hs: seq<History>, ops: seq<Op>, i: nat, j: nat, th: Tid)
    requires Run(hs, ops) && i <= j < |hs| && HasError(hs[i].s, th)
    requires forall k | i <= k < j :: !EndsError(hs[k].s, ops[k], th)
    ensures HasError(hs[j].s, th)
  {
    forall k | i <= k < j ensures KeepsError(hs[k].s, hs[k + 1].s, th) { ErrorNext(hs, ops, k, th); }
    ErrorThrough(hs, i, j, th);
  }

  predicate KeepsError(s: State, s': State, th: Tid) { HasError(s, th) ==> HasError(s', th) }

  lemma ErrorNext(hs: seq<History>, ops: seq<Op>, i: nat, th: Tid)
    requires Run(hs, ops) && i < |ops| && !EndsError(hs[i].s, ops[i], th)
    ensures KeepsError(hs[i].s, hs[i + 1].s, th)
  {
    var h, h' := RunStep(hs, ops, i);
    if HasError(h.s, th) { ErrorStays(h, ops[i], h', th); }
  }

  lemma {:induction false} ErrorThrough(hs: seq<History>, i: nat, j: nat, th: Tid)
    requires i <= j < |hs| && HasError(hs[i].s, th) && forall k | i <= k < j :: KeepsError(hs[k].s, hs[k + 1].s, th)
    ensures HasError(hs[j].s, th)
  {
    if i < j {
      ErrorThrough(hs, i, j - 1, th);
      assert KeepsError(hs[j - 1].s, hs[j - 1 + 1].s, th);
    }
  }

  /** A send that fails tells its sender and nobody else; a reply whose caller is gone tells the replier BR_DEAD_REPLY
      and ends the call; reading clears exactly the reader's error. */
  lemma ErrorsAre(h: History, th: Tid, e: Error, a: Tid)
    requires Good(h) && th in h.s.threads && a in h.s.threads
    ensures var s' := HStep(h, OpFail(th, e)).s;
      s'.txns == h.s.txns && a in s'.threads && s'.threads[a].stack == h.s.threads[a].stack
      && s'.threads[a].error == if a == th then Some(e) else h.s.threads[a].error
    ensures var s' := HStep(h, OpReadError(th)).s;
      s'.txns == h.s.txns && a in s'.threads && s'.threads[a].stack == h.s.threads[a].stack
      && s'.threads[a].error == if a == th then None else h.s.threads[a].error
  {}

  lemma ReplyToNobody(h: History, th: Tid, a: Tid)
    requires Good(h) && Serving(h.s, th) && a in h.s.threads
    requires h.s.txns[h.s.threads[th].stack.value].from.None?
    ensures var s' := HReply(h, th).s; var t := h.s.threads[th].stack.value;
      && s'.txns == h.s.txns - {t} && a in s'.threads
      && s'.threads[a] == if a == th then Thread(h.s.threads[th].proc, h.s.txns[t].toParent, Some(DeadReply)) else h.s.threads[a]
  {
    var t := h.s.threads[th].stack.value;
    assert Deepest(h, th, Some(t));
    assert Linked(h.s.txns) by { InvLinked(h); }
  }
}
