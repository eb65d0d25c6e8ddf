/**
Closing a process step by step: transactions are dropped, threads let go of their stacks, threads go. The
steps lead from the state before to what CallStacks.Close says, in whatever order they come.
*/
module CallClosing {
  import opened Common
  import opened CallStacks
  import opened CallInvariant

  /** The state once a thread has let go of its stack but is still there. */
  ghost function Unwound(s: State, th: Tid): State
    requires th in s.threads
  {
    s.(threads := map a | a in s.threads ::
         if a == th then s.threads[a].(stack := None)
         else if LosesServer(s.txns, a, {th}) then s.threads[a].(error := Some(DeadReply))
         else s.threads[a],
       txns := map t | t in s.txns :: Detached(s.txns[t], {th}))
  }

  /** The `i`-th entry of a stack, if it is that high. */
  ghost function At(ws: seq<TxnId>, i: nat): Option<TxnId> {
    if i < |ws| then Some(ws[i]) else None
  }

  /** Each entry of `ws` is linked to the one after it, on the side of `th`. */
  ghost predicate Threaded(txns: map<TxnId, Txn>, th: Tid, ws: seq<TxnId>) {
    forall i | 0 <= i < |ws| :: ws[i] in txns && Below(txns, th, ws[i]) == At(ws, i + 1)
  }

  /** `ws` is the stack of `th` along its links, and it holds every call `th` takes part in. */
  ghost predicate Unwindable(s: State, th: Tid, ws: seq<TxnId>) {
    && th in s.threads
    && s.threads[th].stack == At(ws, 0) && Threaded(s.txns, th, ws)
    && (forall i, j | 0 <= i < j < |ws| :: ws[i] != ws[j])
    && (forall i | 0 <= i < |ws| :: (s.txns[ws[i]].from == Some(th)) != ServedBy(s.txns[ws[i]], {th}))
    && (forall t | t in s.txns && (s.txns[t].from == Some(th) || ServedBy(s.txns[t], {th})) :: t in ws)
  }

  // ---------------------------------------------------------------- a process partly closed

  ghost function OnProc(s: State, p: Pid): set<TxnId> {
    set t | t in s.txns && s.txns[t].queue == Some(ProcQueue(p))
  }

  ghost function OnThread(s: State, th: Tid): set<TxnId> {
    set t | t in s.txns && s.txns[t].queue == Some(ThreadQueue(th))
  }

  ghost function OnThreads(s: State, ths: set<Tid>): set<TxnId> {
    set t | t in s.txns && s.txns[t].queue.Some? && s.txns[t].queue.value.ThreadQueue? && s.txns[t].queue.value.tid in ths
  }

  /** Everything undelivered in the process. */
  ghost function DroppedIn(s: State, p: Pid): set<TxnId> {
    set t | t in s.txns && Dropped(s.txns[t], p, ThreadsOf(s, p))
  }

  /** A caller has been told: by a server that let go, or for a call dropped from the process queue. */
  ghost predicate ToldSo(s: State, a: Tid, p: Pid, dropped: set<TxnId>, gone: set<Tid>) {
    || LosesServer(s.txns, a, gone)
    || exists t :: t in dropped && t in s.txns && s.txns[t].from == Some(a) && s.txns[t].queue == Some(ProcQueue(p))
  }

  ghost function StackNow(s: State, a: Tid, dropped: set<TxnId>): Option<TxnId>
    requires a in s.threads
  {
    var top := s.threads[a].stack;
    if top.Some? && top.value in dropped && top.value in s.txns && s.txns[top.value].from == Some(a)
    then s.txns[top.value].fromParent else top
  }

  /** `dropped` are freed, the threads in `gone` have let go, and those in `removed` are no more. */
  ghost function CloseSome(s: State, p: Pid, dropped: set<TxnId>, gone: set<Tid>, removed: set<Tid>): State {
    s.(threads := map a | a in s.threads && a !in removed ::
         s.threads[a].(stack := if a in gone then None else StackNow(s, a, dropped),
                       error := if a !in gone && ToldSo(s, a, p, dropped, gone) then Some(DeadReply) else s.threads[a].error),
       txns := map t | t in s.txns && t !in dropped :: Detached(s.txns[t], gone))
  }

  /** What is undelivered in `p` is on top of its caller's stack, which is elsewhere, and on no other, and it lies
      on something delivered. */
  ghost predicate Closable(s: State, p: Pid) {
    && (forall t | t in DroppedIn(s, p) && s.txns[t].from.Some? ::
          && s.txns[t].from.value in s.threads && s.threads[s.txns[t].from.value].proc != p
          && s.threads[s.txns[t].from.value].stack == Some(t))
    && (forall a, t | a in s.threads && s.threads[a].stack == Some(t) && t in DroppedIn(s, p) :: s.txns[t].from == Some(a))
    && (forall t | t in DroppedIn(s, p) && s.txns[t].fromParent.Some? :: s.txns[t].fromParent.value !in DroppedIn(s, p))
    && (forall t, a, b | t in s.txns && s.txns[t].from == Some(a) && ServedBy(s.txns[t], {b})
          && a in ThreadsOf(s, p) :: b !in ThreadsOf(s, p))
  }

  /** The stacks of the threads of `p`. */
  ghost predicate Stacked(s: State, p: Pid, stacks: map<Tid, seq<TxnId>>) {
    forall th | th in ThreadsOf(s, p) :: th in stacks && Unwindable(s, th, stacks[th])
  }

  lemma OnProcIs(s: State, p: Pid)
    ensures var u := CloseSome(s, p, {}, {}, {});
      (set t | t in u.txns && u.txns[t].queue == Some(ProcQueue(p))) == OnProc(s, p) && OnProc(s, p) <= DroppedIn(s, p)
  {}

  lemma CloseNone(s: State, p: Pid)
    ensures CloseSome(s, p, {}, {}, {}) == s
  {
    forall a ensures !ToldSo(s, a, p, {}, {}) {}
    assert CloseSome(s, p, {}, {}, {}).threads == s.threads;
    assert CloseSome(s, p, {}, {}, {}).txns == s.txns;
  }

  lemma ToldMore(s: State, a: Tid, p: Pid, dropped: set<TxnId>, gone: set<Tid>, t: TxnId)
    requires t in s.txns
    ensures ToldSo(s, a, p, dropped + {t}, gone) <==>
      ToldSo(s, a, p, dropped, gone) || (s.txns[t].from == Some(a) && s.txns[t].queue == Some(ProcQueue(p)))
  {
    if ToldSo(s, a, p, dropped, gone) && !LosesServer(s.txns, a, gone) {
      var u :| u in dropped && u in s.txns && s.txns[u].from == Some(a) && s.txns[u].queue == Some(ProcQueue(p));
      assert u in dropped + {t};
    }
    if s.txns[t].from == Some(a) && s.txns[t].queue == Some(ProcQueue(p)) { assert t in dropped + {t}; }
  }

  /** The state in which the sender of `t`, if it waits on the process queue, has its error. */
  ghost function SenderTold(u: State, t: TxnId, p: Pid): State
    requires t in u.txns
  {
    var x := u.txns[t];
    if x.queue == Some(ProcQueue(p)) && x.from.Some? && x.from.value in u.threads
    then u.(threads := u.threads[x.from.value := u.threads[x.from.value].(error := Some(DeadReply))]) else u
  }

  /** Freeing a transaction that only its caller can have on top. */
  lemma FreeTxnIs(u: State, t: TxnId)
    requires t in u.txns && forall a | a in u.threads && u.threads[a].stack == Some(t) :: u.txns[t].from == Some(a)
    requires u.txns[t].fromParent != Some(t)
    ensures FreeTxn(u, t).threads == map a | a in u.threads :: Popped(u.threads[a], t, u.txns[t].fromParent)
    ensures FreeTxn(u, t).txns == u.txns - {t}
  {}

  /** Dropping one more transaction. */
  lemma DropStep(s: State, p: Pid, dropped: set<TxnId>, gone: set<Tid>, removed: set<Tid>, t: TxnId)
    requires Closable(s, p) && gone <= ThreadsOf(s, p) && removed <= gone
    requires t in DroppedIn(s, p) && t !in dropped && dropped <= DroppedIn(s, p)
    ensures var u := CloseSome(s, p, dropped, gone, removed);
      t in u.txns && u.txns[t].queue == s.txns[t].queue
      && FreeTxn(SenderTold(u, t, p), t) == CloseSome(s, p, dropped + {t}, gone, removed)
  {
    DropTxns(s, p, dropped, gone, removed, t);
    DropThreads(s, p, dropped, gone, removed, t);
    FreedIs(SenderTold(CloseSome(s, p, dropped, gone, removed), t, p), CloseSome(s, p, dropped + {t}, gone, removed), t);
  }

  lemma DropTxns(s: State, p: Pid, dropped: set<TxnId>, gone: set<Tid>, removed: set<Tid>, t: TxnId)
    requires Closable(s, p) && gone <= ThreadsOf(s, p) && removed <= gone
    requires t in DroppedIn(s, p) && t !in dropped && dropped <= DroppedIn(s, p)
    ensures var u, v := CloseSome(s, p, dropped, gone, removed), CloseSome(s, p, dropped + {t}, gone, removed);
      && t in u.txns && u.txns[t].queue == s.txns[t].queue
      && var w := SenderTold(u, t, p);
      && (forall a | a in w.threads && w.threads[a].stack == Some(t) :: w.txns[t].from == Some(a))
      && w.txns[t].fromParent == s.txns[t].fromParent != Some(t) && v.txns == w.txns - {t}
  {
    DropTops(s, p, dropped, gone, removed, t);
    OneLess(s, p, dropped, gone, removed, t);
    SenderToldSame(CloseSome(s, p, dropped, gone, removed), t, p);
  }

  lemma OneLess(s: State, p: Pid, dropped: set<TxnId>, gone: set<Tid>, removed: set<Tid>, t: TxnId)
    ensures CloseSome(s, p, dropped + {t}, gone, removed).txns == CloseSome(s, p, dropped, gone, removed).txns - {t}
  {}

  lemma SenderToldSame(u: State, t: TxnId, p: Pid)
    requires t in u.txns
    ensures var w := SenderTold(u, t, p);
      w.txns == u.txns && w.threads.Keys == u.threads.Keys
      && forall a | a in w.threads :: w.threads[a].stack == u.threads[a].stack
  {}

  lemma DropThreads(s: State, p: Pid, dropped: set<TxnId>, gone: set<Tid>, removed: set<Tid>, t: TxnId)
    requires Closable(s, p) && gone <= ThreadsOf(s, p) && removed <= gone
    requires t in DroppedIn(s, p) && t !in dropped && dropped <= DroppedIn(s, p)
    ensures var u, v := CloseSome(s, p, dropped, gone, removed), CloseSome(s, p, dropped + {t}, gone, removed);
      t in u.txns && v.threads.Keys == u.threads.Keys
      && forall a | a in v.threads :: v.threads[a] == Popped(SenderTold(u, t, p).threads[a], t, s.txns[t].fromParent)
  {
    var v := CloseSome(s, p, dropped + {t}, gone, removed);
    forall a | a in v.threads
      ensures var u := CloseSome(s, p, dropped, gone, removed);
        a in u.threads && t in u.txns && v.threads[a] == Popped(SenderTold(u, t, p).threads[a], t, s.txns[t].fromParent)
    {
      DropThread(s, p, dropped, gone, removed, t, a);
    }
  }

  lemma FreedIs(u: State, v: State, t: TxnId)
    requires t in u.txns && forall a | a in u.threads && u.threads[a].stack == Some(t) :: u.txns[t].from == Some(a)
    requires u.txns[t].fromParent != Some(t)
    requires v.threads.Keys == u.threads.Keys && v.txns == u.txns - {t} && v.procs == u.procs && v.next == u.next
    requires forall a | a in v.threads :: v.threads[a] == Popped(u.threads[a], t, u.txns[t].fromParent)
    ensures FreeTxn(u, t) == v
  {
    FreeTxnIs(u, t);
    assert FreeTxn(u, t).threads == v.threads;
  }

  function Popped(th: Thread, t: TxnId, below: Option<TxnId>): Thread {
    if th.stack == Some(t) then th.(stack := below) else th
  }

  lemma DropThread(s: State, p: Pid, dropped: set<TxnId>, gone: set<Tid>, removed: set<Tid>, t: TxnId, a: Tid)
    requires Closable(s, p) && gone <= ThreadsOf(s, p) && removed <= gone && a in s.threads && a !in removed
    requires t in DroppedIn(s, p) && t !in dropped && dropped <= DroppedIn(s, p)
    ensures var u, v := CloseSome(s, p, dropped, gone, removed), CloseSome(s, p, dropped + {t}, gone, removed);
      a in u.threads && t in u.txns && v.threads[a] == Popped(SenderTold(u, t, p).threads[a], t, s.txns[t].fromParent)
  {
    ToldMore(s, a, p, dropped, gone, t);
    DropTops(s, p, dropped, gone, removed, t);
  }

  /** Only its caller has it on top, as it had before; and dropping it uncovers what is below. */
  lemma DropTops(s: State, p: Pid, dropped: set<TxnId>, gone: set<Tid>, removed: set<Tid>, t: TxnId)
    requires Closable(s, p) && gone <= ThreadsOf(s, p) && removed <= gone
    requires t in DroppedIn(s, p) && t !in dropped && dropped <= DroppedIn(s, p)
    ensures var u := CloseSome(s, p, dropped, gone, removed);
      && u.txns[t].from == s.txns[t].from && u.txns[t].fromParent == s.txns[t].fromParent
      && s.txns[t].fromParent != Some(t)
      && (forall a | a in u.threads ::
            u.threads[a].stack == Some(t) <==> a !in gone && s.txns[t].from == Some(a))
      && (forall a | a in u.threads && a !in gone ::
            StackNow(s, a, dropped + {t}) ==
              if s.txns[t].from == Some(a) then s.txns[t].fromParent else StackNow(s, a, dropped))
  {
    var u := CloseSome(s, p, dropped, gone, removed);
    if s.txns[t].from.Some? { assert s.txns[t].from.value !in gone; }
    forall a | a in u.threads && a !in gone
      ensures u.threads[a].stack == Some(t) <==> s.txns[t].from == Some(a)
      ensures StackNow(s, a, dropped + {t}) == if s.txns[t].from == Some(a) then s.txns[t].fromParent else StackNow(s, a, dropped)
    {
      if s.txns[t].from == Some(a) { assert s.threads[a].stack == Some(t); }
    }
  }

  // ---------------------------------------------------------------- threads

  lemma DetachedTwice(x: Txn, gone: set<Tid>, th: Tid)
    requires th !in gone
    ensures Detached(Detached(x, gone), {th}) == Detached(x, gone + {th})
    ensures ServedBy(Detached(x, gone), {th}) <==> ServedBy(x, {th})
  {}

  /** A thread of the process that has not let go can still follow its links. */
  lemma UnwindableStill(s: State, p: Pid, dropped: set<TxnId>, gone: set<Tid>, th: Tid, ws: seq<TxnId>)
    requires Closable(s, p) && th in ThreadsOf(s, p) && th !in gone && gone <= ThreadsOf(s, p)
    requires Unwindable(s, th, ws) && dropped <= DroppedIn(s, p)
    ensures Unwindable(CloseSome(s, p, dropped, gone, gone), th, ws)
  {
    var u := CloseSome(s, p, dropped, gone, gone);
    assert u.threads[th].stack == s.threads[th].stack;
    forall i | 0 <= i < |ws|
      ensures ws[i] in u.txns && Below(u.txns, th, ws[i]) == At(ws, i + 1)
      ensures (u.txns[ws[i]].from == Some(th)) != ServedBy(u.txns[ws[i]], {th})
    {
      assert ws[i] in s.txns && Below(s.txns, th, ws[i]) == At(ws, i + 1);
      StillLinked(s, p, dropped, gone, th, ws[i]);
    }
    forall t | t in u.txns && (u.txns[t].from == Some(th) || ServedBy(u.txns[t], {th})) ensures t in ws {
      DetachedTwice(s.txns[t], gone, th);
    }
  }

  lemma StillLinked(s: State, p: Pid, dropped: set<TxnId>, gone: set<Tid>, th: Tid, t: TxnId)
    requires Closable(s, p) && th in ThreadsOf(s, p) && th !in gone && dropped <= DroppedIn(s, p) && t in s.txns
    requires (s.txns[t].from == Some(th)) != ServedBy(s.txns[t], {th})
    ensures var u := CloseSome(s, p, dropped, gone, gone);
      && t in u.txns && Below(u.txns, th, t) == Below(s.txns, th, t)
      && (u.txns[t].from == Some(th)) == (s.txns[t].from == Some(th))
      && ServedBy(u.txns[t], {th}) == ServedBy(s.txns[t], {th})
  {
    DetachedTwice(s.txns[t], gone, th);
  }

  lemma LosesMore(s: State, p: Pid, a: Tid, dropped: set<TxnId>, gone: set<Tid>, th: Tid)
    requires th !in gone && a !in gone && dropped <= DroppedIn(s, p)
    ensures var u := CloseSome(s, p, dropped, gone, gone);
      LosesServer(s.txns, a, gone + {th}) <==> LosesServer(s.txns, a, gone) || LosesServer(u.txns, a, {th})
  {
    var u := CloseSome(s, p, dropped, gone, gone);
    if LosesServer(s.txns, a, gone) {
      var t :| t in s.txns && s.txns[t].from == Some(a) && ServedBy(s.txns[t], gone);
      assert ServedBy(s.txns[t], gone + {th});
    }
    if LosesServer(u.txns, a, {th}) {
      var t :| t in u.txns && u.txns[t].from == Some(a) && ServedBy(u.txns[t], {th});
      assert ServedBy(s.txns[t], gone + {th});
    }
    if LosesServer(s.txns, a, gone + {th}) && !LosesServer(s.txns, a, gone) {
      var t :| t in s.txns && s.txns[t].from == Some(a) && ServedBy(s.txns[t], gone + {th});
      assert ServedBy(u.txns[t], {th}) && u.txns[t].from == Some(a);
    }
  }

  /** A thread lets go of its stack. */
  lemma UnwindStep(s: State, p: Pid, dropped: set<TxnId>, gone: set<Tid>, th: Tid)
    requires th in s.threads && th !in gone && dropped <= DroppedIn(s, p)
    requires !LosesServer(s.txns, th, {th}) && !ToldSo(s, th, p, dropped, gone)
    ensures var u := CloseSome(s, p, dropped, gone, gone);
      Unwound(u, th) == CloseSome(s, p, dropped, gone + {th}, gone)
  {
    var u, v := CloseSome(s, p, dropped, gone, gone), CloseSome(s, p, dropped, gone + {th}, gone);
    forall t | t in u.txns ensures Detached(u.txns[t], {th}) == v.txns[t] { DetachedTwice(s.txns[t], gone, th); }
    assert Unwound(u, th).txns == v.txns;
    forall a | a in u.threads ensures Unwound(u, th).threads[a] == v.threads[a] {
      if a != th { LosesMore(s, p, a, dropped, gone, th); }
    }
    assert Unwound(u, th).threads == v.threads;
  }

  /** Nobody tells a thread of the closing process anything. */
  lemma NotTold(s: State, p: Pid, dropped: set<TxnId>, gone: set<Tid>, th: Tid)
    requires Closable(s, p) && th in ThreadsOf(s, p) && gone <= ThreadsOf(s, p) && dropped <= DroppedIn(s, p)
    ensures !LosesServer(s.txns, th, {th}) && !ToldSo(s, th, p, dropped, gone)
  {
    forall t | t in s.txns && s.txns[t].from == Some(th) ensures !ServedBy(s.txns[t], ThreadsOf(s, p)) {
      forall b | b in ThreadsOf(s, p) ensures !ServedBy(s.txns[t], {b}) {}
    }
  }

  lemma QueuedStill(s: State, p: Pid, dropped: set<TxnId>, gone: set<Tid>, th: Tid)
    requires OnThread(s, th) !! dropped
    ensures var u := CloseSome(s, p, dropped, gone + {th}, gone);
      (set t | t in u.txns && u.txns[t].queue == Some(ThreadQueue(th))) == OnThread(s, th)
  {}

  /** A thread that has let go is removed. */
  lemma RemoveStep(s: State, p: Pid, dropped: set<TxnId>, gone: set<Tid>, th: Tid)
    ensures var u := CloseSome(s, p, dropped, gone + {th}, gone);
      u.(threads := u.threads - {th}) == CloseSome(s, p, dropped, gone + {th}, gone + {th})
  {
    var u, v := CloseSome(s, p, dropped, gone + {th}, gone), CloseSome(s, p, dropped, gone + {th}, gone + {th});
    assert u.threads - {th} == v.threads;
  }

  lemma ThreadsStill(s: State, p: Pid, dropped: set<TxnId>)
    ensures ThreadsOf(CloseSome(s, p, dropped, {}, {}), p) == ThreadsOf(s, p)
  {}

  lemma OnThreadsNext(s: State, p: Pid, gone: set<Tid>, th: Tid)
    requires th in ThreadsOf(s, p) && gone <= ThreadsOf(s, p) && th !in gone
    ensures OnProc(s, p) + OnThreads(s, gone + {th}) == OnProc(s, p) + OnThreads(s, gone) + OnThread(s, th)
    ensures OnProc(s, p) + OnThreads(s, gone) + OnThread(s, th) <= DroppedIn(s, p)
    ensures OnThread(s, th) !! OnProc(s, p) + OnThreads(s, gone)
  {}

  /** When everything is dropped and every thread is gone, that is Close. */
  lemma CloseAll(s: State, p: Pid)
    ensures var gone := ThreadsOf(s, p);
      CloseSome(s, p, OnProc(s, p) + OnThreads(s, gone), gone, gone).(procs := s.procs - {p}) == Close(s, p)
  {
    var gone := ThreadsOf(s, p);
    var dropped := OnProc(s, p) + OnThreads(s, gone);
    assert dropped == DroppedIn(s, p);
    var u, v := CloseSome(s, p, dropped, gone, gone), Close(s, p);
    assert u.txns == v.txns;
    forall a | a in u.threads ensures u.threads[a] == v.threads[a] { OrphanedIs(s, a, p, dropped); }
    assert u.threads == v.threads;
  }

  lemma OrphanedIs(s: State, a: Tid, p: Pid, dropped: set<TxnId>)
    requires OnProc(s, p) <= dropped
    ensures ToldSo(s, a, p, dropped, ThreadsOf(s, p)) <==> Orphaned(s.txns, a, p, ThreadsOf(s, p))
  {
    if t :| t in s.txns && s.txns[t].from == Some(a) && s.txns[t].queue == Some(ProcQueue(p)) { assert t in OnProc(s, p); }
  }

  // ---------------------------------------------------------------- every run

  /** After every run a process can be closed that way. */
  lemma ClosableIs(h: History, p: Pid)
    requires Inv(h)
    ensures Closable(h.s, p)
  {
    InvLinked(h);
    forall t | t in DroppedIn(h.s, p) && h.s.txns[t].from.Some?
      ensures h.s.txns[t].from.value in h.s.threads && h.s.threads[h.s.txns[t].from.value].proc != p
      ensures h.s.threads[h.s.txns[t].from.value].stack == Some(t)
    {
      assert IsCall(h.s, t) && Addressed(h, t);
      WaitingOnTop(h, t);
    }
    forall a, t | a in h.s.threads && h.s.threads[a].stack == Some(t) && t in DroppedIn(h.s, p)
      ensures h.s.txns[t].from == Some(a)
    {
      assert Deepest(h, a, h.s.threads[a].stack);
    }
    forall t | t in DroppedIn(h.s, p) && h.s.txns[t].fromParent.Some?
      ensures h.s.txns[t].fromParent.value !in DroppedIn(h.s, p)
    {
      assert IsCall(h.s, t) && ChainLink(h, t);
    }
    forall t, a, b | t in h.s.txns && h.s.txns[t].from == Some(a) && ServedBy(h.s.txns[t], {b}) && a in ThreadsOf(h.s, p)
      ensures b !in ThreadsOf(h.s, p)
    {
      assert IsCall(h.s, t) && Addressed(h, t);
    }
  }
}
