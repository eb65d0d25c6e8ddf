/**
The call protocol as the driver runs it: stacks and queues changed in place, by loops that follow
the links. Each method is proved equal to the step functions of CallStacks; for the teardown loops
that is where it is shown that following one thread's links reaches everything it takes part in.
*/
module CallDriver {
  import opened Common
  import opened CallStacks
  import opened CallInvariant
  import opened CallTheorems
  import opened CallClosing

  /** Thread `a` is owed an error for some served call in `done`. */
  ghost predicate Owed(txns: map<TxnId, Txn>, done: set<TxnId>, a: Tid, th: Tid) {
    exists t :: t in done && t in txns && txns[t].from == Some(a) && ServedBy(txns[t], {th})
  }

  /** The state once the calls in `done` have been let go by `th`. */
  ghost function PartlyUnwound(s: State, th: Tid, done: set<TxnId>): State {
    s.(threads := map a | a in s.threads ::
         if Owed(s.txns, done, a, th) then s.threads[a].(error := Some(DeadReply)) else s.threads[a],
       txns := map t | t in s.txns :: if t in done then Detached(s.txns[t], {th}) else s.txns[t])
  }

  class Driver {
    var procs: set<Pid>
    var threads: map<Tid, Thread>
    var txns: map<TxnId, Txn>
    var next: TxnId

    ghost function View(): State
      reads this
    {
      State(procs, threads, txns, next)
    }

    /** binder_target_thread_for. */
    method TargetThreadFor(th: Tid, target: Pid) returns (r: Option<Tid>)
      requires th in threads && Linked(txns) && (threads[th].stack.Some? ==> threads[th].stack.value in txns)
      ensures r == TargetThread(View(), threads[th].stack, target)
    {
      var tmp := threads[th].stack;
      while tmp.Some?
        invariant tmp.Some? ==> tmp.value in txns
        invariant TargetThread(View(), threads[th].stack, target) == TargetThread(View(), tmp, target)
        decreases if tmp.Some? then tmp.value + 1 else 0
      {
        var x := txns[tmp.value];
        if x.from.Some? && x.from.value in threads && threads[x.from.value].proc == target {
          return x.from;
        }
        tmp := x.fromParent;
      }
      return None;
    }

    /** binder_free_transaction. */
    method FreeTransaction(t: TxnId)
      requires t in txns
      modifies this`threads, this`txns
      ensures View() == FreeTxn(old(View()), t)
    {
      var x := txns[t];
      if x.from.Some? && x.from.value in threads && threads[x.from.value].stack == Some(t) {
        threads := threads[x.from.value := threads[x.from.value].(stack := x.fromParent)];
      }
      if x.toThread.Some? && x.toThread.value in threads && threads[x.toThread.value].stack == Some(t) {
        threads := threads[x.toThread.value := threads[x.toThread.value].(stack := x.toParent)];
      }
      txns := txns - {t};
    }

    /** binder_transaction for a synchronous call, from the choice of thread to the queue. */
    method SendCall(th: Tid, target: Pid)
      requires th in threads && Linked(txns) && (threads[th].stack.Some? ==> threads[th].stack.value in txns)
      modifies this`threads, this`txns, this`next
      ensures View() == Call(old(View()), th, target)
    {
      var targetThread := TargetThreadFor(th, target);
      var t := next;
      next := next + 1;
      var x := Txn(Some(th), None, target, targetThread, None, true, None);
      x := x.(fromParent := threads[th].stack);
      threads := threads[th := threads[th].(stack := Some(t))];
      if targetThread.Some? {
        x := x.(queue := Some(ThreadQueue(targetThread.value)));
      } else {
        x := x.(queue := Some(ProcQueue(target)));
      }
      txns := txns[t := x];
    }

    /** binder_transaction for a reply, from popping the stack to queueing the answer. */
    method SendReply(th: Tid)
      requires Serving(View(), th)
      modifies this`threads, this`txns, this`next
      ensures View() == Reply(old(View()), th)
    {
      var t := threads[th].stack.value;
      threads := threads[th := threads[th].(stack := txns[t].toParent)];
      var target := txns[t].from;
      if target.None? || target.value !in threads {
        threads := threads[th := threads[th].(error := Some(DeadReply))];
        FreeTransaction(t);
        return;
      }
      var proc := threads[target.value].proc;
      FreeTransaction(t);
      txns := txns[next := Txn(None, None, proc, target, None, false, Some(ThreadQueue(target.value)))];
      next := next + 1;
    }

    /** The end of binder_read_transaction: push a call, finish a reply. */
    method ReadTransaction(th: Tid, t: TxnId)
      requires th in threads && t in txns
      modifies this`threads, this`txns
      ensures View() == Deliver(old(View()), th, t)
    {
      if txns[t].needReply {
        txns := txns[t := txns[t].(queue := None)];
        txns := txns[t := txns[t].(toThread := Some(th))];
        txns := txns[t := txns[t].(toParent := threads[th].stack)];
        threads := threads[th := threads[th].(stack := Some(t))];
      } else {
        FreeTransaction(t);
      }
    }

    /** One step of the stack walk of binder_thread_release: let go of `t`, and find what is below it. */
    method LetGo(th: Tid, t: TxnId, ghost s0: State, ghost done: set<TxnId>) returns (below: Option<TxnId>)
      requires View() == PartlyUnwound(s0, th, done) && t in s0.txns && t !in done
      requires (s0.txns[t].from == Some(th)) != ServedBy(s0.txns[t], {th})
      modifies this`threads, this`txns
      ensures View() == PartlyUnwound(s0, th, done + {t})
      ensures below == Below(s0.txns, th, t)
    {
      var x := txns[t];
      if x.from == Some(th) {
        below := x.fromParent;
        txns := txns[t := x.(from := None)];
        OwedKept(s0.txns, done, t, th);
      } else {
        below := x.toParent;
        txns := txns[t := x.(toThread := None)];
        OwedGrows(s0.txns, done, t, th);
        if x.from.Some? && x.from.value in threads {
          threads := threads[x.from.value := threads[x.from.value].(error := Some(DeadReply))];
        }
      }
      assert txns == PartlyUnwound(s0, th, done + {t}).txns;
      assert threads == PartlyUnwound(s0, th, done + {t}).threads;
    }

    /** The stack walk of binder_thread_release. */
    method Unwind(th: Tid, ghost ws: seq<TxnId>)
      requires Unwindable(View(), th, ws)
      modifies this`threads, this`txns
      ensures View() == Unwound(old(View()), th)
    {
      ghost var s0 := View();
      ghost var i := 0;
      ghost var done: set<TxnId> := {};
      var cur := threads[th].stack;
      assert txns == PartlyUnwound(s0, th, done).txns;
      assert threads == PartlyUnwound(s0, th, done).threads;
      while cur.Some?
        invariant i <= |ws| && cur == At(ws, i)
        invariant done == set k | 0 <= k < i :: ws[k]
        invariant View() == PartlyUnwound(s0, th, done)
        decreases |ws| - i
      {
        cur := LetGo(th, cur.value, s0, done);
        done := done + {ws[i]};
        i := i + 1;
      }
      threads := threads[th := threads[th].(stack := None)];
      Unwinded(s0, th, ws, done);
    }

    /** BINDER_THREAD_EXIT: unwind the stack, hand queued work back to the process, and go. */
    method ThreadRelease(th: Tid, ghost ws: seq<TxnId>)
      requires Unwindable(View(), th, ws)
      modifies this`threads, this`txns
      ensures View() == Exit(old(View()), th)
    {
      ghost var s0 := View();
      Unwind(th, ws);
      ghost var moved := HandBack(th, threads[th].proc);
      threads := threads - {th};
      ExitIs(s0, th, moved, threads, txns);
    }

    /** The todo loop of binder_thread_release in a living process. */
    method HandBack(th: Tid, p: Pid) returns (ghost moved: set<TxnId>)
      modifies this`txns
      ensures moved == set t | t in old(txns) && old(txns)[t].queue == Some(ThreadQueue(th))
      ensures txns == map t | t in old(txns) ::
        if t in moved then old(txns)[t].(queue := Some(ProcQueue(p))) else old(txns)[t]
    {
      var todo := set t | t in txns && txns[t].queue == Some(ThreadQueue(th));
      moved := {};
      while todo != {}
        invariant moved + todo == (set t | t in old(txns) && old(txns)[t].queue == Some(ThreadQueue(th))) && moved !! todo
        invariant txns == map t | t in old(txns) ::
          if t in moved then old(txns)[t].(queue := Some(ProcQueue(p))) else old(txns)[t]
        decreases todo
      {
        var w :| w in todo;
        txns := txns[w := txns[w].(queue := Some(ProcQueue(p)))];
        todo := todo - {w};
        moved := moved + {w};
      }
    }

    /** One undelivered transaction of a closing process is freed; the process queue tells its sender first. */
    method DropOne(w: TxnId, p: Pid, ghost s: State, ghost dropped: set<TxnId>, ghost gone: set<Tid>,
                   ghost removed: set<Tid>)
      requires Closable(s, p) && gone <= ThreadsOf(s, p) && removed <= gone
      requires w in DroppedIn(s, p) && w !in dropped && dropped <= DroppedIn(s, p)
      requires View() == CloseSome(s, p, dropped, gone, removed)
      modifies this`threads, this`txns
      ensures View() == CloseSome(s, p, dropped + {w}, gone, removed)
    {
      DropStep(s, p, dropped, gone, removed, w);
      var x := txns[w];
      if x.queue == Some(ProcQueue(p)) && x.from.Some? && x.from.value in threads {
        threads := threads[x.from.value := threads[x.from.value].(error := Some(DeadReply))];
      }
      FreeTransaction(w);
    }

    /** The queue loop of binder_proc_release. */
    method DropQueue(p: Pid, ghost s: State)
      requires Closable(s, p) && View() == CloseSome(s, p, {}, {}, {})
      modifies this`threads, this`txns
      ensures View() == CloseSome(s, p, OnProc(s, p), {}, {})
    {
      var todo := set t | t in txns && txns[t].queue == Some(ProcQueue(p));
      OnProcIs(s, p);
      assert todo == OnProc(s, p) && {} + todo == OnProc(s, p);
      DropAll(todo, p, s, {}, {}, {});
    }

    method DropAll(all: set<TxnId>, p: Pid, ghost s: State, ghost dropped: set<TxnId>, ghost gone: set<Tid>,
                   ghost removed: set<Tid>)
      requires Closable(s, p) && gone <= ThreadsOf(s, p) && removed <= gone
      requires all + dropped <= DroppedIn(s, p) && all !! dropped
      requires View() == CloseSome(s, p, dropped, gone, removed)
      modifies this`threads, this`txns
      ensures View() == CloseSome(s, p, dropped + all, gone, removed)
    {
      var todo := all;
      ghost var done: set<TxnId> := {};
      assert dropped + done == dropped;
      while todo != {}
        invariant done + todo == all && done !! todo
        invariant View() == CloseSome(s, p, dropped + done, gone, removed)
        decreases todo
      {
        var w :| w in todo;
        assert w in all && w !in dropped + done && dropped + done + {w} == dropped + (done + {w});
        DropOne(w, p, s, dropped + done, gone, removed);
        todo := todo - {w};
        done := done + {w};
      }
    }

    /** The stack walk, in a process that is closing. */
    method UnwindClosing(th: Tid, p: Pid, ghost s: State, ghost dropped: set<TxnId>, ghost gone: set<Tid>,
                         ghost ws: seq<TxnId>)
      requires Closable(s, p) && View() == CloseSome(s, p, dropped, gone, gone)
      requires th in ThreadsOf(s, p) && gone <= ThreadsOf(s, p) && th !in gone && Unwindable(s, th, ws)
      requires dropped <= DroppedIn(s, p)
      modifies this`threads, this`txns
      ensures View() == CloseSome(s, p, dropped, gone + {th}, gone)
    {
      UnwindableStill(s, p, dropped, gone, th, ws);
      NotTold(s, p, dropped, gone, th);
      UnwindStep(s, p, dropped, gone, th);
      Unwind(th, ws);
    }

    /** binder_thread_release in a process that is closing: what waits on the thread's own queue is freed with it. */
    method ReleaseClosing(th: Tid, p: Pid, ghost s: State, ghost dropped: set<TxnId>, ghost gone: set<Tid>,
                          ghost ws: seq<TxnId>)
      requires Closable(s, p) && View() == CloseSome(s, p, dropped, gone, gone)
      requires th in ThreadsOf(s, p) && gone <= ThreadsOf(s, p) && th !in gone && Unwindable(s, th, ws)
      requires dropped + OnThread(s, th) <= DroppedIn(s, p) && OnThread(s, th) !! dropped
      modifies this`threads, this`txns
      ensures View() == CloseSome(s, p, dropped + OnThread(s, th), gone + {th}, gone + {th})
    {
      UnwindClosing(th, p, s, dropped, gone, ws);
      var todo := set t | t in txns && txns[t].queue == Some(ThreadQueue(th));
      QueuedStill(s, p, dropped, gone, th);
      assert todo == OnThread(s, th);
      DropAll(todo, p, s, dropped, gone + {th}, gone);
      RemoveStep(s, p, dropped + OnThread(s, th), gone, th);
      threads := threads - {th};
    }

    /** binder_proc_release, as far as transactions and threads go; `stacks` are the threads' stacks. */
    method ProcRelease(p: Pid, ghost stacks: map<Tid, seq<TxnId>>)
      requires Closable(View(), p) && Stacked(View(), p, stacks)
      modifies this
      ensures View() == Close(old(View()), p)
    {
      ghost var s := View();
      CloseNone(s, p);
      DropQueue(p, s);
      ReleaseThreads(p, s, stacks);
      CloseAll(s, p);
      procs := procs - {p};
    }

    /** The thread loop of binder_proc_release. */
    method ReleaseThreads(p: Pid, ghost s: State, ghost stacks: map<Tid, seq<TxnId>>)
      requires Closable(s, p) && Stacked(s, p, stacks) && View() == CloseSome(s, p, OnProc(s, p), {}, {})
      modifies this`threads, this`txns
      ensures View() == CloseSome(s, p, OnProc(s, p) + OnThreads(s, ThreadsOf(s, p)), ThreadsOf(s, p), ThreadsOf(s, p))
    {
      var todo := set a | a in threads && threads[a].proc == p;
      ghost var gone: set<Tid> := {};
      ThreadsStill(s, p, OnProc(s, p));
      assert OnProc(s, p) + OnThreads(s, {}) == OnProc(s, p);
      while todo != {}
        invariant gone + todo == ThreadsOf(s, p) && gone !! todo
        invariant View() == CloseSome(s, p, OnProc(s, p) + OnThreads(s, gone), gone, gone)
        decreases todo
      {
        var th :| th in todo;
        OnThreadsNext(s, p, gone, th);
        ReleaseClosing(th, p, s, OnProc(s, p) + OnThreads(s, gone), gone, stacks[th]);
        todo := todo - {th};
        gone := gone + {th};
      }
      assert gone == ThreadsOf(s, p);
    }
  }

  // ---------------------------------------------------------------- the walk reaches everything

  /** After every run, following a thread's links from the top of its stack reaches every call it
      takes part in, once. */
  lemma WalkReachesAll(h: History, th: Tid)
    requires Inv(h) && th in h.s.threads
    ensures Unwindable(h.s, th, StackOf(h, th))
  {
    InvLinked(h);
    WalkShape(h, th);
    WalkCovers(h, th);
  }

  lemma WalkShape(h: History, th: Tid)
    requires Inv(h) && th in h.s.threads && Linked(h.s.txns)
    ensures var ws := StackOf(h, th);
      && h.s.threads[th].stack == At(ws, 0) && Threaded(h.s.txns, th, ws)
      && (forall i, j | 0 <= i < j < |ws| :: ws[i] != ws[j])
      && (forall i | 0 <= i < |ws| :: (h.s.txns[ws[i]].from == Some(th)) != ServedBy(h.s.txns[ws[i]], {th}))
  {
    PartsClosed(h, th);
    WalkIs(h.s.txns, th, PartsOf(h.s, th), h.s.threads[th].stack);
    forall i, j | 0 <= i < j < |StackOf(h, th)| ensures StackOf(h, th)[i] != StackOf(h, th)[j] {}
  }

  /** The calls a thread takes part in. */
  ghost function PartsOf(s: State, th: Tid): set<TxnId> {
    set u | u in s.txns && TakesPart(s, th, u)
  }

  /** They are closed under the links of its stack, and it has one role in each. */
  lemma PartsClosed(h: History, th: Tid)
    requires Inv(h) && th in h.s.threads
    ensures h.s.threads[th].stack.Some? ==> h.s.threads[th].stack.value in PartsOf(h.s, th)
    ensures forall u | u in PartsOf(h.s, th) ::
      u in h.s.txns && (Below(h.s.txns, th, u).Some? ==> Below(h.s.txns, th, u).value in PartsOf(h.s, th))
    ensures forall u | u in PartsOf(h.s, th) :: (h.s.txns[u].from == Some(th)) != ServedBy(h.s.txns[u], {th})
  {
    assert Deepest(h, th, h.s.threads[th].stack);
    forall u | u in PartsOf(h.s, th)
      ensures Below(h.s.txns, th, u).Some? ==> Below(h.s.txns, th, u).value in PartsOf(h.s, th)
      ensures (h.s.txns[u].from == Some(th)) != ServedBy(h.s.txns[u], {th})
    {
      BelowTakesPart(h, th, u);
      OneRole(h, th, u);
    }
  }

  lemma OneRole(h: History, th: Tid, u: TxnId)
    requires Placed(h) && AllAddressed(h) && TakesPart(h.s, th, u)
    ensures (h.s.txns[u].from == Some(th)) != ServedBy(h.s.txns[u], {th})
  {
    assert Addressed(h, u);
  }

  lemma WalkCovers(h: History, th: Tid)
    requires Inv(h) && th in h.s.threads && Linked(h.s.txns)
    ensures forall t | t in h.s.txns && (h.s.txns[t].from == Some(th) || ServedBy(h.s.txns[t], {th})) ::
      t in StackOf(h, th)
  {
    forall t | t in h.s.txns && (h.s.txns[t].from == Some(th) || ServedBy(h.s.txns[t], {th}))
      ensures t in StackOf(h, th)
    {
      assert TakesPart(h.s, th, t);
      assert Deepest(h, th, h.s.threads[th].stack);
      WalkHas(h, th, h.s.threads[th].stack, t);
    }
  }

  lemma {:induction false} WalkIs(txns: map<TxnId, Txn>, th: Tid, parts: set<TxnId>, cur: Option<TxnId>)
    requires Linked(txns) && (cur.Some? ==> cur.value in parts)
    requires forall u | u in parts :: u in txns && (Below(txns, th, u).Some? ==> Below(txns, th, u).value in parts)
    ensures var ws := Walk(txns, th, cur);
      && cur == At(ws, 0) && Threaded(txns, th, ws)
      && (forall i | 0 <= i < |ws| :: ws[i] in parts)
      && (forall i, j | 0 <= i < j < |ws| :: ws[i] > ws[j])
    decreases if cur.Some? then cur.value + 1 else 0
  {
    if cur.Some? {
      var below := Below(txns, th, cur.value);
      WalkIs(txns, th, parts, below);
      var rest := Walk(txns, th, below);
      var ws := Walk(txns, th, cur);
      assert ws == [cur.value] + rest;
      assert rest != [] ==> rest[0] < cur.value;
      forall i | 0 <= i < |ws| ensures ws[i] in txns && Below(txns, th, ws[i]) == At(ws, i + 1) {
        assert At(ws, i + 1) == At(rest, i);
        if i > 0 { assert ws[i] == rest[i - 1]; }
      }
    }
  }

  lemma {:induction false} WalkHas(h: History, th: Tid, cur: Option<TxnId>, t: TxnId)
    requires Inv(h) && Linked(h.s.txns) && cur.Some? && TakesPart(h.s, th, cur.value) && TakesPart(h.s, th, t)
    requires h.pos[t].depth <= h.pos[cur.value].depth
    ensures t in Walk(h.s.txns, th, cur)
    decreases cur.value
  {
    if t != cur.value {
      NextBelow(h, th, cur.value, t);
      WalkHas(h, th, Below(h.s.txns, th, cur.value), t);
    }
  }

  /** What a thread takes part in less deeply than `u` is at or below what lies under `u`. */
  lemma NextBelow(h: History, th: Tid, u: TxnId, t: TxnId)
    requires Inv(h) && TakesPart(h.s, th, u) && TakesPart(h.s, th, t) && t != u
    requires h.pos[t].depth <= h.pos[u].depth
    ensures var below := Below(h.s.txns, th, u);
      below.Some? && TakesPart(h.s, th, below.value) && below.value < u && h.pos[t].depth <= h.pos[below.value].depth
  {
    assert ChainLink(h, u) && ServerLink(h, u);
    assert h.pos[t].root == h.pos[u].root;
    assert h.pos[t] != h.pos[u];
    BelowTakesPart(h, th, u);
  }

  lemma OwedKept(txns: map<TxnId, Txn>, done: set<TxnId>, t: TxnId, th: Tid)
    requires t in txns && !ServedBy(txns[t], {th})
    ensures forall a: Tid :: Owed(txns, done + {t}, a, th) <==> Owed(txns, done, a, th)
  {
    forall a: Tid ensures Owed(txns, done + {t}, a, th) <==> Owed(txns, done, a, th) {
      if Owed(txns, done, a, th) {
        var u :| u in done && u in txns && txns[u].from == Some(a) && ServedBy(txns[u], {th});
        assert u in done + {t};
      }
    }
  }

  lemma OwedGrows(txns: map<TxnId, Txn>, done: set<TxnId>, t: TxnId, th: Tid)
    requires t in txns && ServedBy(txns[t], {th})
    ensures forall a: Tid :: Owed(txns, done + {t}, a, th) <==> (Owed(txns, done, a, th) || txns[t].from == Some(a))
  {
    forall a: Tid
      ensures Owed(txns, done + {t}, a, th) <==> (Owed(txns, done, a, th) || txns[t].from == Some(a))
    {
      if Owed(txns, done, a, th) {
        var u :| u in done && u in txns && txns[u].from == Some(a) && ServedBy(txns[u], {th});
        assert u in done + {t};
      }
      if txns[t].from == Some(a) { assert t in done + {t}; }
    }
  }

  /** At the bottom of the stack, everything the thread took part in has been let go. */
  lemma Unwinded(s: State, th: Tid, ws: seq<TxnId>, done: set<TxnId>)
    requires Unwindable(s, th, ws) && done == set k | 0 <= k < |ws| :: ws[k]
    ensures var u := PartlyUnwound(s, th, done);
      th in u.threads && Unwound(s, th) == u.(threads := u.threads[th := u.threads[th].(stack := None)])
  {
    forall t | t in s.txns && (s.txns[t].from == Some(th) || ServedBy(s.txns[t], {th})) ensures t in done {
      var k :| 0 <= k < |ws| && ws[k] == t;
    }
    UnwoundTxns(s, th, done);
    UnwoundThreads(s, th, done);
  }

  lemma UnwoundTxns(s: State, th: Tid, done: set<TxnId>)
    requires th in s.threads
    requires forall t | t in s.txns && (s.txns[t].from == Some(th) || ServedBy(s.txns[t], {th})) :: t in done
    ensures PartlyUnwound(s, th, done).txns == Unwound(s, th).txns
  {
    forall t | t in s.txns && t !in done ensures Detached(s.txns[t], {th}) == s.txns[t] {}
  }

  lemma UnwoundThreads(s: State, th: Tid, done: set<TxnId>)
    requires th in s.threads
    requires forall t | t in s.txns && (s.txns[t].from == Some(th) || ServedBy(s.txns[t], {th})) :: t in done
    requires forall t | t in done && t in s.txns :: (s.txns[t].from == Some(th)) != ServedBy(s.txns[t], {th})
    ensures var u := PartlyUnwound(s, th, done).threads; th in u && u[th := u[th].(stack := None)] == Unwound(s, th).threads
  {
    forall a: Tid ensures Owed(s.txns, done, a, th) <==> LosesServer(s.txns, a, {th}) {
      if LosesServer(s.txns, a, {th}) {
        var t :| t in s.txns && s.txns[t].from == Some(a) && ServedBy(s.txns[t], {th});
        assert t in done;
      }
    }
    assert !LosesServer(s.txns, th, {th});
  }

  lemma ExitIs(s: State, th: Tid, moved: set<TxnId>, threads: map<Tid, Thread>, txns: map<TxnId, Txn>)
    requires th in s.threads
    requires var u := Unwound(s, th);
      && moved == (set t | t in u.txns && u.txns[t].queue == Some(ThreadQueue(th)))
      && threads == u.threads - {th}
      && txns == map t | t in u.txns ::
           if t in moved then u.txns[t].(queue := Some(ProcQueue(s.threads[th].proc))) else u.txns[t]
    ensures threads == Exit(s, th).threads && txns == Exit(s, th).txns
  {
    forall t | t in s.txns ensures t in moved <==> s.txns[t].queue == Some(ThreadQueue(th)) {}
    assert txns == Exit(s, th).txns;
    assert threads == Exit(s, th).threads;
  }

  /** After every run a process can be closed that way. */
  lemma ClosableAlways(h: History, p: Pid)
    requires Inv(h)
    ensures Closable(h.s, p)
    ensures exists stacks :: Stacked(h.s, p, stacks)
  {
    ClosableIs(h, p);
    var stacks := map th | th in ThreadsOf(h.s, p) :: StackOf(h, th);
    forall th | th in ThreadsOf(h.s, p) ensures Unwindable(h.s, th, stacks[th]) { WalkReachesAll(h, th); }
    assert Stacked(h.s, p, stacks);
  }
}
