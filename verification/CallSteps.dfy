/** Every step of the call protocol keeps the invariant of CallInvariant. */
module CallSteps {
  import opened Common
  import opened CallStacks
  import opened CallInvariant

  // ---------------------------------------------------------------- a new top of a stack

  /** From `h` to `h'`, thread `th` has come to take part in `t`, above everything else it takes part in. */
  ghost predicate Pushed(h: History, h': History, th: Tid, t: TxnId)
    requires Placed(h) && Placed(h')
  {
    && (forall u | IsCall(h.s, u) :: IsCall(h'.s, u) && h'.pos[u] == h.pos[u])
    && (forall a, u :: TakesPart(h'.s, a, u) <==> (TakesPart(h.s, a, u) || (a == th && u == t)))
    && TakesPart(h'.s, th, t)
    && (forall u | TakesPart(h.s, th, u) :: h.pos[u].root == h'.pos[t].root && h.pos[u].depth < h'.pos[t].depth)
  }

  lemma PushOneChain(h: History, h': History, th: Tid, t: TxnId)
    requires Placed(h) && Placed(h') && Pushed(h, h', th, t) && OneChain(h)
    ensures OneChain(h')
  {
    forall a, u, w | TakesPart(h'.s, a, u) && TakesPart(h'.s, a, w) ensures h'.pos[u].root == h'.pos[w].root {
      if TakesPart(h.s, a, u) && TakesPart(h.s, a, w) { assert h.pos[u].root == h.pos[w].root; }
    }
  }

  lemma PushTops(h: History, h': History, th: Tid, t: TxnId)
    requires Placed(h) && Placed(h') && Pushed(h, h', th, t) && Tops(h)
    requires h'.s.threads.Keys == h.s.threads.Keys && th in h.s.threads && h'.s.threads[th].stack == Some(t)
    requires forall a | a in h.s.threads && a != th :: h'.s.threads[a].stack == h.s.threads[a].stack
    ensures Tops(h')
  {
    forall a | a in h'.s.threads ensures Deepest(h', a, h'.s.threads[a].stack) {
      assert Deepest(h, a, h.s.threads[a].stack);
      if a != th {
        forall u | TakesPart(h'.s, a, u)
          ensures h.s.threads[a].stack.Some? && h'.pos[u].depth <= h'.pos[h.s.threads[a].stack.value].depth
        {
          assert TakesPart(h.s, a, u);
        }
      }
    }
  }

  /** Whatever was the next shallower call stays it: what is pushed is deeper. */
  lemma PushServerLink(h: History, h': History, th: Tid, t: TxnId, u: TxnId)
    requires Placed(h) && Placed(h') && Pushed(h, h', th, t) && IsCall(h.s, u) && ServerLink(h, u)
    requires h'.s.txns[u].queue == h.s.txns[u].queue && h'.s.txns[u].toThread == h.s.txns[u].toThread
    requires h'.s.txns[u].toParent == h.s.txns[u].toParent
    ensures ServerLink(h', u)
  {
    var x := h.s.txns[u];
    if x.queue.None? && x.toThread.Some? {
      assert TakesPart(h.s, x.toThread.value, u);
      assert DeepestBelow(h, x.toThread.value, x.toParent, h.pos[u].depth);
      forall w | TakesPart(h'.s, x.toThread.value, w) && h'.pos[w].depth < h'.pos[u].depth
        ensures x.toParent.Some? && h'.pos[w].depth <= h'.pos[x.toParent.value].depth
      {
        assert TakesPart(h.s, x.toThread.value, w);
      }
    }
  }

  lemma PushCallback(h: History, h': History, th: Tid, t: TxnId, w: TxnId)
    requires Placed(h) && Placed(h') && Pushed(h, h', th, t) && Callbacks(h)
    requires IsCall(h.s, w) && h'.s.txns[w].queue == h.s.txns[w].queue
    requires h'.s.txns[w].queue.Some? && h'.s.txns[w].queue.value.ThreadQueue?
    ensures exists u :: TakesPart(h'.s, h'.s.txns[w].queue.value.tid, u) && h'.pos[u].root == h'.pos[w].root
  {
    var x := h.s.txns[w].queue.value.tid;
    var u :| TakesPart(h.s, x, u) && h.pos[u].root == h.pos[w].root;
    assert TakesPart(h'.s, x, u);
  }

  // ---------------------------------------------------------------- calls

  /** The client discipline for a synchronous call: idle, or working on what it was last given, and
      not into its own process. */
  predicate MayCall(s: State, th: Tid, target: Pid) {
    && th in s.threads && target in s.procs && s.threads[th].proc != target
    && (s.threads[th].stack.None? || Serving(s, th))
  }

  lemma CallQueue(h: History, th: Tid, target: Pid)
    requires Inv(h) && MayCall(h.s, th, target)
    ensures Linked(h.s.txns)
    ensures h.s.threads[th].stack.Some? ==> h.s.threads[th].stack.value in h.s.txns
    ensures var tt := TargetThread(h.s, h.s.threads[th].stack, target);
      tt.Some? ==>
        && tt.value in h.s.threads && h.s.threads[tt.value].proc == target && h.s.threads[th].stack.Some?
        && exists u :: TakesPart(h.s, tt.value, u) && h.pos[u].root == h.pos[h.s.threads[th].stack.value].root
  {
    InvLinked(h);
    var top := h.s.threads[th].stack;
    if top.Some? {
      assert Deepest(h, th, top);
      var u := TargetThreadIs(h, top.value, target);
      var tt := TargetThread(h.s, top, target);
      if tt.Some? { assert TakesPart(h.s, tt.value, u); }
    }
  }

  /** From `h` to `h'`, thread `th` has made call `x`, which is on top of its stack and waits to be delivered. */
  ghost predicate NewCall(h: History, h': History, th: Tid, x: Txn) {
    && th in h.s.threads && h.s.next !in h.s.txns && h'.s.txns == h.s.txns[h.s.next := x]
    && h'.s.threads == h.s.threads[th := h.s.threads[th].(stack := Some(h.s.next))]
    && x.from == Some(th) && x.fromParent == h.s.threads[th].stack && x.toParent.None? && x.needReply && x.queue.Some?
    && (x.fromParent.Some? ==> x.fromParent.value in h.pos)
    && h'.pos == h.pos[h.s.next := if x.fromParent.None? then Pos(h.s.next, 0)
                                   else Pos(h.pos[x.fromParent.value].root, h.pos[x.fromParent.value].depth + 1)]
  }

  /** Made while serving `x.fromParent`, or idle. */
  ghost predicate MadeServing(h: History, th: Tid, x: Txn) {
    x.fromParent.Some? ==>
      && IsCall(h.s, x.fromParent.value) && x.fromParent.value < h.s.next
      && h.s.txns[x.fromParent.value].queue.None? && h.s.txns[x.fromParent.value].toThread == Some(th)
  }

  /** A call for a thread's own queue goes to a thread already in its chain. */
  ghost predicate CallsBack(h: History, x: Txn) {
    && x.fromParent.Some? && x.fromParent.value in h.pos && x.queue.Some? && x.queue.value.ThreadQueue?
    && exists u :: TakesPart(h.s, x.queue.value.tid, u) && u in h.pos && h.pos[u].root == h.pos[x.fromParent.value].root
  }

  /** The transaction a call makes, once its target thread is chosen. */
  function Made(th: Tid, top: Option<TxnId>, target: Pid, tt: Option<Tid>): Txn {
    Txn(Some(th), top, target, tt, None, true, Some(if tt.Some? then ThreadQueue(tt.value) else ProcQueue(target)))
  }

  /** The chosen thread, if any, is one of the target process in the caller's chain. */
  ghost predicate Chosen(h: History, th: Tid, target: Pid, tt: Option<Tid>) {
    th in h.s.threads &&
    (tt.Some? ==>
       && tt.value in h.s.threads && h.s.threads[tt.value].proc == target
       && h.s.threads[th].stack.Some? && h.s.threads[th].stack.value in h.pos
       && exists u :: TakesPart(h.s, tt.value, u) && u in h.pos && h.pos[u].root == h.pos[h.s.threads[th].stack.value].root)
  }

  lemma CallMakes(s: State, th: Tid, target: Pid)
    requires th in s.threads && Linked(s.txns) && (s.threads[th].stack.Some? ==> s.threads[th].stack.value in s.txns)
    ensures var top := s.threads[th].stack;
      Call(s, th, target) == s.(txns := s.txns[s.next := Made(th, top, target, TargetThread(s, top, target))],
                                threads := s.threads[th := s.threads[th].(stack := Some(s.next))], next := s.next + 1)
  {}

  lemma CallIsChosen(h: History, th: Tid, target: Pid)
    requires Inv(h) && MayCall(h.s, th, target)
    ensures Linked(h.s.txns)
    ensures h.s.threads[th].stack.Some? ==> h.s.threads[th].stack.value in h.s.txns && h.s.threads[th].stack.value in h.pos
    ensures Chosen(h, th, target, TargetThread(h.s, h.s.threads[th].stack, target))
  {
    CallQueue(h, th, target);
    if h.s.threads[th].stack.Some? { assert Deepest(h, th, h.s.threads[th].stack); }
  }

  lemma CallIsNew(h: History, h': History, th: Tid, target: Pid, tt: Option<Tid>)
    requires Placed(h) && th in h.s.threads
    requires h.s.threads[th].stack.Some? ==> h.s.threads[th].stack.value in h.pos
    requires var top := h.s.threads[th].stack;
      && h'.s == h.s.(txns := h.s.txns[h.s.next := Made(th, top, target, tt)],
                      threads := h.s.threads[th := h.s.threads[th].(stack := Some(h.s.next))], next := h.s.next + 1)
      && h'.pos == h.pos[h.s.next := if top.None? then Pos(h.s.next, 0)
                                     else Pos(h.pos[top.value].root, h.pos[top.value].depth + 1)]
    ensures NewCall(h, h', th, Made(th, h.s.threads[th].stack, target, tt))
  {}

  lemma CallServes(h: History, th: Tid, target: Pid, tt: Option<Tid>)
    requires Inv(h) && MayCall(h.s, th, target)
    ensures var x := Made(th, h.s.threads[th].stack, target, tt);
      MadeServing(h, th, x) && (x.fromParent.Some? ==> Last(h, x.fromParent.value))
  {
    if h.s.threads[th].stack.Some? { ServedTopIsLast(h, th); }
  }

  lemma CallAddressed(h: History, h': History, th: Tid, target: Pid, tt: Option<Tid>)
    requires Placed(h) && MayCall(h.s, th, target) && Chosen(h, th, target, tt)
    requires NewCall(h, h', th, Made(th, h.s.threads[th].stack, target, tt))
    ensures Addressed(h', h.s.next) && (tt.Some? ==> CallsBack(h, Made(th, h.s.threads[th].stack, target, tt)))
  {}

  lemma CallPlaced(h: History, h': History, th: Tid, x: Txn)
    requires Placed(h) && NewCall(h, h', th, x) && MadeServing(h, th, x) && h'.s.next == h.s.next + 1
    requires x.fromParent.Some? ==> Last(h, x.fromParent.value)
    ensures Placed(h')
  {
    forall t | IsCall(h.s, t) ensures IsCall(h'.s, t) && h'.pos[t] == h.pos[t] && h'.pos[t] != h'.pos[h.s.next] {}
  }

  lemma OldLinks(h: History, h': History, th: Tid, x: Txn, t: TxnId)
    requires Placed(h) && Placed(h') && NewCall(h, h', th, x) && IsCall(h.s, t) && ChainLink(h, t) && Addressed(h, t)
    ensures ChainLink(h', t) && Addressed(h', t)
  {}

  lemma CallLinks(h: History, h': History, th: Tid, x: Txn)
    requires Placed(h) && Placed(h') && Chained(h) && AllAddressed(h)
    requires NewCall(h, h', th, x) && MadeServing(h, th, x) && Addressed(h', h.s.next)
    ensures Chained(h') && AllAddressed(h')
  {
    forall t | IsCall(h'.s, t) ensures ChainLink(h', t) && Addressed(h', t) {
      if t != h.s.next {
        assert IsCall(h.s, t) && ChainLink(h, t) && Addressed(h, t);
        OldLinks(h, h', th, x, t);
      }
    }
  }

  lemma CallTakesPart(h: History, h': History, th: Tid, x: Txn)
    requires NewCall(h, h', th, x)
    ensures forall a, u :: TakesPart(h'.s, a, u) <==> (TakesPart(h.s, a, u) || (a == th && u == h.s.next))
  {}

  lemma CallPushes(h: History, h': History, th: Tid, x: Txn)
    requires Placed(h) && Placed(h') && NewCall(h, h', th, x) && OneChain(h) && Tops(h)
    ensures Pushed(h, h', th, h.s.next)
  {
    CallTakesPart(h, h', th, x);
    assert Deepest(h, th, h.s.threads[th].stack);
  }

  lemma CallParts(h: History, h': History, th: Tid, x: Txn)
    requires Placed(h) && Placed(h') && NewCall(h, h', th, x) && Pushed(h, h', th, h.s.next)
    requires OneChain(h) && Tops(h) && ServerLinks(h)
    ensures OneChain(h') && Tops(h') && ServerLinks(h')
  {
    var t := h.s.next;
    PushOneChain(h, h', th, t);
    PushTops(h, h', th, t);
    forall u | IsCall(h'.s, u) ensures ServerLink(h', u) {
      if u != t { assert IsCall(h.s, u) && ServerLink(h, u); PushServerLink(h, h', th, t, u); }
    }
  }

  lemma CallCallbacks(h: History, h': History, th: Tid, x: Txn)
    requires Placed(h) && Placed(h') && NewCall(h, h', th, x) && Pushed(h, h', th, h.s.next) && Callbacks(h)
    requires MadeServing(h, th, x)
    requires x.queue.value.ThreadQueue? ==> CallsBack(h, x)
    ensures Callbacks(h')
  {
    var t := h.s.next;
    forall w | IsCall(h'.s, w) && h'.s.txns[w].queue.Some? && h'.s.txns[w].queue.value.ThreadQueue?
      ensures exists u :: TakesPart(h'.s, h'.s.txns[w].queue.value.tid, u) && h'.pos[u].root == h'.pos[w].root
    {
      if w == t {
        var u :| TakesPart(h.s, x.queue.value.tid, u) && u in h.pos && h.pos[u].root == h.pos[x.fromParent.value].root;
        assert TakesPart(h'.s, x.queue.value.tid, u);
      } else {
        PushCallback(h, h', th, t, w);
      }
    }
  }

  lemma NewCallKeepsInv(h: History, h': History, th: Tid, target: Pid, tt: Option<Tid>)
    requires Inv(h) && MayCall(h.s, th, target) && Chosen(h, th, target, tt) && h'.s.next == h.s.next + 1
    requires NewCall(h, h', th, Made(th, h.s.threads[th].stack, target, tt))
    ensures Inv(h')
  {
    var x := Made(th, h.s.threads[th].stack, target, tt);
    CallServes(h, th, target, tt);
    CallAddressed(h, h', th, target, tt);
    CallPlaced(h, h', th, x);
    CallLinks(h, h', th, x);
    CallPushes(h, h', th, x);
    CallParts(h, h', th, x);
    CallCallbacks(h, h', th, x);
  }

  /** The position a new call takes: the start of a chain, or one deeper than what its caller is serving. */
  ghost function NewPos(h: History, th: Tid): Pos
    requires th in h.s.threads && (h.s.threads[th].stack.Some? ==> h.s.threads[th].stack.value in h.pos)
  {
    var top := h.s.threads[th].stack;
    if top.None? then Pos(h.s.next, 0) else Pos(h.pos[top.value].root, h.pos[top.value].depth + 1)
  }

  lemma CallNew(h: History, h': History, th: Tid, target: Pid, tt: Option<Tid>)
    requires Placed(h) && th in h.s.threads && Linked(h.s.txns)
    requires h.s.threads[th].stack.Some? ==> h.s.threads[th].stack.value in h.s.txns && h.s.threads[th].stack.value in h.pos
    requires h'.s == Call(h.s, th, target) && h'.pos == h.pos[h.s.next := NewPos(h, th)]
    requires tt == TargetThread(h.s, h.s.threads[th].stack, target)
    ensures NewCall(h, h', th, Made(th, h.s.threads[th].stack, target, tt)) && h'.s.next == h.s.next + 1
  {
    CallMakes(h.s, th, target);
    CallIsNew(h, h', th, target, tt);
  }

  lemma CallMade(h: History, h': History, th: Tid, target: Pid)
    requires Inv(h) && MayCall(h.s, th, target) && Linked(h.s.txns)
    requires h.s.threads[th].stack.Some? ==> h.s.threads[th].stack.value in h.s.txns && h.s.threads[th].stack.value in h.pos
    requires h'.s == Call(h.s, th, target) && h'.pos == h.pos[h.s.next := NewPos(h, th)]
    ensures Inv(h')
  {
    var tt := TargetThread(h.s, h.s.threads[th].stack, target);
    CallIsChosen(h, th, target);
    CallNew(h, h', th, target, tt);
    NewCallKeepsInv(h, h', th, target, tt);
  }

  lemma StackPlaced(h: History, th: Tid)
    requires Inv(h) && th in h.s.threads
    ensures Linked(h.s.txns)
    ensures h.s.threads[th].stack.Some? ==> h.s.threads[th].stack.value in h.s.txns && h.s.threads[th].stack.value in h.pos
  {
    InvLinked(h);
    assert Deepest(h, th, h.s.threads[th].stack);
  }

  lemma CallKeepsInv(h: History, th: Tid, target: Pid)
    requires Inv(h) && MayCall(h.s, th, target)
    ensures Inv(HCall(h, th, target))
  {
    StackPlaced(h, th);
    CallMade(h, HCall(h, th, target), th, target);
  }

  // ---------------------------------------------------------------- deliveries

  /** A thread reads its own queue, or the process queue when it owes nobody anything. */
  predicate MayDeliver(s: State, th: Tid, t: TxnId) {
    && th in s.threads && t in s.txns
    && (|| s.txns[t].queue == Some(ThreadQueue(th))
        || (s.txns[t].queue == Some(ProcQueue(s.threads[th].proc)) && s.threads[th].stack.None?))
  }

  /** The call about to be delivered lies above everything its reader takes part in. */
  lemma DeliverOnTop(h: History, th: Tid, t: TxnId)
    requires Inv(h) && MayDeliver(h.s, th, t) && h.s.txns[t].needReply
    ensures Deepest(h, th, h.s.threads[th].stack)
    ensures Addressed(h, t)
    ensures h.s.threads[th].proc == h.s.txns[t].toProc && h.s.txns[t].from != Some(th)
    ensures forall u | TakesPart(h.s, th, u) :: h.pos[u].root == h.pos[t].root && h.pos[u].depth < h.pos[t].depth
    ensures h.s.threads[th].stack.Some? ==> h.s.threads[th].stack.value < t
  {
    assert IsCall(h.s, t) && Addressed(h, t);
    assert Deepest(h, th, h.s.threads[th].stack);
    QueuedIsLast(h, t);
    if h.s.txns[t].queue == Some(ThreadQueue(th)) {
      var w :| TakesPart(h.s, th, w) && h.pos[w].root == h.pos[t].root;
      forall u | TakesPart(h.s, th, u) ensures h.pos[u].root == h.pos[t].root && h.pos[u].depth < h.pos[t].depth {
        assert h.pos[u].root == h.pos[w].root;
        assert h.pos[u] != h.pos[t];
      }
      OlderIsShallower(h, h.s.threads[th].stack.value, t);
    }
  }

  /** Within a chain, shallower calls are older. */
  lemma {:induction false} OlderIsShallower(h: History, u: TxnId, t: TxnId)
    requires Placed(h) && Chained(h) && IsCall(h.s, u) && IsCall(h.s, t)
    requires h.pos[u].root == h.pos[t].root && h.pos[u].depth < h.pos[t].depth
    ensures u < t
    decreases h.pos[t].depth
  {
    assert ChainLink(h, t);
    var p := h.s.txns[t].fromParent.value;
    if h.pos[p].depth == h.pos[u].depth { assert h.pos[p] == h.pos[u]; } else { OlderIsShallower(h, u, p); }
  }

  lemma DeliverTakesPart(s: State, th: Tid, t: TxnId)
    requires th in s.threads && IsCall(s, t) && s.txns[t].queue.Some?
    ensures forall a, u :: TakesPart(Deliver(s, th, t), a, u) <==> (TakesPart(s, a, u) || (a == th && u == t))
  {}

  lemma DeliverPlaced(h: History, h': History, th: Tid, t: TxnId)
    requires Placed(h) && th in h.s.threads && IsCall(h.s, t) && h'.s == Deliver(h.s, th, t) && h'.pos == h.pos
    ensures Placed(h')
  {}

  lemma DeliverLinks(h: History, h': History, th: Tid, t: TxnId)
    requires Placed(h) && Placed(h') && Chained(h) && AllAddressed(h)
    requires th in h.s.threads && IsCall(h.s, t) && h'.s == Deliver(h.s, th, t) && h'.pos == h.pos
    requires h.s.txns[t].queue.Some? && h.s.threads[th].proc == h.s.txns[t].toProc
    ensures Chained(h') && AllAddressed(h')
  {
    forall u | IsCall(h'.s, u) ensures ChainLink(h', u) && Addressed(h', u) {
      assert IsCall(h.s, u) && ChainLink(h, u) && Addressed(h, u);
      DeliverLink(h, h', th, t, u);
    }
  }

  lemma DeliverLink(h: History, h': History, th: Tid, t: TxnId, u: TxnId)
    requires Placed(h) && Placed(h') && th in h.s.threads && IsCall(h.s, t) && IsCall(h.s, u)
    requires h'.s == Deliver(h.s, th, t) && h'.pos == h.pos
    requires h.s.txns[t].queue.Some? && h.s.threads[th].proc == h.s.txns[t].toProc
    requires ChainLink(h, u) && Addressed(h, u)
    ensures ChainLink(h', u) && Addressed(h', u)
  {}

  lemma DeliverParts(h: History, h': History, th: Tid, t: TxnId)
    requires Placed(h) && Placed(h') && Pushed(h, h', th, t)
    requires OneChain(h) && Tops(h) && Callbacks(h)
    requires th in h.s.threads && IsCall(h.s, t) && h'.s == Deliver(h.s, th, t)
    ensures Callbacks(h') && OneChain(h') && Tops(h')
  {
    PushOneChain(h, h', th, t);
    PushTops(h, h', th, t);
    forall w | IsCall(h'.s, w) && h'.s.txns[w].queue.Some? && h'.s.txns[w].queue.value.ThreadQueue?
      ensures exists u :: TakesPart(h'.s, h'.s.txns[w].queue.value.tid, u) && h'.pos[u].root == h'.pos[w].root
    {
      PushCallback(h, h', th, t, w);
    }
  }

  lemma DeliverServerLinks(h: History, h': History, th: Tid, t: TxnId)
    requires Placed(h) && Placed(h') && Pushed(h, h', th, t) && ServerLinks(h)
    requires th in h.s.threads && IsCall(h.s, t) && h'.s == Deliver(h.s, th, t) && h'.pos == h.pos
    requires Deepest(h, th, h.s.threads[th].stack)
    requires h.s.threads[th].stack.Some? ==> h.s.threads[th].stack.value < t
    ensures ServerLinks(h')
  {
    assert DeepestBelow(h', th, h.s.threads[th].stack, h.pos[t].depth);
    forall u | IsCall(h'.s, u) ensures ServerLink(h', u) {
      if u != t { assert IsCall(h.s, u) && ServerLink(h, u); PushServerLink(h, h', th, t, u); }
    }
  }

  /** Dropping a transaction that is no call changes nothing the invariant speaks about. */
  lemma FreeReplyKeepsInv(h: History, t: TxnId)
    requires Inv(h) && t in h.s.txns && !h.s.txns[t].needReply
    ensures Inv(h.(s := FreeTxn(h.s, t))) && FreeTxn(h.s, t).threads == h.s.threads
  {
    var h' := h.(s := FreeTxn(h.s, t));
    forall a | a in h.s.threads ensures h.s.threads[a].stack != Some(t) {
      assert Deepest(h, a, h.s.threads[a].stack);
    }
    SameCallsSameInv(h, h');
  }

  /** The invariant speaks only about calls and stacks. */
  lemma SameCallsSameInv(h: History, h': History)
    requires Inv(h) && h'.pos == h.pos && h'.s.next >= h.s.next
    requires forall t | t in h'.s.txns && !h'.s.txns[t].needReply ::
      t < h'.s.next && h'.s.txns[t].from.None? && h'.s.txns[t].fromParent.None? && h'.s.txns[t].toParent.None?
    requires forall t :: IsCall(h'.s, t) <==> IsCall(h.s, t)
    requires forall t | IsCall(h.s, t) :: IsCall(h'.s, t) && h'.s.txns[t] == h.s.txns[t]
    requires h'.s.threads.Keys == h.s.threads.Keys
    requires forall a | a in h.s.threads ::
      h'.s.threads[a].stack == h.s.threads[a].stack && h'.s.threads[a].proc == h.s.threads[a].proc
    ensures Inv(h')
  {
    forall a, u ensures TakesPart(h'.s, a, u) <==> TakesPart(h.s, a, u) {}
    forall t | t in h'.s.txns ensures t < h'.s.next {
      if h'.s.txns[t].needReply { assert IsCall(h'.s, t); assert IsCall(h.s, t); }
    }
    assert Placed(h');
    forall t | IsCall(h'.s, t) ensures ChainLink(h', t) && Addressed(h', t) && ServerLink(h', t) {
      assert IsCall(h.s, t) && ChainLink(h, t) && Addressed(h, t) && ServerLink(h, t);
      var x := h.s.txns[t];
      if x.queue.None? && x.toThread.Some? {
        assert DeepestBelow(h', x.toThread.value, x.toParent, h.pos[t].depth);
      }
    }
    SameCallsSameParts(h, h');
  }

  lemma SameCallsSameParts(h: History, h': History)
    requires Inv(h) && Placed(h') && h'.pos == h.pos
    requires forall a, u :: TakesPart(h'.s, a, u) <==> TakesPart(h.s, a, u)
    requires forall t :: IsCall(h'.s, t) <==> IsCall(h.s, t)
    requires forall t | IsCall(h.s, t) :: IsCall(h'.s, t) && h'.s.txns[t] == h.s.txns[t]
    requires h'.s.threads.Keys == h.s.threads.Keys
    requires forall a | a in h.s.threads :: h'.s.threads[a].stack == h.s.threads[a].stack
    ensures Callbacks(h') && OneChain(h') && Tops(h')
  {
    forall w | IsCall(h'.s, w) && h'.s.txns[w].queue.Some? && h'.s.txns[w].queue.value.ThreadQueue?
      ensures exists u :: TakesPart(h'.s, h'.s.txns[w].queue.value.tid, u) && h'.pos[u].root == h'.pos[w].root
    {
      assert IsCall(h.s, w);
      var x := h.s.txns[w].queue.value.tid;
      var u :| TakesPart(h.s, x, u) && h.pos[u].root == h.pos[w].root;
      assert TakesPart(h'.s, x, u);
    }
    forall a | a in h'.s.threads ensures Deepest(h', a, h'.s.threads[a].stack) {
      assert Deepest(h, a, h.s.threads[a].stack);
    }
  }

  lemma DeliverPushes(h: History, h': History, th: Tid, t: TxnId)
    requires Placed(h) && Placed(h') && h'.pos == h.pos
    requires th in h.s.threads && IsCall(h.s, t) && h.s.txns[t].queue.Some? && h'.s == Deliver(h.s, th, t)
    requires forall u | TakesPart(h.s, th, u) :: h.pos[u].root == h.pos[t].root && h.pos[u].depth < h.pos[t].depth
    ensures Pushed(h, h', th, t)
  {
    DeliverTakesPart(h.s, th, t);
  }

  lemma DeliverCallKeepsInv(h: History, h': History, th: Tid, t: TxnId)
    requires Inv(h) && MayDeliver(h.s, th, t) && h.s.txns[t].needReply
    requires h'.s == Deliver(h.s, th, t) && h'.pos == h.pos
    ensures Inv(h')
  {
    DeliverOnTop(h, th, t);
    DeliverPlaced(h, h', th, t);
    DeliverLinks(h, h', th, t);
    DeliverPushes(h, h', th, t);
    DeliverParts(h, h', th, t);
    DeliverServerLinks(h, h', th, t);
  }

  lemma DeliverKeepsInv(h: History, th: Tid, t: TxnId)
    requires Inv(h) && MayDeliver(h.s, th, t)
    ensures Inv(HDeliver(h, th, t))
  {
    if h.s.txns[t].needReply {
      DeliverCallKeepsInv(h, HDeliver(h, th, t), th, t);
    } else {
      FreeReplyKeepsInv(h, t);
    }
  }
}
