/** Replies, thread exits and process closes keep the invariant of CallInvariant. */
module CallEndings {
  import opened Common
  import opened CallStacks
  import opened CallInvariant

  /** What the invariant asks of transactions that are not calls. */
  ghost predicate RepliesOk(s: State) {
    && (forall t | t in s.txns :: t < s.next)
    && (forall t | t in s.txns && !s.txns[t].needReply ::
          s.txns[t].from.None? && s.txns[t].fromParent.None? && s.txns[t].toParent.None?)
  }

  // ---------------------------------------------------------------- calls that end

  /** From `h` to `h'`, the calls in `dropped` are gone and off the top of every stack. */
  ghost predicate Drops(h: History, h': History, dropped: set<TxnId>) {
    && h'.pos == h.pos && RepliesOk(h'.s)
    && (forall t :: IsCall(h'.s, t) <==> (IsCall(h.s, t) && t !in dropped))
    && (forall t | IsCall(h'.s, t) :: IsCall(h.s, t) && h'.s.txns[t] == h.s.txns[t])
    && h'.s.threads.Keys == h.s.threads.Keys
    && (forall a | a in h.s.threads ::
          && h'.s.threads[a].proc == h.s.threads[a].proc
          && (h.s.threads[a].stack.Some? ==> h.s.threads[a].stack.value in h.s.txns)
          && h'.s.threads[a].stack == Uncovered(h.s, a, dropped))
  }

  ghost function Uncovered(s: State, a: Tid, dropped: set<TxnId>): Option<TxnId>
    requires a in s.threads && (s.threads[a].stack.Some? ==> s.threads[a].stack.value in s.txns)
  {
    var top := s.threads[a].stack;
    if top.Some? && top.value in dropped then Below(s.txns, a, top.value) else top
  }

  /** A call with a deeper one in its chain is not the last. */
  lemma NotLast(h: History, p: TxnId, u: TxnId)
    requires Placed(h) && IsCall(h.s, p) && IsCall(h.s, u)
    requires h.pos[p].root == h.pos[u].root && h.pos[p].depth < h.pos[u].depth
    ensures !Last(h, p)
  {}

  lemma DropPlaced(h: History, h': History, dropped: set<TxnId>)
    requires Placed(h) && Drops(h, h', dropped)
    ensures Placed(h')
    ensures forall a, u :: TakesPart(h'.s, a, u) <==> (TakesPart(h.s, a, u) && u !in dropped)
  {}

  lemma DropLinks(h: History, h': History, dropped: set<TxnId>)
    requires Inv(h) && Placed(h') && Drops(h, h', dropped)
    requires forall t | t in dropped :: IsCall(h.s, t) && Last(h, t)
    ensures Chained(h') && AllAddressed(h')
  {
    forall u | IsCall(h'.s, u) ensures ChainLink(h', u) && Addressed(h', u) {
      assert IsCall(h.s, u) && ChainLink(h, u) && Addressed(h, u);
      if h.pos[u].depth > 0 {
        var p := h.s.txns[u].fromParent.value;
        NotLast(h, p, u);
        assert IsCall(h'.s, p);
      }
    }
  }

  /** The thread a queued callback waits for has another, shallower call in the chain. */
  lemma CallbackHost(h: History, w: TxnId, u: TxnId)
    requires Inv(h) && IsCall(h.s, w) && h.s.txns[w].queue.Some? && h.s.txns[w].queue.value.ThreadQueue?
    requires TakesPart(h.s, h.s.txns[w].queue.value.tid, u) && h.pos[u].root == h.pos[w].root
    ensures h.pos[u].depth < h.pos[w].depth
  {
    assert Addressed(h, w);
    QueuedIsLast(h, w);
    assert u != w && h.pos[u] != h.pos[w];
  }

  lemma DropCallbacks(h: History, h': History, dropped: set<TxnId>)
    requires Inv(h) && Placed(h') && Drops(h, h', dropped)
    requires forall t | t in dropped :: IsCall(h.s, t) && Last(h, t)
    requires forall a, u :: TakesPart(h'.s, a, u) <==> (TakesPart(h.s, a, u) && u !in dropped)
    ensures Callbacks(h') && OneChain(h')
  {
    forall w | IsCall(h'.s, w) && h'.s.txns[w].queue.Some? && h'.s.txns[w].queue.value.ThreadQueue?
      ensures exists u :: TakesPart(h'.s, h'.s.txns[w].queue.value.tid, u) && h'.pos[u].root == h'.pos[w].root
    {
      assert IsCall(h.s, w);
      var x := h.s.txns[w].queue.value.tid;
      var u :| TakesPart(h.s, x, u) && h.pos[u].root == h.pos[w].root;
      CallbackHost(h, w, u);
      NotLast(h, u, w);
      assert TakesPart(h'.s, x, u);
    }
  }

  /** Under a dropped top lies the next shallower call the thread takes part in. */
  lemma DropTop(h: History, a: Tid, t: TxnId)
    requires Inv(h) && a in h.s.threads && h.s.threads[a].stack == Some(t)
    ensures IsCall(h.s, t) && DeepestBelow(h, a, Below(h.s.txns, a, t), h.pos[t].depth)
    ensures forall u | TakesPart(h.s, a, u) && u != t :: h.pos[u].depth < h.pos[t].depth
  {
    assert Deepest(h, a, Some(t));
    assert ChainLink(h, t) && ServerLink(h, t);
    forall u | TakesPart(h.s, a, u) && u != t ensures h.pos[u].depth < h.pos[t].depth {
      assert h.pos[u] != h.pos[t];
      assert h.pos[u].root == h.pos[t].root;
    }
    var x := h.s.txns[t];
    if x.from == Some(a) && x.fromParent.Some? { assert TakesPart(h.s, a, x.fromParent.value); }
  }

  lemma DropTops(h: History, h': History, dropped: set<TxnId>)
    requires Inv(h) && Placed(h') && Drops(h, h', dropped)
    requires forall t | t in dropped :: IsCall(h.s, t) && Last(h, t)
    requires forall a, u :: TakesPart(h'.s, a, u) <==> (TakesPart(h.s, a, u) && u !in dropped)
    ensures Tops(h')
  {
    forall a | a in h'.s.threads ensures Deepest(h', a, h'.s.threads[a].stack) {
      var top := h.s.threads[a].stack;
      assert Deepest(h, a, top);
      if top.Some? && top.value in dropped {
        DropTop(h, a, top.value);
        var below := Below(h.s.txns, a, top.value);
        if below.Some? {
          assert h.pos[below.value].root == h.pos[top.value].root;
          NotLast(h, below.value, top.value);
        }
      }
    }
  }

  lemma DropServerLinks(h: History, h': History, dropped: set<TxnId>)
    requires Inv(h) && Placed(h') && Drops(h, h', dropped)
    requires forall t | t in dropped :: IsCall(h.s, t) && Last(h, t)
    requires forall a, u :: TakesPart(h'.s, a, u) <==> (TakesPart(h.s, a, u) && u !in dropped)
    ensures ServerLinks(h')
  {
    forall u | IsCall(h'.s, u) ensures ServerLink(h', u) {
      assert IsCall(h.s, u) && ServerLink(h, u);
      var x := h.s.txns[u];
      if x.toParent.Some? {
        var v := x.toParent.value;
        NotLast(h, v, u);
        assert IsCall(h'.s, v);
      }
      if x.queue.None? && x.toThread.Some? {
        assert DeepestBelow(h', x.toThread.value, x.toParent, h.pos[u].depth);
      }
    }
  }

  /** Calls at the end of their chain may end, and uncover what was below them on both stacks. */
  lemma DropKeepsInv(h: History, h': History, dropped: set<TxnId>)
    requires Inv(h) && Drops(h, h', dropped)
    requires forall t | t in dropped :: IsCall(h.s, t) && Last(h, t)
    ensures Inv(h')
  {
    DropPlaced(h, h', dropped);
    DropLinks(h, h', dropped);
    DropCallbacks(h, h', dropped);
    DropTops(h, h', dropped);
    DropServerLinks(h, h', dropped);
  }

  // ---------------------------------------------------------------- replies

  /** The caller of a served top has that call on top of its own stack too. */
  lemma CallerTop(h: History, th: Tid)
    requires Inv(h) && Serving(h.s, th)
    ensures var from := h.s.txns[h.s.threads[th].stack.value].from;
      from.Some? ==>
        from.value in h.s.threads && from.value != th && h.s.threads[from.value].stack == h.s.threads[th].stack
  {
    ServedTopIsLast(h, th);
    var t := h.s.threads[th].stack.value;
    var x := h.s.txns[t];
    assert Addressed(h, t);
    if x.from.Some? {
      var a := x.from.value;
      var top := h.s.threads[a].stack;
      assert TakesPart(h.s, a, t);
      assert Deepest(h, a, top);
      assert h.pos[top.value].root == h.pos[t].root;
      assert h.pos[top.value] == h.pos[t];
    }
  }

  /** Only the caller and the server of a call have it on top. */
  lemma OnlyTheTwo(h: History, a: Tid, t: TxnId)
    requires Inv(h) && a in h.s.threads && h.s.threads[a].stack == Some(t)
    ensures IsCall(h.s, t) && (h.s.txns[t].from == Some(a) || h.s.txns[t].toThread == Some(a))
  {
    assert Deepest(h, a, Some(t));
  }

  /** What a reply does to the two stacks and to nothing else. */
  lemma ReplyPops(s: State, th: Tid, a: Tid)
    requires Serving(s, th) && a in s.threads
    requires var x := s.txns[s.threads[th].stack.value];
      && x.needReply && x.queue.None? && x.toThread == Some(th)
      && (x.from.Some? ==> x.from.value in s.threads && x.from.value != th)
    requires s.threads[a].stack == s.threads[th].stack ==>
      a == th || s.txns[s.threads[th].stack.value].from == Some(a)
    ensures var s' := Reply(s, th); var t := s.threads[th].stack.value;
      && s'.threads.Keys == s.threads.Keys && s'.threads[a].proc == s.threads[a].proc
      && s'.threads[a].stack == if s.threads[a].stack == Some(t) then Below(s.txns, a, t) else s.threads[a].stack
  {}

  lemma ReplyTxns(s: State, th: Tid)
    requires Serving(s, th) && RepliesOk(s) && s.txns[s.threads[th].stack.value].needReply
    ensures var s' := Reply(s, th); var t := s.threads[th].stack.value;
      && RepliesOk(s')
      && (forall u :: IsCall(s', u) <==> (IsCall(s, u) && u != t))
      && (forall u | IsCall(s', u) :: IsCall(s, u) && s'.txns[u] == s.txns[u])
  {}

  lemma ReplyDrops(h: History, th: Tid)
    requires Inv(h) && Serving(h.s, th)
    ensures Drops(h, HReply(h, th), {h.s.threads[th].stack.value})
  {
    InvLinked(h);
    ServedTopIsLast(h, th);
    CallerTop(h, th);
    ReplyTxns(h.s, th);
    var t := h.s.threads[th].stack.value;
    forall a | a in h.s.threads
      ensures Reply(h.s, th).threads.Keys == h.s.threads.Keys
      ensures Reply(h.s, th).threads[a].proc == h.s.threads[a].proc
      ensures Reply(h.s, th).threads[a].stack == Uncovered(h.s, a, {t})
    {
      if h.s.threads[a].stack == Some(t) { OnlyTheTwo(h, a, t); }
      ReplyPops(h.s, th, a);
    }
  }

  lemma ReplyKeepsInv(h: History, th: Tid)
    requires Inv(h) && Serving(h.s, th)
    ensures Inv(HReply(h, th))
  {
    ReplyDrops(h, th);
    ServedTopIsLast(h, th);
    DropKeepsInv(h, HReply(h, th), {h.s.threads[th].stack.value});
  }

  // ---------------------------------------------------------------- threads that leave

  /** From `h` to `h'`, the threads in `gone` have left and every call has let go of them. */
  ghost predicate Detaches(h: History, h': History, gone: set<Tid>) {
    && h'.pos == h.pos && RepliesOk(h'.s)
    && (forall t :: IsCall(h'.s, t) <==> IsCall(h.s, t))
    && (forall t | IsCall(h.s, t) :: IsCall(h'.s, t) && h'.s.txns[t] == Detached(h.s.txns[t], gone))
    && h'.s.threads.Keys == h.s.threads.Keys - gone
    && (forall a | a in h'.s.threads ::
          h'.s.threads[a].proc == h.s.threads[a].proc && h'.s.threads[a].stack == h.s.threads[a].stack)
  }

  /** No call waits on the own queue of a thread in `gone`. */
  ghost predicate NoneQueuedTo(s: State, gone: set<Tid>) {
    forall t | IsCall(s, t) && s.txns[t].queue.Some? && s.txns[t].queue.value.ThreadQueue? ::
      s.txns[t].queue.value.tid !in gone
  }

  lemma DetachPlaced(h: History, h': History, gone: set<Tid>)
    requires Placed(h) && Detaches(h, h', gone)
    ensures Placed(h')
    ensures forall a, u :: TakesPart(h'.s, a, u) <==> (TakesPart(h.s, a, u) && a !in gone)
  {
    forall a, u ensures TakesPart(h'.s, a, u) <==> (TakesPart(h.s, a, u) && a !in gone) {
      if IsCall(h.s, u) { assert h'.s.txns[u] == Detached(h.s.txns[u], gone); }
    }
  }

  lemma DetachLinks(h: History, h': History, gone: set<Tid>)
    requires Placed(h) && Chained(h) && AllAddressed(h) && Placed(h') && Detaches(h, h', gone)
    requires NoneQueuedTo(h.s, gone)
    ensures Chained(h') && AllAddressed(h')
  {
    forall u | IsCall(h'.s, u) ensures ChainLink(h', u) && Addressed(h', u) {
      assert IsCall(h.s, u) && ChainLink(h, u) && Addressed(h, u);
    }
  }

  lemma DetachParts(h: History, h': History, gone: set<Tid>)
    requires Inv(h) && Placed(h') && Detaches(h, h', gone) && NoneQueuedTo(h.s, gone)
    requires forall a, u :: TakesPart(h'.s, a, u) <==> (TakesPart(h.s, a, u) && a !in gone)
    ensures Callbacks(h') && OneChain(h') && Tops(h')
  {
    forall w | IsCall(h'.s, w) && h'.s.txns[w].queue.Some? && h'.s.txns[w].queue.value.ThreadQueue?
      ensures exists u :: TakesPart(h'.s, h'.s.txns[w].queue.value.tid, u) && h'.pos[u].root == h'.pos[w].root
    {
      assert IsCall(h.s, w);
      var x := h.s.txns[w].queue.value.tid;
      var u :| TakesPart(h.s, x, u) && h.pos[u].root == h.pos[w].root;
      assert TakesPart(h'.s, x, u);
    }
    forall a | a in h'.s.threads ensures Deepest(h', a, h'.s.threads[a].stack) {
      assert Deepest(h, a, h.s.threads[a].stack);
    }
  }

  lemma DetachServerLinks(h: History, h': History, gone: set<Tid>)
    requires Placed(h) && ServerLinks(h) && Placed(h') && Detaches(h, h', gone)
    requires forall a, u :: TakesPart(h'.s, a, u) <==> (TakesPart(h.s, a, u) && a !in gone)
    ensures ServerLinks(h')
  {
    forall u | IsCall(h'.s, u) ensures ServerLink(h', u) {
      assert IsCall(h.s, u) && ServerLink(h, u);
      var x := h'.s.txns[u];
      if x.queue.None? && x.toThread.Some? {
        assert DeepestBelow(h', x.toThread.value, x.toParent, h.pos[u].depth);
      }
    }
  }

  /** Threads may leave: the chains stay, with open ends where the leavers were. */
  lemma DetachKeepsInv(h: History, h': History, gone: set<Tid>)
    requires Inv(h) && Detaches(h, h', gone) && NoneQueuedTo(h.s, gone)
    ensures Inv(h')
  {
    DetachPlaced(h, h', gone);
    DetachLinks(h, h', gone);
    DetachParts(h, h', gone);
    DetachServerLinks(h, h', gone);
  }

  // ---------------------------------------------------------------- thread exit

  /** What waited on a thread's own queue is put back on the queue of its process. */
  ghost function Requeued(s: State, th: Tid): State
    requires th in s.threads
  {
    s.(txns := map t | t in s.txns ::
         if s.txns[t].queue == Some(ThreadQueue(th)) then s.txns[t].(queue := Some(ProcQueue(s.threads[th].proc)))
         else s.txns[t])
  }

  lemma RequeueKeepsInv(h: History, th: Tid)
    requires Inv(h) && th in h.s.threads
    ensures Inv(h.(s := Requeued(h.s, th)))
  {
    var h' := h.(s := Requeued(h.s, th));
    forall a, u ensures TakesPart(h'.s, a, u) <==> TakesPart(h.s, a, u) {}
    RequeueLinks(h, h', th);
    RequeueServerLinks(h, h', th);
    RequeueParts(h, h', th);
  }

  lemma RequeueLinks(h: History, h': History, th: Tid)
    requires Placed(h) && Chained(h) && AllAddressed(h) && th in h.s.threads
    requires h' == h.(s := Requeued(h.s, th))
    ensures Placed(h') && Chained(h') && AllAddressed(h')
  {
    forall u | IsCall(h'.s, u) ensures ChainLink(h', u) && Addressed(h', u) {
      assert IsCall(h.s, u) && ChainLink(h, u) && Addressed(h, u);
    }
  }

  lemma RequeueServerLinks(h: History, h': History, th: Tid)
    requires Placed(h) && Placed(h') && ServerLinks(h) && th in h.s.threads
    requires h' == h.(s := Requeued(h.s, th))
    requires forall a, u :: TakesPart(h'.s, a, u) <==> TakesPart(h.s, a, u)
    ensures ServerLinks(h')
  {
    forall u | IsCall(h'.s, u) ensures ServerLink(h', u) {
      assert IsCall(h.s, u) && ServerLink(h, u);
      var x := h.s.txns[u];
      if x.queue.None? && x.toThread.Some? {
        assert DeepestBelow(h', x.toThread.value, x.toParent, h.pos[u].depth);
      }
    }
  }

  lemma RequeueParts(h: History, h': History, th: Tid)
    requires Inv(h) && Placed(h') && th in h.s.threads && h' == h.(s := Requeued(h.s, th))
    requires forall a, u :: TakesPart(h'.s, a, u) <==> TakesPart(h.s, a, u)
    ensures Callbacks(h') && OneChain(h') && Tops(h')
  {
    forall w | IsCall(h'.s, w) && h'.s.txns[w].queue.Some? && h'.s.txns[w].queue.value.ThreadQueue?
      ensures exists u :: TakesPart(h'.s, h'.s.txns[w].queue.value.tid, u) && h'.pos[u].root == h'.pos[w].root
    {
      assert IsCall(h.s, w);
      var x := h.s.txns[w].queue.value.tid;
      var u :| TakesPart(h.s, x, u) && h.pos[u].root == h.pos[w].root;
      assert TakesPart(h'.s, x, u);
    }
    forall a | a in h'.s.threads ensures Deepest(h', a, h'.s.threads[a].stack) {
      assert Deepest(h, a, h.s.threads[a].stack);
    }
  }

  lemma ExitKeepsInv(h: History, th: Tid)
    requires Inv(h) && th in h.s.threads
    ensures Inv(HExit(h, th))
  {
    var mid := h.(s := Requeued(h.s, th));
    RequeueKeepsInv(h, th);
    ExitDetaches(h, th);
    DetachKeepsInv(mid, HExit(h, th), {th});
  }

  lemma ExitDetaches(h: History, th: Tid)
    requires RepliesOk(h.s) && th in h.s.threads
    ensures Detaches(h.(s := Requeued(h.s, th)), HExit(h, th), {th})
    ensures NoneQueuedTo(Requeued(h.s, th), {th})
  {
    var mid, s' := Requeued(h.s, th), Exit(h.s, th);
    forall t | t in s'.txns && !s'.txns[t].needReply
      ensures s'.txns[t].from.None? && s'.txns[t].fromParent.None? && s'.txns[t].toParent.None? {}
    assert s'.threads.Keys == h.s.threads.Keys - {th};
  }

  // ---------------------------------------------------------------- process close

  /** Undelivered transactions of a closing process, off every queue and stack. */
  ghost function Emptied(s: State, p: Pid): State {
    var gone := ThreadsOf(s, p);
    s.(threads := map a | a in s.threads :: s.threads[a].(stack := StackWithout(s, a, p, gone)),
       txns := map t | t in s.txns && !Dropped(s.txns[t], p, gone) :: s.txns[t])
  }

  ghost function DroppedCalls(s: State, p: Pid): set<TxnId> {
    set t | t in s.txns && s.txns[t].needReply && Dropped(s.txns[t], p, ThreadsOf(s, p))
  }

  lemma CloseDrops(h: History, p: Pid)
    requires Inv(h)
    ensures Drops(h, h.(s := Emptied(h.s, p)), DroppedCalls(h.s, p))
    ensures forall t | t in DroppedCalls(h.s, p) :: IsCall(h.s, t) && Last(h, t)
  {
    InvLinked(h);
    forall t | t in DroppedCalls(h.s, p) ensures IsCall(h.s, t) && Last(h, t) { QueuedIsLast(h, t); }
    forall a | a in h.s.threads
      ensures StackWithout(h.s, a, p, ThreadsOf(h.s, p)) == Uncovered(h.s, a, DroppedCalls(h.s, p))
    {
      var top := h.s.threads[a].stack;
      assert Deepest(h, a, top);
    }
  }

  lemma CloseDetaches(h: History, p: Pid)
    requires RepliesOk(h.s)
    ensures Detaches(h.(s := Emptied(h.s, p)), HClose(h, p), ThreadsOf(h.s, p))
    ensures NoneQueuedTo(Emptied(h.s, p), ThreadsOf(h.s, p))
  {
    var mid, s' := Emptied(h.s, p), Close(h.s, p);
    var gone := ThreadsOf(h.s, p);
    assert s'.threads.Keys == h.s.threads.Keys - gone;
  }

  lemma CloseKeepsInv(h: History, p: Pid)
    requires Inv(h)
    ensures Inv(HClose(h, p))
  {
    var mid := h.(s := Emptied(h.s, p));
    CloseDrops(h, p);
    DropKeepsInv(h, mid, DroppedCalls(h.s, p));
    CloseDetaches(h, p);
    DetachKeepsInv(mid, HClose(h, p), ThreadsOf(h.s, p));
  }
}
