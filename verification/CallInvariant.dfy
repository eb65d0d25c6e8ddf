/**
The invariant of every run of synchronous calls. Nested calls form chains: each call in a chain was
made by the thread serving the call before it, and only the last may still be queued. A thread takes
part in at most one chain, and its stack is what it takes part in, deepest first.
*/
module CallInvariant {
  import opened Common
  import opened CallStacks

  /** Which chain a call belongs to, by the identity of its first call, and how deep in it. */
  datatype Pos = Pos(root: TxnId, depth: nat)

  /** A state with what happened on the way to it: positions in chains, the caller's and the server's
      stacks from before each call, and the calls that were answered with an error. */
  datatype History = History(
    s: State, pos: map<TxnId, Pos>,
    callerBefore: map<TxnId, seq<TxnId>>, serverBefore: map<TxnId, seq<TxnId>>,
    answered: set<TxnId>)

  predicate IsCall(s: State, t: TxnId) { t in s.txns && s.txns[t].needReply }

  /** `th` made call `t`, or is serving it. */
  predicate TakesPart(s: State, th: Tid, t: TxnId) {
    IsCall(s, t) && (s.txns[t].from == Some(th) || (s.txns[t].queue.None? && s.txns[t].toThread == Some(th)))
  }

  // ---------------------------------------------------------------- the parts of the invariant

  /** Calls have distinct positions; replies carry no caller. */
  ghost predicate Placed(h: History) {
    && (forall t | t in h.s.txns :: t < h.s.next)
    && (forall t | IsCall(h.s, t) :: t in h.pos && h.pos[t].root <= t)
    && (forall t, u | IsCall(h.s, t) && IsCall(h.s, u) && h.pos[t] == h.pos[u] :: t == u)
    && (forall t | t in h.s.txns && !h.s.txns[t].needReply ::
          h.s.txns[t].from.None? && h.s.txns[t].fromParent.None? && h.s.txns[t].toParent.None?)
  }

  /** The call before `t` in its chain has been delivered, and its server made `t`. */
  ghost predicate ChainLink(h: History, t: TxnId)
    requires t in h.s.txns && t in h.pos
  {
    var x := h.s.txns[t];
    if h.pos[t].depth == 0 then x.fromParent.None?
    else
      && x.fromParent.Some? && IsCall(h.s, x.fromParent.value) && x.fromParent.value in h.pos
      && x.fromParent.value < t
      && h.pos[x.fromParent.value] == Pos(h.pos[t].root, h.pos[t].depth - 1)
      && h.s.txns[x.fromParent.value].queue.None? && h.s.txns[x.fromParent.value].toThread == x.from
  }

  ghost predicate Chained(h: History)
    requires Placed(h)
  {
    forall t | IsCall(h.s, t) :: ChainLink(h, t)
  }

  /** Callers and servers exist, in different processes; a call waits where its server will look. */
  ghost predicate Addressed(h: History, t: TxnId)
    requires t in h.s.txns && t in h.pos
  {
    var x := h.s.txns[t];
    && (x.from.Some? ==> x.from.value in h.s.threads && h.s.threads[x.from.value].proc != x.toProc)
    && (x.queue.None? && x.toThread.Some? ==>
          x.toThread.value in h.s.threads && h.s.threads[x.toThread.value].proc == x.toProc)
    && (x.queue.Some? ==> x.toParent.None?)
    && (x.queue.Some? && x.queue.value.ProcQueue? ==> x.queue.value.pid == x.toProc)
    && (x.queue.Some? && x.queue.value.ThreadQueue? ==>
          x.queue.value.tid in h.s.threads && h.s.threads[x.queue.value.tid].proc == x.toProc
          && h.pos[t].depth > 0)
  }

  ghost predicate AllAddressed(h: History)
    requires Placed(h)
  {
    forall t | IsCall(h.s, t) :: Addressed(h, t)
  }

  /** A call on a thread's own queue is a callback into the chain that thread is in. */
  ghost predicate Callbacks(h: History)
    requires Placed(h)
  {
    forall t | IsCall(h.s, t) && h.s.txns[t].queue.Some? && h.s.txns[t].queue.value.ThreadQueue? ::
      exists u :: TakesPart(h.s, h.s.txns[t].queue.value.tid, u) && h.pos[u].root == h.pos[t].root
  }

  ghost predicate OneChain(h: History)
    requires Placed(h)
  {
    forall th, t, u | TakesPart(h.s, th, t) && TakesPart(h.s, th, u) :: h.pos[t].root == h.pos[u].root
  }

  /** `top` is the deepest call `th` takes part in, above depth bound `d`. */
  ghost predicate DeepestBelow(h: History, th: Tid, top: Option<TxnId>, d: int)
    requires Placed(h)
  {
    && (top.Some? ==> TakesPart(h.s, th, top.value) && h.pos[top.value].depth < d)
    && (forall t | TakesPart(h.s, th, t) && h.pos[t].depth < d ::
          top.Some? && h.pos[t].depth <= h.pos[top.value].depth)
  }

  /** `top` is the deepest call `th` takes part in. */
  ghost predicate Deepest(h: History, th: Tid, top: Option<TxnId>)
    requires Placed(h)
  {
    && (top.Some? ==> TakesPart(h.s, th, top.value))
    && (forall t | TakesPart(h.s, th, t) :: top.Some? && h.pos[t].depth <= h.pos[top.value].depth)
  }

  ghost predicate Tops(h: History)
    requires Placed(h)
  {
    forall th | th in h.s.threads :: Deepest(h, th, h.s.threads[th].stack)
  }

  /** A served call sits above the next shallower one its server takes part in. */
  ghost predicate ServerLink(h: History, t: TxnId)
    requires Placed(h) && t in h.s.txns && t in h.pos
  {
    var x := h.s.txns[t];
    && (x.toParent.Some? ==>
          IsCall(h.s, x.toParent.value) && x.toParent.value < t
          && h.pos[x.toParent.value].root == h.pos[t].root && h.pos[x.toParent.value].depth < h.pos[t].depth)
    && (x.queue.None? && x.toThread.Some? ==> DeepestBelow(h, x.toThread.value, x.toParent, h.pos[t].depth))
  }

  ghost predicate ServerLinks(h: History)
    requires Placed(h)
  {
    forall t | IsCall(h.s, t) :: ServerLink(h, t)
  }

  ghost predicate Inv(h: History) {
    && Placed(h) && Chained(h) && AllAddressed(h) && Callbacks(h)
    && OneChain(h) && Tops(h) && ServerLinks(h)
  }

  lemma InvLinked(h: History)
    requires Inv(h)
    ensures Linked(h.s.txns)
    ensures forall th | th in h.s.threads && h.s.threads[th].stack.Some? :: h.s.threads[th].stack.value in h.s.txns
  {
    forall t | t in h.s.txns
      ensures h.s.txns[t].fromParent.Some? ==> h.s.txns[t].fromParent.value < t && h.s.txns[t].fromParent.value in h.s.txns
      ensures h.s.txns[t].toParent.Some? ==> h.s.txns[t].toParent.value < t && h.s.txns[t].toParent.value in h.s.txns
    {
      if h.s.txns[t].needReply { assert IsCall(h.s, t); assert ChainLink(h, t); assert ServerLink(h, t); }
    }
    forall th | th in h.s.threads && h.s.threads[th].stack.Some?
      ensures h.s.threads[th].stack.value in h.s.txns
    {
      assert Deepest(h, th, h.s.threads[th].stack);
    }
  }

  /** No call is deeper in the chain. */
  ghost predicate Last(h: History, t: TxnId)
    requires Placed(h) && IsCall(h.s, t)
  {
    forall u | IsCall(h.s, u) && h.pos[u].root == h.pos[t].root :: h.pos[u].depth <= h.pos[t].depth
  }

  /** If a chain goes past `t`, the call right after `t` exists. */
  lemma {:induction false} NextInChain(h: History, t: TxnId, u: TxnId) returns (n: TxnId)
    requires Placed(h) && Chained(h)
    requires IsCall(h.s, t) && IsCall(h.s, u) && h.pos[u].root == h.pos[t].root && h.pos[t].depth < h.pos[u].depth
    ensures IsCall(h.s, n) && h.pos[n] == Pos(h.pos[t].root, h.pos[t].depth + 1) && h.s.txns[n].fromParent == Some(t)
    ensures h.s.txns[t].queue.None? && h.s.txns[t].toThread == h.s.txns[n].from
    decreases h.pos[u].depth
  {
    assert ChainLink(h, u);
    if h.pos[u].depth == h.pos[t].depth + 1 {
      n := u;
    } else {
      n := NextInChain(h, t, h.s.txns[u].fromParent.value);
    }
  }

  /** The call a thread is serving at the top of its stack is the end of its chain: this is what makes
      the two stacks of a call agree about what is on top. */
  lemma ServedTopIsLast(h: History, th: Tid)
    requires Inv(h) && Serving(h.s, th)
    ensures IsCall(h.s, h.s.threads[th].stack.value)
    ensures Last(h, h.s.threads[th].stack.value)
    ensures h.s.txns[h.s.threads[th].stack.value].queue.None?
    ensures h.s.txns[h.s.threads[th].stack.value].toThread == Some(th)
  {
    var t := h.s.threads[th].stack.value;
    assert Deepest(h, th, h.s.threads[th].stack);
    forall u | IsCall(h.s, u) && h.pos[u].root == h.pos[t].root ensures h.pos[u].depth <= h.pos[t].depth {
      if h.pos[u].depth > h.pos[t].depth {
        var n := NextInChain(h, t, u);
        assert TakesPart(h.s, th, n);
        assert false;
      }
    }
  }

  /** A call still waiting on a queue is the end of its chain. */
  lemma QueuedIsLast(h: History, t: TxnId)
    requires Inv(h) && IsCall(h.s, t) && h.s.txns[t].queue.Some?
    ensures Last(h, t)
  {
    forall u | IsCall(h.s, u) && h.pos[u].root == h.pos[t].root ensures h.pos[u].depth <= h.pos[t].depth {
      if h.pos[u].depth > h.pos[t].depth {
        var n := NextInChain(h, t, u);
        assert false;
      }
    }
  }

  /** A thread whose call is still queued has it on top. */
  lemma WaitingOnTop(h: History, t: TxnId)
    requires Inv(h) && IsCall(h.s, t) && h.s.txns[t].queue.Some? && h.s.txns[t].from.Some?
    ensures h.s.txns[t].from.value in h.s.threads && h.s.threads[h.s.txns[t].from.value].stack == Some(t)
  {
    var a := h.s.txns[t].from.value;
    assert Addressed(h, t) && TakesPart(h.s, a, t);
    var top := h.s.threads[a].stack;
    assert Deepest(h, a, top);
    QueuedIsLast(h, t);
    assert h.pos[top.value].root == h.pos[t].root;
    assert h.pos[top.value] == h.pos[t];
  }

  // ---------------------------------------------------------------- steps with their history

  ghost function HCall(h: History, th: Tid, target: Pid): History
    requires Inv(h) && th in h.s.threads
  {
    InvLinked(h);
    var t := h.s.next;
    var top := h.s.threads[th].stack;
    h.(s := Call(h.s, th, target),
       pos := h.pos[t := if top.None? then Pos(t, 0) else Pos(h.pos[top.value].root, h.pos[top.value].depth + 1)],
       callerBefore := h.callerBefore[t := Walk(h.s.txns, th, top)])
  }

  ghost function HDeliver(h: History, th: Tid, t: TxnId): History
    requires Inv(h) && th in h.s.threads && t in h.s.txns
  {
    InvLinked(h);
    h.(s := Deliver(h.s, th, t),
       serverBefore := if h.s.txns[t].needReply
         then h.serverBefore[t := Walk(h.s.txns, th, h.s.threads[th].stack)] else h.serverBefore)
  }

  ghost function HReply(h: History, th: Tid): History
    requires Inv(h) && Serving(h.s, th)
  {
    h.(s := Reply(h.s, th))
  }

  /** Outstanding calls of live threads whose server is among `gone`. */
  ghost function Unserved(s: State, gone: set<Tid>): set<TxnId> {
    set t | t in s.txns && ServedBy(s.txns[t], gone) && s.txns[t].from.Some?
  }

  ghost function HExit(h: History, th: Tid): History
    requires th in h.s.threads
  {
    h.(s := Exit(h.s, th), answered := h.answered + Unserved(h.s, {th}))
  }

  /** Outstanding calls of live threads on the queue of process `p`. */
  ghost function Waiting(s: State, p: Pid): set<TxnId> {
    set t | t in s.txns && s.txns[t].queue == Some(ProcQueue(p)) && s.txns[t].from.Some?
  }

  ghost function HClose(h: History, p: Pid): History {
    h.(s := Close(h.s, p), answered := h.answered + Unserved(h.s, ThreadsOf(h.s, p)) + Waiting(h.s, p))
  }

  // ---------------------------------------------------------------- a call keeps the invariant

  /** What the walk up the chain finds: the deepest caller of the chain, at or above `c`, that belongs
      to the target process, or nobody if there is none. */
  lemma {:induction false} TargetThreadIs(h: History, c: TxnId, target: Pid) returns (u: TxnId)
    requires Placed(h) && Chained(h) && AllAddressed(h) && IsCall(h.s, c) && Linked(h.s.txns)
    ensures var tt := TargetThread(h.s, Some(c), target);
      && (tt.Some? ==>
            && IsCall(h.s, u) && h.pos[u].root == h.pos[c].root && h.pos[u].depth <= h.pos[c].depth
            && h.s.txns[u].from == tt && tt.value in h.s.threads && h.s.threads[tt.value].proc == target)
      && (forall w | IsCall(h.s, w) && h.pos[w].root == h.pos[c].root && h.pos[w].depth <= h.pos[c].depth
            && h.s.txns[w].from.Some? && h.s.threads[h.s.txns[w].from.value].proc == target ::
            tt.Some? && h.pos[w].depth <= h.pos[u].depth)
    decreases c
  {
    var x := h.s.txns[c];
    assert ChainLink(h, c) && Addressed(h, c);
    if x.from.Some? && x.from.value in h.s.threads && h.s.threads[x.from.value].proc == target {
      u := c;
    } else if x.fromParent.None? {
      u := c;
      forall w | IsCall(h.s, w) && h.pos[w].root == h.pos[c].root && h.pos[w].depth <= h.pos[c].depth
        ensures w == c
      {
        assert h.pos[w] == h.pos[c];
      }
    } else {
      u := TargetThreadIs(h, x.fromParent.value, target);
      forall w | IsCall(h.s, w) && h.pos[w].root == h.pos[c].root && h.pos[w].depth == h.pos[c].depth
        ensures w == c
      {
        assert h.pos[w] == h.pos[c];
      }
    }
  }
}
