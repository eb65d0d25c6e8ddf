/**
What holds of the call stacks after every run: replies reach the thread that called and leave both
stacks as they were before the call, nested calls land on the waiting thread of their chain, and a
process that closes leaves no caller of a non-nested call without an answer.
*/
module CallTheorems {
  import opened Common
  import opened CallStacks
  import opened CallInvariant
  import opened CallSteps
  import opened CallEndings

  // ---------------------------------------------------------------- runs

  datatype Op =
    | OpCall(th: Tid, target: Pid)
    | OpDeliver(th: Tid, t: TxnId)
    | OpReply(th: Tid)
    | OpFail(th: Tid, e: Error)
    | OpReadError(th: Tid)
    | OpExit(th: Tid)
    | OpClose(p: Pid)

  /** When an operation may happen: the two client rules are that a thread calls only when idle or
      serving, and replies only to what it is serving. */
  predicate May(s: State, op: Op) {
    match op
    case OpCall(th, target) => MayCall(s, th, target)
    case OpDeliver(th, t) => MayDeliver(s, th, t)
    case OpReply(th) => Serving(s, th)
    case OpFail(th, e) => th in s.threads
    case OpReadError(th) => th in s.threads
    case OpExit(th) => th in s.threads
    case OpClose(p) => p in s.procs
  }

  ghost function HStep(h: History, op: Op): History
    requires Inv(h) && May(h.s, op)
  {
    match op
    case OpCall(th, target) => HCall(h, th, target)
    case OpDeliver(th, t) => HDeliver(h, th, t)
    case OpReply(th) => HReply(h, th)
    case OpFail(th, e) => h.(s := Fail(h.s, th, e))
    case OpReadError(th) => h.(s := ReadError(h.s, th))
    case OpExit(th) => HExit(h, th)
    case OpClose(p) => HClose(h, p)
  }

  /** The recorded stacks are still what lies below each call. */
  ghost predicate Remembered(h: History, t: TxnId)
    requires Inv(h) && IsCall(h.s, t)
  {
    InvLinked(h);
    var x := h.s.txns[t];
    && (x.from.Some? ==>
          t in h.callerBefore && h.callerBefore[t] == Walk(h.s.txns, x.from.value, x.fromParent))
    && (x.queue.None? && x.toThread.Some? ==>
          t in h.serverBefore && h.serverBefore[t] == Walk(h.s.txns, x.toThread.value, x.toParent))
  }

  /** A call whose caller lives is queued, or served by a thread that lives, or has been answered. */
  ghost predicate Answerable(h: History, t: TxnId)
    requires IsCall(h.s, t)
  {
    h.s.txns[t].from.Some? && t !in h.answered ==> h.s.txns[t].queue.Some? || h.s.txns[t].toThread.Some?
  }

  ghost predicate Good(h: History) {
    && Inv(h)
    && (forall t | IsCall(h.s, t) :: Remembered(h, t))
    && (forall t | IsCall(h.s, t) :: Answerable(h, t))
  }

  /** Nothing has been sent yet. */
  ghost predicate Idle(h: History) {
    && h.s.txns == map[] && h.pos == map[] && h.callerBefore == map[] && h.serverBefore == map[] && h.answered == {}
    && forall th | th in h.s.threads :: h.s.threads[th].stack.None?
  }

  lemma IdleGood(h: History)
    requires Idle(h)
    ensures Good(h)
  {
    assert forall t :: !IsCall(h.s, t);
    assert Placed(h);
    forall a | a in h.s.threads ensures Deepest(h, a, h.s.threads[a].stack) {}
  }

  ghost predicate StepsTo(h0: History, op: Op, h: History) {
    Inv(h0) && May(h0.s, op) && h == HStep(h0, op)
  }

  /** A run from any set of idle threads: the states it passes through and the operations between them. */
  ghost predicate Run(hs: seq<History>, ops: seq<Op>) {
    && |hs| == |ops| + 1
    && Idle(hs[0])
    && forall i | 0 <= i < |ops| :: StepsTo(hs[i], ops[i], hs[i + 1])
  }

  // ---------------------------------------------------------------- walks

  /** Below a call on a thread's stack is a shallower call of the same thread, or nothing. */
  lemma BelowTakesPart(h: History, a: Tid, u: TxnId)
    requires Inv(h) && TakesPart(h.s, a, u)
    ensures var v := Below(h.s.txns, a, u);
      v.Some? ==> TakesPart(h.s, a, v.value) && h.pos[v.value].depth < h.pos[u].depth
  {
    assert ChainLink(h, u) && ServerLink(h, u);
  }

  /** A walk depends only on the links of the calls its thread takes part in. */
  lemma {:induction false} WalkKept(h: History, h': History, a: Tid, cur: Option<TxnId>)
    requires Inv(h) && Linked(h.s.txns) && Linked(h'.s.txns)
    requires cur.Some? ==> TakesPart(h.s, a, cur.value)
    requires forall u | TakesPart(h.s, a, u) && cur.Some? && h.pos[u].depth <= h.pos[cur.value].depth ::
      u in h'.s.txns && Below(h'.s.txns, a, u) == Below(h.s.txns, a, u)
    ensures cur.Some? ==> cur.value in h'.s.txns
    ensures Walk(h'.s.txns, a, cur) == Walk(h.s.txns, a, cur)
    decreases if cur.Some? then cur.value + 1 else 0
  {
    if cur.Some? {
      BelowTakesPart(h, a, cur.value);
      WalkKept(h, h', a, Below(h.s.txns, a, cur.value));
    }
  }

  /** The stacks under a call keep their walks when every call shallower than it keeps its links. */
  lemma RememberedKept(h: History, h': History, t: TxnId)
    requires Inv(h) && Inv(h') && IsCall(h.s, t) && Remembered(h, t) && IsCall(h'.s, t)
    requires var x, y := h.s.txns[t], h'.s.txns[t];
      && (y.from.Some? ==> y.from == x.from && y.fromParent == x.fromParent)
      && (y.queue.None? && y.toThread.Some? ==> x.queue.None? && y.toThread == x.toThread && y.toParent == x.toParent)
    requires t in h.callerBefore ==> t in h'.callerBefore && h'.callerBefore[t] == h.callerBefore[t]
    requires t in h.serverBefore ==> t in h'.serverBefore && h'.serverBefore[t] == h.serverBefore[t]
    requires forall a, u | TakesPart(h.s, a, u) && h.pos[u].root == h.pos[t].root && h.pos[u].depth < h.pos[t].depth
        && a in h'.s.threads :: u in h'.s.txns && Below(h'.s.txns, a, u) == Below(h.s.txns, a, u)
    ensures Remembered(h', t)
  {
    InvLinked(h);
    InvLinked(h');
    var y := h'.s.txns[t];
    assert ChainLink(h, t) && ServerLink(h, t) && Addressed(h', t);
    if y.from.Some? {
      UnderCaller(h, t);
      WalkKept(h, h', y.from.value, y.fromParent);
    }
    if y.queue.None? && y.toThread.Some? {
      UnderServer(h, t);
      WalkKept(h, h', y.toThread.value, y.toParent);
    }
  }

  lemma UnderCaller(h: History, t: TxnId)
    requires Inv(h) && IsCall(h.s, t) && h.s.txns[t].from.Some?
    ensures var a, p := h.s.txns[t].from.value, h.s.txns[t].fromParent;
      && (p.Some? ==> TakesPart(h.s, a, p.value) && h.pos[p.value].depth < h.pos[t].depth)
      && forall u | TakesPart(h.s, a, u) :: h.pos[u].root == h.pos[t].root
  {
    assert ChainLink(h, t) && TakesPart(h.s, h.s.txns[t].from.value, t);
  }

  lemma UnderServer(h: History, t: TxnId)
    requires Inv(h) && IsCall(h.s, t) && h.s.txns[t].queue.None? && h.s.txns[t].toThread.Some?
    ensures var a, p := h.s.txns[t].toThread.value, h.s.txns[t].toParent;
      && (p.Some? ==> TakesPart(h.s, a, p.value) && h.pos[p.value].depth < h.pos[t].depth)
      && forall u | TakesPart(h.s, a, u) :: h.pos[u].root == h.pos[t].root
  {
    assert ServerLink(h, t) && TakesPart(h.s, h.s.txns[t].toThread.value, t);
  }

  // ---------------------------------------------------------------- every step keeps Good

  lemma CallRemembers(h: History, h': History, th: Tid, target: Pid, t: TxnId)
    requires Inv(h) && Inv(h') && MayCall(h.s, th, target) && h' == HCall(h, th, target)
    requires IsCall(h.s, t) && Remembered(h, t)
    ensures Remembered(h', t)
  {
    RememberedKept(h, h', t);
  }

  lemma CallRemembersNew(h: History, h': History, th: Tid, target: Pid)
    requires Inv(h) && Inv(h') && MayCall(h.s, th, target) && h' == HCall(h, th, target)
    ensures IsCall(h'.s, h.s.next) && Remembered(h', h.s.next)
  {
    InvLinked(h);
    InvLinked(h');
    assert Deepest(h, th, h.s.threads[th].stack);
    WalkSame(h.s.txns, h'.s.txns, th, h.s.threads[th].stack);
  }

  /** Old transactions keep their links when a new one is added. */
  lemma {:induction false} WalkSame(txns: map<TxnId, Txn>, txns': map<TxnId, Txn>, th: Tid, cur: Option<TxnId>)
    requires Linked(txns) && Linked(txns') && (cur.Some? ==> cur.value in txns)
    requires forall t | t in txns :: t in txns' && txns'[t] == txns[t]
    ensures Walk(txns', th, cur) == Walk(txns, th, cur)
    decreases if cur.Some? then cur.value + 1 else 0
  {
    if cur.Some? { WalkSame(txns, txns', th, Below(txns, th, cur.value)); }
  }

  lemma CallGood(h: History, th: Tid, target: Pid)
    requires Good(h) && MayCall(h.s, th, target)
    ensures Good(HCall(h, th, target))
  {
    var h' := HCall(h, th, target);
    CallKeepsInv(h, th, target);
    CallCalls(h, h', th, target);
    CallRemembersNew(h, h', th, target);
    forall t | IsCall(h'.s, t) ensures Remembered(h', t) && Answerable(h', t) {
      if t != h.s.next {
        assert Remembered(h, t) && Answerable(h, t);
        CallRemembers(h, h', th, target, t);
      }
    }
  }

  lemma CallCalls(h: History, h': History, th: Tid, target: Pid)
    requires Inv(h) && MayCall(h.s, th, target) && h' == HCall(h, th, target)
    ensures forall t | IsCall(h'.s, t) && t != h.s.next :: IsCall(h.s, t) && h'.s.txns[t] == h.s.txns[t]
    ensures h.s.next in h'.s.txns && h'.s.txns[h.s.next].queue.Some? && h'.answered == h.answered
  {}

  lemma DeliverRememberedOld(h: History, h': History, th: Tid, t: TxnId, u: TxnId)
    requires Inv(h) && Inv(h') && MayDeliver(h.s, th, t) && IsCall(h.s, t) && h' == HDeliver(h, th, t)
    requires IsCall(h.s, u) && Remembered(h, u) && u != t
    ensures IsCall(h'.s, u) && Remembered(h', u)
  {
    DeliverKeepsBelow(h, h', th, t);
    RememberedKept(h, h', u);
  }

  lemma DeliverKeepsBelow(h: History, h': History, th: Tid, t: TxnId)
    requires th in h.s.threads && IsCall(h.s, t) && h.s.txns[t].queue.Some? && h'.s == Deliver(h.s, th, t)
    ensures forall a, u | TakesPart(h.s, a, u) :: u in h'.s.txns && Below(h'.s.txns, a, u) == Below(h.s.txns, a, u)
  {}

  lemma DeliverWalk(h: History, h': History, a: Tid, cur: Option<TxnId>)
    requires Inv(h) && Linked(h.s.txns) && Linked(h'.s.txns)
    requires cur.Some? ==> TakesPart(h.s, a, cur.value)
    requires forall b, u | TakesPart(h.s, b, u) :: u in h'.s.txns && Below(h'.s.txns, b, u) == Below(h.s.txns, b, u)
    ensures cur.Some? ==> cur.value in h'.s.txns
    ensures Walk(h'.s.txns, a, cur) == Walk(h.s.txns, a, cur)
  {
    WalkKept(h, h', a, cur);
  }

  lemma DeliverRemembers(h: History, h': History, th: Tid, t: TxnId)
    requires Inv(h) && Inv(h') && MayDeliver(h.s, th, t) && IsCall(h.s, t) && Remembered(h, t)
    requires h' == HDeliver(h, th, t)
    ensures IsCall(h'.s, t) && Remembered(h', t)
  {
    InvLinked(h);
    InvLinked(h');
    DeliverOnTop(h, th, t);
    DeliverKeepsBelow(h, h', th, t);
    DeliverWalk(h, h', th, h.s.threads[th].stack);
    var x := h.s.txns[t];
    if x.from.Some? {
      UnderCaller(h, t);
      DeliverWalk(h, h', x.from.value, x.fromParent);
    }
  }

  lemma DeliverCallGood(h: History, h': History, th: Tid, t: TxnId)
    requires Good(h) && MayDeliver(h.s, th, t) && IsCall(h.s, t) && h' == HDeliver(h, th, t) && Inv(h')
    ensures Good(h')
  {
    forall u | IsCall(h'.s, u) ensures Remembered(h', u) && Answerable(h', u) {
      assert IsCall(h.s, u) && Remembered(h, u) && Answerable(h, u);
      if u == t { DeliverRemembers(h, h', th, t); } else { DeliverRememberedOld(h, h', th, t, u); }
    }
  }

  lemma DeliverGood(h: History, th: Tid, t: TxnId)
    requires Good(h) && MayDeliver(h.s, th, t)
    ensures Good(HDeliver(h, th, t))
  {
    var h' := HDeliver(h, th, t);
    DeliverKeepsInv(h, th, t);
    if h.s.txns[t].needReply {
      DeliverCallGood(h, h', th, t);
    } else {
      FreeReplyKeepsInv(h, t);
      SameCallsGood(h, h');
    }
  }

  lemma SameCallsGood(h: History, h': History)
    requires Good(h) && Inv(h')
    requires h'.callerBefore == h.callerBefore && h'.serverBefore == h.serverBefore && h'.answered == h.answered
    requires forall u | IsCall(h.s, u) :: IsCall(h'.s, u)
    requires forall u | IsCall(h'.s, u) :: IsCall(h.s, u) && h'.s.txns[u] == h.s.txns[u]
    ensures Good(h')
  {
    forall u | IsCall(h'.s, u) ensures Remembered(h', u) && Answerable(h', u) {
      assert IsCall(h.s, u) && Remembered(h, u) && Answerable(h, u);
      RememberedKept(h, h', u);
    }
  }

  /** Dropping ends of chains leaves what lies below other calls alone. */
  lemma DropRemembers(h: History, h': History, dropped: set<TxnId>, t: TxnId)
    requires Inv(h) && Inv(h') && Drops(h, h', dropped)
    requires forall u | u in dropped :: IsCall(h.s, u) && Last(h, u)
    requires h'.callerBefore == h.callerBefore && h'.serverBefore == h.serverBefore
    requires IsCall(h.s, t) && IsCall(h'.s, t) && Remembered(h, t)
    ensures Remembered(h', t)
  {
    DropLeavesBelow(h, h', dropped, t);
    RememberedKept(h, h', t);
  }

  lemma DropLeavesBelow(h: History, h': History, dropped: set<TxnId>, t: TxnId)
    requires Placed(h) && Placed(h') && Drops(h, h', dropped) && IsCall(h.s, t)
    requires forall u | u in dropped :: IsCall(h.s, u) && Last(h, u)
    ensures forall a, u | TakesPart(h.s, a, u) && h.pos[u].root == h.pos[t].root && h.pos[u].depth < h.pos[t].depth ::
      u in h'.s.txns && Below(h'.s.txns, a, u) == Below(h.s.txns, a, u)
  {
    forall a, u | TakesPart(h.s, a, u) && h.pos[u].root == h.pos[t].root && h.pos[u].depth < h.pos[t].depth
      ensures u in h'.s.txns && Below(h'.s.txns, a, u) == Below(h.s.txns, a, u)
    {
      NotLast(h, u, t);
      assert IsCall(h'.s, u);
    }
  }

  lemma ReplyGood(h: History, th: Tid)
    requires Good(h) && Serving(h.s, th)
    ensures Good(HReply(h, th))
  {
    var h' := HReply(h, th);
    var t := h.s.threads[th].stack.value;
    ReplyKeepsInv(h, th);
    ReplyDrops(h, th);
    ServedTopIsLast(h, th);
    forall u | IsCall(h'.s, u) ensures Remembered(h', u) && Answerable(h', u) {
      ReplyRemembers(h, h', t, u);
    }
  }

  lemma ReplyRemembers(h: History, h': History, t: TxnId, u: TxnId)
    requires Good(h) && Inv(h') && Drops(h, h', {t}) && IsCall(h'.s, u) && IsCall(h.s, t) && Last(h, t)
    requires h'.callerBefore == h.callerBefore && h'.serverBefore == h.serverBefore && h.answered <= h'.answered
    ensures Remembered(h', u) && Answerable(h', u)
  {
    assert IsCall(h.s, u) && Remembered(h, u) && Answerable(h, u);
    DropRemembers(h, h', {t}, u);
  }

  lemma DetachRemembers(h: History, h': History, gone: set<Tid>, t: TxnId)
    requires Inv(h) && Inv(h') && Detaches(h, h', gone)
    requires h'.callerBefore == h.callerBefore && h'.serverBefore == h.serverBefore
    requires IsCall(h.s, t) && Remembered(h, t)
    ensures IsCall(h'.s, t) && Remembered(h', t)
  {
    forall a, u | TakesPart(h.s, a, u) && a in h'.s.threads
      ensures u in h'.s.txns && Below(h'.s.txns, a, u) == Below(h.s.txns, a, u)
    {
      assert IsCall(h'.s, u);
    }
    RememberedKept(h, h', t);
  }

  lemma ExitGood(h: History, th: Tid)
    requires Good(h) && th in h.s.threads
    ensures Good(HExit(h, th))
  {
    var h' := HExit(h, th);
    var mid := h.(s := Requeued(h.s, th));
    RequeueKeepsInv(h, th);
    ExitKeepsInv(h, th);
    ExitDetaches(h, th);
    forall t | IsCall(h'.s, t) ensures Remembered(h', t) && Answerable(h', t) {
      assert IsCall(h.s, t) && Remembered(h, t) && Answerable(h, t);
      RequeueRemembers(h, mid, th, t);
      DetachRemembers(mid, h', {th}, t);
    }
  }

  lemma RequeueRemembers(h: History, mid: History, th: Tid, t: TxnId)
    requires Inv(h) && Inv(mid) && th in h.s.threads && mid == h.(s := Requeued(h.s, th))
    requires IsCall(h.s, t) && Remembered(h, t)
    ensures IsCall(mid.s, t) && Remembered(mid, t)
  {
    RememberedKept(h, mid, t);
  }

  lemma CloseGood(h: History, p: Pid)
    requires Good(h)
    ensures Good(HClose(h, p))
  {
    var h' := HClose(h, p);
    var mid := h.(s := Emptied(h.s, p));
    CloseDrops(h, p);
    DropKeepsInv(h, mid, DroppedCalls(h.s, p));
    CloseKeepsInv(h, p);
    CloseDetaches(h, p);
    forall t | IsCall(h'.s, t) ensures Remembered(h', t) && Answerable(h', t) {
      assert IsCall(mid.s, t) && IsCall(h.s, t) && Remembered(h, t) && Answerable(h, t);
      DropRemembers(h, mid, DroppedCalls(h.s, p), t);
      DetachRemembers(mid, h', ThreadsOf(h.s, p), t);
    }
  }

  /** A change of a thread's error is invisible to stacks and calls. */
  lemma ErrorGood(h: History, h': History, th: Tid)
    requires Good(h) && th in h.s.threads
    requires exists e :: h' == h.(s := h.s.(threads := h.s.threads[th := h.s.threads[th].(error := e)]))
    ensures Good(h')
  {
    SameCallsSameInv(h, h');
    SameCallsGood(h, h');
  }

  lemma StepGood(h: History, op: Op)
    requires Good(h) && May(h.s, op)
    ensures Good(HStep(h, op))
  {
    match op
    case OpCall(th, target) => CallGood(h, th, target);
    case OpDeliver(th, t) => DeliverGood(h, th, t);
    case OpReply(th) => ReplyGood(h, th);
    case OpFail(th, e) => ErrorGood(h, HStep(h, op), th);
    case OpReadError(th) => ErrorGood(h, HStep(h, op), th);
    case OpExit(th) => ExitGood(h, th);
    case OpClose(p) => CloseGood(h, p);
  }

  lemma StepsToGood(h0: History, op: Op, h: History)
    requires Good(h0) && StepsTo(h0, op, h)
    ensures Good(h)
  {
    StepGood(h0, op);
  }

  /** Every run, of any length, with any exits and closes along the way. */
  lemma {:induction false} EveryRun(hs: seq<History>, ops: seq<Op>, i: nat)
    requires Run(hs, ops) && i <= |ops|
    ensures Good(hs[i])
  {
    if i == 0 {
      IdleGood(hs[0]);
    } else {
      var j := i - 1;
      EveryRun(hs, ops, j);
      StepsToGood(hs[j], ops[j], hs[j + 1]);
      assert hs[i] == hs[j + 1];
    }
  }

  // ---------------------------------------------------------------- the theorems

  /** The stack of a thread, topmost first. */
  ghost function StackOf(h: History, a: Tid): seq<TxnId>
    requires Inv(h) && a in h.s.threads
  {
    InvLinked(h);
    Walk(h.s.txns, a, h.s.threads[a].stack)
  }

  /** A reply goes to the own queue of the thread that made the call, and both stacks are again what
      they were before the call was made and before it was delivered. */
  lemma ReplyReturns(h: History, th: Tid)
    requires Good(h) && Serving(h.s, th)
    requires h.s.txns[h.s.threads[th].stack.value].from.Some?
    ensures var t := h.s.threads[th].stack.value;
      var a := h.s.txns[t].from.value;
      var h' := HReply(h, th);
      && Inv(h') && a in h'.s.threads && th in h'.s.threads && t in h.callerBefore && t in h.serverBefore
      && h.s.next in h'.s.txns && !h'.s.txns[h.s.next].needReply
      && h'.s.txns[h.s.next].queue == Some(ThreadQueue(a))
      && StackOf(h, a) == [t] + h.callerBefore[t] && StackOf(h', a) == h.callerBefore[t]
      && StackOf(h, th) == [t] + h.serverBefore[t] && StackOf(h', th) == h.serverBefore[t]
  {
    var t := h.s.threads[th].stack.value;
    var a := h.s.txns[t].from.value;
    var h' := HReply(h, th);
    ReplyKeepsInv(h, th);
    ReplyDrops(h, th);
    CallerTop(h, th);
    ServedTopIsLast(h, th);
    assert Remembered(h, t);
    InvLinked(h);
    InvLinked(h');
    assert Below(h.s.txns, a, t) == h.s.txns[t].fromParent;
    assert Below(h.s.txns, th, t) == h.s.txns[t].toParent;
    ReplyWalk(h, h', a, t);
    ReplyWalk(h, h', th, t);
  }

  lemma ReplyWalk(h: History, h': History, a: Tid, t: TxnId)
    requires Inv(h) && Linked(h.s.txns) && Linked(h'.s.txns) && Drops(h, h', {t})
    requires a in h.s.threads && h.s.threads[a].stack == Some(t) && IsCall(h.s, t)
    ensures Below(h.s.txns, a, t).Some? ==> Below(h.s.txns, a, t).value in h'.s.txns
    ensures Walk(h'.s.txns, a, Below(h.s.txns, a, t)) == Walk(h.s.txns, a, Below(h.s.txns, a, t))
  {
    DropTop(h, a, t);
    DropKeepsBelow(h, h', a, t);
    WalkKept(h, h', a, Below(h.s.txns, a, t));
  }

  /** No other thread's stack changes. */
  lemma ReplyLeavesOthers(h: History, th: Tid, b: Tid)
    requires Good(h) && Serving(h.s, th) && b in h.s.threads && b != th
    requires h.s.txns[h.s.threads[th].stack.value].from != Some(b)
    ensures var h' := HReply(h, th); Inv(h') && b in h'.s.threads && StackOf(h', b) == StackOf(h, b)
  {
    var t := h.s.threads[th].stack.value;
    var h' := HReply(h, th);
    ReplyKeepsInv(h, th);
    ReplyDrops(h, th);
    ServedTopIsLast(h, th);
    InvLinked(h);
    InvLinked(h');
    OtherWalk(h, h', b, t);
  }

  lemma OtherWalk(h: History, h': History, b: Tid, t: TxnId)
    requires Inv(h) && Linked(h.s.txns) && Linked(h'.s.txns) && Drops(h, h', {t})
    requires b in h.s.threads && !TakesPart(h.s, b, t)
    ensures h.s.threads[b].stack.Some? ==> h.s.threads[b].stack.value in h'.s.txns
    ensures h'.s.threads[b].stack == h.s.threads[b].stack
    ensures Walk(h'.s.txns, b, h.s.threads[b].stack) == Walk(h.s.txns, b, h.s.threads[b].stack)
  {
    assert Deepest(h, b, h.s.threads[b].stack);
    DropKeepsBelow(h, h', b, t);
    WalkKept(h, h', b, h.s.threads[b].stack);
  }

  lemma DropKeepsBelow(h: History, h': History, b: Tid, t: TxnId)
    requires Drops(h, h', {t})
    ensures forall u | TakesPart(h.s, b, u) && u != t ::
      u in h'.s.txns && Below(h'.s.txns, b, u) == Below(h.s.txns, b, u)
  {
    forall u | TakesPart(h.s, b, u) && u != t
      ensures u in h'.s.txns && Below(h'.s.txns, b, u) == Below(h.s.txns, b, u)
    {
      assert IsCall(h'.s, u);
    }
  }

  /** A nested call lands on the thread of the target process that is waiting in the same chain, if
      the chain passes through that process; otherwise any thread of the process may take it. */
  lemma CallbackLands(h: History, th: Tid, target: Pid)
    requires Good(h) && MayCall(h.s, th, target) && Serving(h.s, th)
    ensures var h' := HCall(h, th, target);
      var top := h.s.threads[th].stack.value;
      var queue := h'.s.txns[h.s.next].queue;
      && IsCall(h.s, top)
      && (forall w | IsCall(h.s, w) && h.pos[w].root == h.pos[top].root && h.s.txns[w].from.Some?
            && h.s.threads[h.s.txns[w].from.value].proc == target ::
            queue.Some? && queue.value.ThreadQueue?)
      && (queue.Some? && queue.value.ThreadQueue? ==>
            var x := queue.value.tid;
            && x in h.s.threads && h.s.threads[x].proc == target
            && h.s.threads[x].stack.Some? && IsCall(h.s, h.s.threads[x].stack.value)
            && h.s.txns[h.s.threads[x].stack.value].from == Some(x)
            && h.pos[h.s.threads[x].stack.value].root == h.pos[top].root)
      && (queue == Some(ProcQueue(target)) || (queue.Some? && queue.value.ThreadQueue?))
  {
    InvLinked(h);
    ServedTopIsLast(h, th);
    var top := h.s.threads[th].stack.value;
    var u := TargetThreadIs(h, top, target);
    var tt := TargetThread(h.s, Some(top), target);
    if tt.Some? { NearestIsWaiting(h, th, top, target, u); }
  }

  /** The nearest caller in the target process is waiting for that very call. */
  lemma NearestIsWaiting(h: History, th: Tid, top: TxnId, target: Pid, u: TxnId)
    requires Inv(h) && Serving(h.s, th) && h.s.threads[th].stack == Some(top) && h.s.threads[th].proc != target
    requires IsCall(h.s, top) && Last(h, top) && h.s.txns[top].toThread == Some(th)
    requires IsCall(h.s, u) && h.pos[u].root == h.pos[top].root && h.s.txns[u].from.Some?
    requires h.s.txns[u].from.value in h.s.threads && h.s.threads[h.s.txns[u].from.value].proc == target
    requires forall w | IsCall(h.s, w) && h.pos[w].root == h.pos[top].root && h.s.txns[w].from.Some?
      && h.s.threads[h.s.txns[w].from.value].proc == target :: h.pos[w].depth <= h.pos[u].depth
    ensures h.s.threads[h.s.txns[u].from.value].stack == Some(u)
  {
    var x := h.s.txns[u].from.value;
    var xt := h.s.threads[x].stack;
    assert TakesPart(h.s, x, u);
    assert Deepest(h, x, xt);
    var v := xt.value;
    assert h.pos[v].root == h.pos[u].root;
    if h.s.txns[v].from != Some(x) {
      assert h.s.txns[v].toThread == Some(x);
      assert h.pos[v] != h.pos[top];
      var n := NextInChain(h, v, top);
      assert false;
    }
    assert h.pos[v] == h.pos[u];
  }

  /** Close answers every caller of the process whose call is not stuck on a thread's own queue; in
      particular the caller of every call that is not nested. A call already being served stays on
      its caller's stack. */
  lemma CloseAnswers(h: History, p: Pid, t: TxnId)
    requires Good(h) && IsCall(h.s, t) && h.s.txns[t].toProc == p && h.s.txns[t].from.Some?
    requires t !in h.answered
    ensures var x := h.s.txns[t]; var a := x.from.value; var h' := HClose(h, p);
      && (x.queue.None? || x.queue.value.ProcQueue? ==>
            a in h'.s.threads && h'.s.threads[a].error == Some(DeadReply) && t in h'.answered)
      && (x.fromParent.None? ==> x.queue.None? || x.queue.value.ProcQueue?)
      && (x.queue.None? ==> t in h'.s.txns && h'.s.txns[t].from == Some(a))
  {
    var x := h.s.txns[t];
    assert Answerable(h, t) && Addressed(h, t) && ChainLink(h, t);
    if x.queue.None? {
      assert x.toThread.value in ThreadsOf(h.s, p);
      assert ServedBy(x, ThreadsOf(h.s, p));
    }
  }

  /** The call waits on a thread's own queue: a nested call nobody has taken yet. */
  predicate OnOwnQueue(x: Txn) { x.queue.Some? && x.queue.value.ThreadQueue? }

  /** Close answers an outstanding call to the process if and only if it does not wait on a thread's own queue. */
  lemma CloseAnswersIff(h: History, p: Pid, t: TxnId)
    requires Good(h) && IsCall(h.s, t) && h.s.txns[t].toProc == p && h.s.txns[t].from.Some?
    requires t !in h.answered
    ensures t in HClose(h, p).answered <==> !OnOwnQueue(h.s.txns[t])
  {
    CloseAnswers(h, p, t);
  }

  /** Thread `a` has a call to `p` that waits on the process queue or is being served. */
  ghost predicate CallsOpenly(s: State, a: Tid, p: Pid) {
    exists u :: IsCall(s, u) && s.txns[u].from == Some(a) && s.txns[u].toProc == p && !OnOwnQueue(s.txns[u])
      && (s.txns[u].queue.Some? || s.txns[u].toThread.Some?)
  }

  /** A thread elsewhere has BR_DEAD_REPLY queued after the close if and only if it had before, or some call of its to
      the process is not on a thread's own queue. */
  lemma CloseTellsIff(h: History, p: Pid, a: Tid)
    requires Good(h) && a in h.s.threads && h.s.threads[a].proc != p
    ensures var h' := HClose(h, p);
      && a in h'.s.threads
      && (h'.s.threads[a].error == Some(DeadReply) <==>
            h.s.threads[a].error == Some(DeadReply) || CallsOpenly(h.s, a, p))
  {
    OrphanedIff(h, p, a);
  }

  lemma OrphanedIff(h: History, p: Pid, a: Tid)
    requires Inv(h)
    ensures Orphaned(h.s.txns, a, p, ThreadsOf(h.s, p)) <==> CallsOpenly(h.s, a, p)
  {
    var gone := ThreadsOf(h.s, p);
    if Orphaned(h.s.txns, a, p, gone) {
      var u :| u in h.s.txns && h.s.txns[u].from == Some(a)
        && (ServedBy(h.s.txns[u], gone) || h.s.txns[u].queue == Some(ProcQueue(p)));
      assert IsCall(h.s, u) && Addressed(h, u);
    }
    if CallsOpenly(h.s, a, p) {
      var u :| IsCall(h.s, u) && h.s.txns[u].from == Some(a) && h.s.txns[u].toProc == p && !OnOwnQueue(h.s.txns[u])
        && (h.s.txns[u].queue.Some? || h.s.txns[u].toThread.Some?);
      assert Addressed(h, u);
      if h.s.txns[u].queue.None? { assert ServedBy(h.s.txns[u], gone); }
    }
  }

  /** Whatever its caller is told, a call still queued in the process is gone, and off the top of the caller's stack. */
  lemma ClosePops(h: History, p: Pid, t: TxnId)
    requires Good(h) && IsCall(h.s, t) && h.s.txns[t].toProc == p && h.s.txns[t].from.Some?
    requires h.s.txns[t].queue.Some?
    ensures var a := h.s.txns[t].from.value; var h' := HClose(h, p);
      && t !in h'.s.txns && a in h.s.threads && a in h'.s.threads
      && h.s.threads[a].stack == Some(t) && h'.s.threads[a].stack == h.s.txns[t].fromParent
  {
    assert Addressed(h, t);
    WaitingOnTop(h, t);
    assert Dropped(h.s.txns[t], p, ThreadsOf(h.s, p));
  }
}
