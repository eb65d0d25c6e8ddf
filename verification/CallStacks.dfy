/**
Synchronous calls and the two stacks each of them sits on (kext/binder_txn.c:243-264, 332-344,
374-388, 603-617, kext/binder_proc.c:197-273, 357-389, 852-858).

A thread's `stack` is the driver's transaction_stack pointer; the list itself is threaded through
the transactions, by fromParent on the caller's side and by toParent on the server's side. This
module gives the steps as functions of the linked state; CallInvariant.dfy has the invariant of
every run and CallTheorems.dfy what follows from it.
*/
module CallStacks {
  import opened Common

  type TxnId = nat

  /** struct binder_transaction. `queue` is work.queue; a reply has needReply false and no `from`. */
  datatype Txn = Txn(
    from: Option<Tid>, fromParent: Option<TxnId>,
    toProc: Pid, toThread: Option<Tid>, toParent: Option<TxnId>,
    needReply: bool, queue: Option<Queue>)

  datatype Error = DeadReply | FailedReply

  /** struct binder_thread. `error` is return_error while it is queued on the thread. */
  datatype Thread = Thread(proc: Pid, stack: Option<TxnId>, error: Option<Error>)

  /** Identities are never reused: a thread that exits leaves `threads`, a freed transaction leaves `txns`. */
  datatype State = State(procs: set<Pid>, threads: map<Tid, Thread>, txns: map<TxnId, Txn>, next: TxnId)

  // ---------------------------------------------------------------- links and walks

  /** Parents are older transactions that still exist. */
  ghost predicate Linked(txns: map<TxnId, Txn>) {
    forall t | t in txns ::
      && (txns[t].fromParent.Some? ==> txns[t].fromParent.value < t && txns[t].fromParent.value in txns)
      && (txns[t].toParent.Some? ==> txns[t].toParent.value < t && txns[t].toParent.value in txns)
  }

  /** The transaction under `t` on the stack of thread `th`. */
  function Below(txns: map<TxnId, Txn>, th: Tid, t: TxnId): Option<TxnId>
    requires t in txns
  {
    if txns[t].from == Some(th) then txns[t].fromParent else txns[t].toParent
  }

  /** The stack of `th` from `cur` downwards, topmost first. */
  ghost function Walk(txns: map<TxnId, Txn>, th: Tid, cur: Option<TxnId>): seq<TxnId>
    requires Linked(txns) && (cur.Some? ==> cur.value in txns)
    decreases if cur.Some? then cur.value + 1 else 0
  {
    if cur.None? then [] else [cur.value] + Walk(txns, th, Below(txns, th, cur.value))
  }

  /** binder_target_thread_for: the nearest caller up the chain that belongs to the target process. */
  function TargetThread(s: State, cur: Option<TxnId>, target: Pid): Option<Tid>
    requires Linked(s.txns) && (cur.Some? ==> cur.value in s.txns)
    decreases if cur.Some? then cur.value + 1 else 0
  {
    if cur.None? then None
    else
      var from := s.txns[cur.value].from;
      if from.Some? && from.value in s.threads && s.threads[from.value].proc == target then from
      else TargetThread(s, s.txns[cur.value].fromParent, target)
  }

  // ---------------------------------------------------------------- steps

  /** The thread is working on the transaction on top of its stack, rather than waiting for its own call. */
  predicate Serving(s: State, th: Tid) {
    && th in s.threads && s.threads[th].stack.Some? && s.threads[th].stack.value in s.txns
    && s.txns[s.threads[th].stack.value].from != Some(th)
  }

  function PopIf(threads: map<Tid, Thread>, th: Option<Tid>, t: TxnId, below: Option<TxnId>): map<Tid, Thread> {
    if th.Some? && th.value in threads && threads[th.value].stack == Some(t)
    then threads[th.value := threads[th.value].(stack := below)]
    else threads
  }

  /** binder_free_transaction: off its queue, off the caller's stack, off the server's stack, gone. */
  function FreeTxn(s: State, t: TxnId): State
    requires t in s.txns
  {
    var x := s.txns[t];
    s.(threads := PopIf(PopIf(s.threads, x.from, t, x.fromParent), x.toThread, t, x.toParent),
       txns := s.txns - {t})
  }

  /** A synchronous BC_TRANSACTION that gets as far as being queued. */
  function Call(s: State, th: Tid, target: Pid): State
    requires th in s.threads && Linked(s.txns)
    requires s.threads[th].stack.Some? ==> s.threads[th].stack.value in s.txns
  {
    var top := s.threads[th].stack;
    var tt := TargetThread(s, top, target);
    var queue := if tt.Some? then ThreadQueue(tt.value) else ProcQueue(target);
    s.(txns := s.txns[s.next := Txn(Some(th), top, target, tt, None, true, Some(queue))],
       threads := s.threads[th := s.threads[th].(stack := Some(s.next))],
       next := s.next + 1)
  }

  /** The delivery half of binder_read_transaction: a call goes on the reader's stack, a reply is done with. */
  function Deliver(s: State, th: Tid, t: TxnId): State
    requires th in s.threads && t in s.txns
  {
    if s.txns[t].needReply then
      s.(txns := s.txns[t := s.txns[t].(queue := None, toThread := Some(th), toParent := s.threads[th].stack)],
         threads := s.threads[th := s.threads[th].(stack := Some(t))])
    else FreeTxn(s, t)
  }

  /** BC_REPLY to the transaction on top of the stack, when it gets as far as finding its caller. */
  function Reply(s: State, th: Tid): State
    requires Serving(s, th)
  {
    var t := s.threads[th].stack.value;
    var popped := s.(threads := s.threads[th := s.threads[th].(stack := s.txns[t].toParent)]);
    var to := s.txns[t].from;
    if to.None? || to.value !in s.threads then
      FreeTxn(popped.(threads := popped.threads[th := popped.threads[th].(error := Some(DeadReply))]), t)
    else
      var freed := FreeTxn(popped, t);
      freed.(txns := freed.txns[s.next := Txn(None, None, s.threads[to.value].proc, to, None, false,
                                              Some(ThreadQueue(to.value)))],
             next := s.next + 1)
  }

  /** binder_txn_error: a send that fails leaves only an error for the sender to read. */
  function Fail(s: State, th: Tid, e: Error): State
    requires th in s.threads
  {
    s.(threads := s.threads[th := s.threads[th].(error := Some(e))])
  }

  /** The thread reads its queued error. */
  function ReadError(s: State, th: Tid): State
    requires th in s.threads
  {
    s.(threads := s.threads[th := s.threads[th].(error := None)])
  }

  // ---------------------------------------------------------------- threads and processes going away

  /** A delivered call whose server is among `gone`. */
  predicate ServedBy(x: Txn, gone: set<Tid>) {
    x.needReply && x.queue.None? && x.toThread.Some? && x.toThread.value in gone
  }

  /** What a transaction looks like once the threads in `gone` have left it. */
  function Detached(x: Txn, gone: set<Tid>): Txn {
    x.(from := if x.from.Some? && x.from.value in gone then None else x.from,
       toThread := if ServedBy(x, gone) then None else x.toThread)
  }

  /** Calls of thread `a` that lose their server when `gone` leave. */
  predicate LosesServer(txns: map<TxnId, Txn>, a: Tid, gone: set<Tid>) {
    exists t :: t in txns && txns[t].from == Some(a) && ServedBy(txns[t], gone)
  }

  /** BINDER_THREAD_EXIT: callers it was serving are told, its own calls are detached, and what was
      waiting on its own queue goes back to the process queue. */
  function Exit(s: State, th: Tid): State
    requires th in s.threads
  {
    var gone := {th};
    s.(threads := map a | a in s.threads && a != th ::
         if LosesServer(s.txns, a, gone) then s.threads[a].(error := Some(DeadReply)) else s.threads[a],
       txns := map t | t in s.txns ::
         if s.txns[t].queue == Some(ThreadQueue(th))
         then Detached(s.txns[t], gone).(queue := Some(ProcQueue(s.threads[th].proc)))
         else Detached(s.txns[t], gone))
  }

  /** The threads of a process. */
  function ThreadsOf(s: State, p: Pid): set<Tid> {
    set a | a in s.threads && s.threads[a].proc == p
  }

  /** Undelivered in a process that is closing. */
  predicate Dropped(x: Txn, p: Pid, gone: set<Tid>) {
    x.queue.Some? && match x.queue.value { case ProcQueue(q) => q == p case ThreadQueue(a) => a in gone }
  }

  /** The caller of a dropped transaction has it on top of its stack and loses it. */
  function StackWithout(s: State, a: Tid, p: Pid, gone: set<Tid>): Option<TxnId>
    requires a in s.threads
  {
    var top := s.threads[a].stack;
    if top.Some? && top.value in s.txns && Dropped(s.txns[top.value], p, gone) && s.txns[top.value].from == Some(a)
    then s.txns[top.value].fromParent else top
  }

  /** A caller of `p` that close answers: its call is on the process queue or on a server's stack. */
  predicate Orphaned(txns: map<TxnId, Txn>, a: Tid, p: Pid, gone: set<Tid>) {
    || LosesServer(txns, a, gone)
    || exists t :: t in txns && txns[t].from == Some(a) && txns[t].queue == Some(ProcQueue(p))
  }

  /** binder_proc_release, as far as transactions and threads go. */
  function Close(s: State, p: Pid): State {
    var gone := ThreadsOf(s, p);
    State(s.procs - {p},
      map a | a in s.threads && a !in gone ::
        s.threads[a].(stack := StackWithout(s, a, p, gone),
                      error := if Orphaned(s.txns, a, p, gone) then Some(DeadReply) else s.threads[a].error),
      map t | t in s.txns && !Dropped(s.txns[t], p, gone) :: Detached(s.txns[t], gone),
      s.next)
  }
}
