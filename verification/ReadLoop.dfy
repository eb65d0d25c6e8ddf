/**
The read loop (kext/binder_proc.c:862-1036): work is taken from the thread's own queue, else from the
process's, turned into commands in the client's buffer, and put back in front when it does not fit. One
call here is one stretch of the loop up to its return or to the point where it would sleep.
*/
module ReadLoop {
  import opened Common
  import opened Reconcile

  /** The commands that reconcile a node; there are never more than two. */
  type Cmds = cs: seq<Cmd> | |cs| <= 2

  /** Queued work. `buffer` says whether a transaction still has its payload, `owes` whether reading it puts
      it on the reader's stack to be answered; a node comes with the commands that reconcile it. */
  datatype Job =
    | Txn(id: nat, buffer: bool, owes: bool)
    | Complete
    | Error(code: nat)
    | News(node: nat, cmds: Cmds)
    | Dead(cookie: U64)
    | DeadAndClear(cookie: U64)
    | Clear(cookie: U64)

  datatype Event =
    | Noop
    | Transaction(id: nat)
    | TransactionComplete
    | ErrorCode(code: nat)
    | NodeRef(node: nat, cmd: Cmd)
    | DeadBinder(cookie: U64)
    | ClearDone(cookie: U64)
    | SpawnLooper

  const CMD_SIZE := 4
  const COOKIE_CMD_SIZE := 12
  const TXN_CMD_SIZE := 68

  function EventSize(e: Event): nat {
    match e
    case Transaction(_) => TXN_CMD_SIZE
    case NodeRef(_, _) => NODE_CMD_SIZE
    case DeadBinder(_) => COOKIE_CMD_SIZE
    case ClearDone(_) => COOKIE_CMD_SIZE
    case _ => CMD_SIZE
  }

  function Bytes(out: seq<Event>): nat {
    if out == [] then 0 else EventSize(out[0]) + Bytes(out[1..])
  }

  function NodeRefs(n: nat, cmds: seq<Cmd>): seq<Event> {
    if cmds == [] then [] else [NodeRef(n, cmds[0])] + NodeRefs(n, cmds[1..])
  }

  /** What reading an item emits. */
  function Emits(w: Job): seq<Event> {
    match w
    case Txn(id, buffer, _) => if buffer then [Transaction(id)] else []
    case Complete => [TransactionComplete]
    case Error(code) => [ErrorCode(code)]
    case News(n, cmds) => NodeRefs(n, cmds)
    case Dead(c) => [DeadBinder(c)]
    case DeadAndClear(c) => [DeadBinder(c)]
    case Clear(c) => [ClearDone(c)]
  }

  /** What it leaves behind on the reader's own queue. */
  function Leaves(w: Job): seq<Job> { if w.DeadAndClear? then [Clear(w.cookie)] else [] }

  predicate Owes(w: Job) { w.Txn? && w.buffer && w.owes }

  /** The room an item needs. */
  function Cost(w: Job): nat {
    match w
    case Txn(_, _, _) => TXN_CMD_SIZE
    case Complete => CMD_SIZE
    case Error(_) => CMD_SIZE
    case News(_, cmds) => |cmds| * NODE_CMD_SIZE
    case _ => COOKIE_CMD_SIZE
  }

  // ---------------------------------------------------------------- what a queue stands for

  /** The passes an item is good for: a death whose clear is pending comes round twice. */
  function Weight(q: seq<Job>): nat {
    if q == [] then 0 else (if q[0].DeadAndClear? then 2 else 1) + Weight(q[1..])
  }

  lemma {:induction false} WeightConcat(a: seq<Job>, b: seq<Job>)
    ensures Weight(a + b) == Weight(a) + Weight(b)
    decreases |a|
  {
    if a == [] {
      assert a + b == b;
    } else {
      assert (a + b)[1..] == a[1..] + b;
      WeightConcat(a[1..], b);
    }
  }

  /** Everything a queue will emit in the end, in whatever order. */
  function Owed(q: seq<Job>): multiset<Event> {
    if q == [] then multiset{} else OwedBy(q[0]) + Owed(q[1..])
  }

  function OwedBy(w: Job): multiset<Event> {
    multiset(Emits(w)) + (if w.DeadAndClear? then multiset{ClearDone(w.cookie)} else multiset{})
  }

  lemma {:induction false} OwedConcat(a: seq<Job>, b: seq<Job>)
    ensures Owed(a + b) == Owed(a) + Owed(b)
    decreases |a|
  {
    if a == [] {
      assert a + b == b;
    } else {
      assert (a + b)[1..] == a[1..] + b;
      OwedConcat(a[1..], b);
    }
  }

  /** An item taken out of the middle of a queue. */
  function Removed(q: seq<Job>, i: nat): seq<Job>
    requires i < |q|
  {
    q[..i] + q[i + 1..]
  }

  lemma OwedWithout(q: seq<Job>, i: nat)
    requires i < |q|
    ensures Owed(q) == OwedBy(q[i]) + Owed(Removed(q, i))
    ensures Weight(q) == Weight([q[i]]) + Weight(Removed(q, i))
  {
    Cut(q, i);
    OwedMiddle(q[..i], q[i], q[i + 1..]);
    WeightMiddle(q[..i], q[i], q[i + 1..]);
  }

  lemma Cut(q: seq<Job>, i: nat)
    requires i < |q|
    ensures q == q[..i] + ([q[i]] + q[i + 1..])
  {}

  lemma WeightMiddle(a: seq<Job>, x: Job, b: seq<Job>)
    ensures Weight(a + ([x] + b)) == Weight([x]) + Weight(a + b)
  {
    WeightConcat(a, [x] + b);
    OwedCons(x, b);
    WeightConcat(a, b);
  }

  lemma OwedMiddle(a: seq<Job>, x: Job, b: seq<Job>)
    ensures Owed(a + ([x] + b)) == OwedBy(x) + Owed(a + b)
  {
    OwedConcat(a, [x] + b);
    OwedCons(x, b);
    OwedConcat(a, b);
  }

  lemma OwedCons(x: Job, q: seq<Job>)
    ensures Owed([x] + q) == OwedBy(x) + Owed(q) && Weight([x] + q) == Weight([x]) + Weight(q)
  {
    assert ([x] + q)[1..] == q && [x][1..] == [];
  }

  lemma LeavesWeight(w: Job)
    ensures Weight(Leaves(w)) < Weight([w])
    ensures OwedBy(w) == multiset(Emits(w)) + Owed(Leaves(w))
  {}

  /** What an unfrozen reader with all the room in the world would read: its own queue first, then its
      process's for as long as it owes nobody an answer. */
  ghost function Stream(todo: seq<Job>, proc: seq<Job>, busy: bool, looper: bool): seq<Event>
    decreases Weight(todo) + Weight(proc)
  {
    if todo != [] then
      LeavesWeight(todo[0]);
      WeightConcat(todo[1..], Leaves(todo[0]));
      Emits(todo[0]) + Stream(todo[1..] + Leaves(todo[0]), proc, busy || Owes(todo[0]), looper)
    else if !busy && looper && proc != [] then
      LeavesWeight(proc[0]);
      Emits(proc[0]) + Stream(Leaves(proc[0]), proc[1..], busy || Owes(proc[0]), looper)
    else []
  }

  /** The commands that stand for work. */
  function WorkOf(out: seq<Event>): seq<Event> {
    if out == [] then []
    else (if out[0].Noop? || out[0].SpawnLooper? then [] else [out[0]]) + WorkOf(out[1..])
  }

  lemma {:induction false} WorkConcat(a: seq<Event>, b: seq<Event>)
    ensures WorkOf(a + b) == WorkOf(a) + WorkOf(b) && Bytes(a + b) == Bytes(a) + Bytes(b)
    decreases |a|
  {
    if a == [] {
      assert a + b == b;
    } else {
      assert (a + b)[1..] == a[1..] + b;
      WorkConcat(a[1..], b);
    }
  }

  lemma {:induction false} NodeRefsIs(n: nat, cmds: seq<Cmd>)
    ensures WorkOf(NodeRefs(n, cmds)) == NodeRefs(n, cmds) && Bytes(NodeRefs(n, cmds)) == |cmds| * NODE_CMD_SIZE
    decreases |cmds|
  {
    if cmds != [] {
      NodeRefsIs(n, cmds[1..]);
      assert NodeRefs(n, cmds)[1..] == NodeRefs(n, cmds[1..]);
    }
  }

  /** All an item emits is work, and it takes the room it was costed at. */
  lemma EmitsIs(w: Job)
    ensures WorkOf(Emits(w)) == Emits(w)
    ensures !(w.Txn? && !w.buffer) ==> Bytes(Emits(w)) == Cost(w)
  {
    match w
    case News(n, cmds) => NodeRefsIs(n, cmds);
    case Txn(id, buffer, _) => if buffer { assert [Transaction(id)][1..] == []; }
    case Complete => assert [TransactionComplete][1..] == [];
    case Error(code) => assert [ErrorCode(code)][1..] == [];
    case Dead(c) => assert [DeadBinder(c)][1..] == [];
    case DeadAndClear(c) => assert [DeadBinder(c)][1..] == [];
    case Clear(c) => assert [ClearDone(c)][1..] == [];
  }

  // ---------------------------------------------------------------- one pass

  /** The reader's queue and its process's, whether it owes an answer, and whether it has joined the pool. */
  datatype View = View(todo: seq<Job>, proc: seq<Job>, busy: bool, looper: bool)

  ghost function StreamOf(v: View): seq<Event> { Stream(v.todo, v.proc, v.busy, v.looper) }

  function OwedIn(v: View): multiset<Event> { Owed(v.todo) + Owed(v.proc) }

  function WeightIn(v: View): nat { Weight(v.todo) + Weight(v.proc) }

  predicate Eligible(w: Job, frozen: bool) { !w.Txn? || !frozen }

  /** The first item a reader may take; the length of the queue if there is none. */
  function FirstOf(q: seq<Job>, frozen: bool): (i: nat)
    ensures i <= |q| && (i < |q| ==> Eligible(q[i], frozen)) && forall j | 0 <= j < i :: !Eligible(q[j], frozen)
  {
    if q == [] || Eligible(q[0], frozen) then 0 else 1 + FirstOf(q[1..], frozen)
  }

  /** binder_thread_takes_proc_work. */
  predicate TakesProcWork(v: View) { !v.busy && v.todo == [] && v.looper }

  /** Whether a pass finds anything, and where. */
  predicate FindsOwn(v: View, frozen: bool) { v.todo != [] && FirstOf(v.todo, frozen) < |v.todo| }

  predicate FindsProc(v: View, frozen: bool) { TakesProcWork(v) && FirstOf(v.proc, frozen) < |v.proc| }

  predicate Idle(v: View, frozen: bool) { !FindsOwn(v, frozen) && !FindsProc(v, frozen) }

  function Chosen(v: View, frozen: bool): Job
    requires !Idle(v, frozen)
  {
    if FindsOwn(v, frozen) then v.todo[FirstOf(v.todo, frozen)] else v.proc[FirstOf(v.proc, frozen)]
  }

  function Taken(v: View, frozen: bool): View
    requires !Idle(v, frozen)
  {
    if FindsOwn(v, frozen) then v.(todo := Removed(v.todo, FirstOf(v.todo, frozen)))
    else v.(proc := Removed(v.proc, FirstOf(v.proc, frozen)))
  }

  function PutBack(v: View, w: Job, own: bool): View {
    if own then v.(todo := [w] + v.todo) else v.(proc := [w] + v.proc)
  }

  /** The item is read: the reader may now owe an answer, or a clear. */
  function After(v: View, w: Job): View {
    v.(todo := v.todo + Leaves(w), busy := v.busy || Owes(w))
  }

  /** What a pass emits and what is left owing is what was owed, and there is less to pass over. */
  lemma PassConserves(v: View, frozen: bool)
    requires !Idle(v, frozen)
    ensures var w, t := Chosen(v, frozen), Taken(v, frozen);
      && OwedIn(v) == multiset(Emits(w)) + OwedIn(After(t, w))
      && WeightIn(After(t, w)) < WeightIn(v)
      && OwedIn(PutBack(t, w, FindsOwn(v, frozen))) == OwedIn(v)
  {
    var w, t := Chosen(v, frozen), Taken(v, frozen);
    LeavesWeight(w);
    OwedConcat(t.todo, Leaves(w));
    WeightConcat(t.todo, Leaves(w));
    if FindsOwn(v, frozen) {
      OwedWithout(v.todo, FirstOf(v.todo, frozen));
      assert ([w] + t.todo)[1..] == t.todo;
    } else {
      OwedWithout(v.proc, FirstOf(v.proc, frozen));
      assert ([w] + t.proc)[1..] == t.proc;
    }
  }

  /** An unfrozen reader takes the first item, emits what the stream has next, and puts back in place. */
  lemma PassInOrder(v: View)
    requires !Idle(v, false)
    ensures var w, t := Chosen(v, false), Taken(v, false);
      StreamOf(v) == Emits(w) + StreamOf(After(t, w)) && PutBack(t, w, FindsOwn(v, false)) == v
  {
    var w, t := Chosen(v, false), Taken(v, false);
    if FindsOwn(v, false) {
      assert t.todo == v.todo[1..] && [w] + v.todo[1..] == v.todo;
    } else {
      assert t.proc == v.proc[1..] && [w] + v.proc[1..] == v.proc;
      assert t.todo + Leaves(w) == Leaves(w);
    }
  }

  lemma Silence(out: seq<Event>)
    requires out == [] || out == [Noop] || out == [SpawnLooper]
    ensures WorkOf(out) == [] && Bytes(out) == |out| * CMD_SIZE
  {
    if out != [] { assert out[1..] == []; }
  }

  lemma Extend(out: seq<Event>, more: seq<Event>)
    ensures WorkOf(out + more) == WorkOf(out) + WorkOf(more)
    ensures Bytes(out + more) == Bytes(out) + Bytes(more)
  {
    WorkConcat(out, more);
  }

  /** What is to come: everything owed, and the stream of an unfrozen reader. */
  datatype Outlook = Outlook(owed: multiset<Event>, stream: seq<Event>)

  ghost function Look(v: View): Outlook { Outlook(OwedIn(v), StreamOf(v)) }

  /** Between two moments `work` was emitted: what was owed is emitted or owed still, and an unfrozen reader
      has emitted the front of its stream. */
  ghost predicate Accounts(o: Outlook, o': Outlook, work: seq<Event>, frozen: bool) {
    o.owed == multiset(work) + o'.owed && (frozen || o.stream == work + o'.stream)
  }

  lemma AccountsNothing(o: Outlook, frozen: bool)
    ensures Accounts(o, o, [], frozen)
  {
    assert [] + o.stream == o.stream;
  }

  lemma AccountsTrans(o0: Outlook, o1: Outlook, o2: Outlook, a: seq<Event>, b: seq<Event>, frozen: bool)
    requires Accounts(o0, o1, a, frozen) && Accounts(o1, o2, b, frozen)
    ensures Accounts(o0, o2, a + b, frozen)
  {
    assert multiset(a + b) == multiset(a) + multiset(b);
    assert a + (b + o2.stream) == a + b + o2.stream;
  }

  lemma SpawnBytes(out: seq<Event>, more: seq<Event>)
    requires more == [] || more == [SpawnLooper]
    ensures Bytes(out + more) == Bytes(out) + |more| * CMD_SIZE && (more == [] ==> out + more == out)
  {
    Extend(out, more);
    Silence(more);
  }

  lemma NoopQuiet(out: seq<Event>)
    ensures WorkOf([Noop] + out) == WorkOf(out) && Bytes([Noop] + out) == CMD_SIZE + Bytes(out)
  {
    Extend([Noop], out);
    Silence([Noop]);
  }

  /** How one pass ends: nothing to take, no room for it, a bad transaction, or something read. */
  datatype Turn = Nothing | Stuck | Refused | Went

  /** A pass with `room` bytes left: what it does with the item it finds, and what it emits. */
  ghost predicate Turned(v: View, v': View, frozen: bool, room: nat, turn: Turn, out: seq<Event>) {
    if Idle(v, frozen) then turn == Nothing && v' == v && out == []
    else
      var w, t := Chosen(v, frozen), Taken(v, frozen);
      if w.Txn? && !w.buffer then turn == Refused && v' == t && out == []
      else if room < Cost(w) then turn == Stuck && v' == PutBack(t, w, FindsOwn(v, frozen)) && out == []
      else turn == Went && v' == After(t, w) && out == Emits(w)
  }

  /** However it ends, a pass accounts for its item, and something read leaves less to read. */
  lemma TurnAccounts(v: View, v': View, frozen: bool, room: nat, turn: Turn, out: seq<Event>)
    requires Turned(v, v', frozen, room, turn, out)
    ensures Accounts(Look(v), Look(v'), out, frozen) && WorkOf(out) == out && Bytes(out) <= room
    ensures turn == Went ==> WeightIn(v') < WeightIn(v)
    ensures turn == Stuck ==> room < TXN_CMD_SIZE
  {
    AccountsNothing(Look(v), frozen);
    if !Idle(v, frozen) {
      var w := Chosen(v, frozen);
      EmitsIs(w);
      PassConserves(v, frozen);
      if !frozen { PassInOrder(v); }
      if w.Txn? && !w.buffer { BadLeavesNothing(Taken(v, frozen), w); }
    }
  }

  lemma TurnBounds(v: View, v': View, frozen: bool, room: nat, turn: Turn, out: seq<Event>)
    requires Turned(v, v', frozen, room, turn, out)
    ensures Bytes(out) <= room && (turn == Went ==> WeightIn(v') < WeightIn(v)) && (turn == Stuck ==> room < TXN_CMD_SIZE)
  {
    TurnAccounts(v, v', frozen, room, turn, out);
  }

  /** Passes that each read something: the states between them, and what each emitted. */
  ghost predicate Passes(vs: seq<View>, outs: seq<seq<Event>>, frozen: bool) {
    |vs| == |outs| + 1 && forall i | 0 <= i < |outs| :: ReadOne(vs[i], vs[i + 1], outs[i], frozen)
  }

  ghost predicate ReadOne(v: View, v': View, out: seq<Event>, frozen: bool) {
    && !Idle(v, frozen) && v' == After(Taken(v, frozen), Chosen(v, frozen))
    && (out == Emits(Chosen(v, frozen)) || out == Emits(Chosen(v, frozen)) + [SpawnLooper])
  }

  function Flat(outs: seq<seq<Event>>): seq<Event> {
    if outs == [] then [] else Flat(outs[..|outs| - 1]) + outs[|outs| - 1]
  }

  lemma FlatNext(outs: seq<seq<Event>>, out: seq<Event>)
    ensures Flat(outs + [out]) == Flat(outs) + out
  {
    assert (outs + [out])[..|outs|] == outs;
  }

  lemma PassesNext(vs: seq<View>, outs: seq<seq<Event>>, v: View, out: seq<Event>, frozen: bool)
    requires Passes(vs, outs, frozen) && ReadOne(vs[|vs| - 1], v, out, frozen)
    ensures Passes(vs + [v], outs + [out], frozen)
  {}

  lemma ReadOneAccounts(v: View, v': View, out: seq<Event>, frozen: bool)
    requires ReadOne(v, v', out, frozen)
    ensures Accounts(Look(v), Look(v'), WorkOf(out), frozen)
  {
    var w := Chosen(v, frozen);
    EmitsIs(w);
    Extend(Emits(w), [SpawnLooper]);
    Silence([SpawnLooper]);
    assert Emits(w) + [] == Emits(w);
    PassConserves(v, frozen);
    if !frozen { PassInOrder(v); }
  }

  /** However many passes there are, all that was owed is accounted for. */
  lemma {:induction false} PassesAccount(vs: seq<View>, outs: seq<seq<Event>>, frozen: bool)
    requires Passes(vs, outs, frozen)
    ensures Accounts(Look(vs[0]), Look(vs[|vs| - 1]), WorkOf(Flat(outs)), frozen)
    decreases |outs|
  {
    var k := |outs|;
    if k == 0 {
      AccountsNothing(Look(vs[0]), frozen);
    } else {
      PassesAccount(vs[..k], outs[..k - 1], frozen);
      ReadOneAccounts(vs[k - 1], vs[k], outs[k - 1], frozen);
      Extend(Flat(outs[..k - 1]), outs[k - 1]);
      AccountsTrans(Look(vs[0]), Look(vs[k - 1]), Look(vs[k]), WorkOf(Flat(outs[..k - 1])), WorkOf(outs[k - 1]), frozen);
    }
  }

  /** Passes that read something, then one that does not. */
  lemma LoopAccounts(vs: seq<View>, outs: seq<seq<Event>>, v': View, room: nat, turn: Turn, frozen: bool)
    requires Passes(vs, outs, frozen) && (Turned(vs[|vs| - 1], v', frozen, room, turn, []) || v' == vs[|vs| - 1])
    ensures Accounts(Look(vs[0]), Look(v'), WorkOf(Flat(outs)), frozen)
  {
    var v := vs[|vs| - 1];
    PassesAccount(vs, outs, frozen);
    if v' != v {
      TurnAccounts(v, v', frozen, room, turn, []);
      AccountsTrans(Look(vs[0]), Look(v), Look(v'), WorkOf(Flat(outs)), [], frozen);
      assert WorkOf(Flat(outs)) + [] == WorkOf(Flat(outs));
    }
  }

  /** A transaction without a payload is dropped without a trace. */
  lemma BadLeavesNothing(v: View, w: Job)
    requires w.Txn? && !w.buffer
    ensures After(v, w) == v && Emits(w) == []
  {
    assert v.todo + [] == v.todo;
  }

  // ---------------------------------------------------------------- kind by kind

  /** The commands that are an answer to queued work. */
  predicate IsWork(e: Event) { !e.Noop? && !e.SpawnLooper? }

  /** How many commands of this kind a queued item is still to be read as. A death whose clear is pending is read as a
      death and then as a clear. */
  function StandsFor(w: Job, e: Event): nat {
    match e
    case Transaction(id) => if w.Txn? && w.buffer && w.id == id then 1 else 0
    case TransactionComplete => if w.Complete? then 1 else 0
    case ErrorCode(code) => if w == Error(code) then 1 else 0
    case NodeRef(n, cmd) => if w.News? && w.node == n then multiset(w.cmds)[cmd] else 0
    case DeadBinder(c) => if w == Dead(c) || w == DeadAndClear(c) then 1 else 0
    case ClearDone(c) => if w == Clear(c) || w == DeadAndClear(c) then 1 else 0
    case _ => 0
  }

  function StandsIn(q: seq<Job>, e: Event): nat {
    if q == [] then 0 else StandsFor(q[0], e) + StandsIn(q[1..], e)
  }

  function Stands(v: View, e: Event): nat { StandsIn(v.todo, e) + StandsIn(v.proc, e) }

  lemma {:induction false} NodeRefsCount(n: nat, cmds: seq<Cmd>, e: Event)
    ensures multiset(NodeRefs(n, cmds))[e] == if e.NodeRef? && e.node == n then multiset(cmds)[e.cmd] else 0
    decreases |cmds|
  {
    if cmds != [] {
      NodeRefsCount(n, cmds[1..], e);
      assert cmds == [cmds[0]] + cmds[1..];
    }
  }

  lemma OwedByStands(w: Job, e: Event)
    requires IsWork(e)
    ensures OwedBy(w)[e] == StandsFor(w, e)
  {
    if w.News? { NodeRefsCount(w.node, w.cmds, e); }
  }

  lemma {:induction false} OwedStands(q: seq<Job>, e: Event)
    requires IsWork(e)
    ensures Owed(q)[e] == StandsIn(q, e)
    decreases |q|
  {
    if q != [] {
      OwedByStands(q[0], e);
      OwedStands(q[1..], e);
    }
  }

  lemma {:induction false} WorkCount(out: seq<Event>, e: Event)
    requires IsWork(e)
    ensures multiset(WorkOf(out))[e] == multiset(out)[e]
    decreases |out|
  {
    if out != [] {
      WorkCount(out[1..], e);
      assert out == [out[0]] + out[1..];
    }
  }

  /** Between two moments, of each kind as many commands were emitted as there are fewer items standing for it. */
  lemma KindConserved(v: View, v': View, out: seq<Event>, e: Event)
    requires OwedIn(v) == multiset(WorkOf(out)) + OwedIn(v') && IsWork(e)
    ensures Stands(v, e) == multiset(out)[e] + Stands(v', e)
  {
    OwedStands(v.todo, e);
    OwedStands(v.proc, e);
    OwedStands(v'.todo, e);
    OwedStands(v'.proc, e);
    WorkCount(out, e);
    assert OwedIn(v)[e] == multiset(WorkOf(out))[e] + OwedIn(v')[e];
    assert OwedIn(v)[e] == Owed(v.todo)[e] + Owed(v.proc)[e];
    assert OwedIn(v')[e] == Owed(v'.todo)[e] + Owed(v'.proc)[e];
  }

  lemma EachKind(v: View, v': View, out: seq<Event>)
    requires OwedIn(v) == multiset(WorkOf(out)) + OwedIn(v')
    ensures forall e: Event | IsWork(e) :: Stands(v, e) == multiset(out)[e] + Stands(v', e)
  {
    forall e: Event | IsWork(e) ensures Stands(v, e) == multiset(out)[e] + Stands(v', e) {
      KindConserved(v, v', out, e);
    }
  }

  // ---------------------------------------------------------------- who may read what

  /** The calls on a queue that can be given to a reader and ask for an answer. */
  function CallsIn(q: seq<Job>): nat {
    if q == [] then 0 else (if q[0].Txn? && q[0].buffer && q[0].owes then 1 else 0) + CallsIn(q[1..])
  }

  function Calls(v: View): nat { CallsIn(v.todo) + CallsIn(v.proc) }

  lemma {:induction false} CallsConcat(a: seq<Job>, b: seq<Job>)
    ensures CallsIn(a + b) == CallsIn(a) + CallsIn(b)
    decreases |a|
  {
    if a == [] {
      assert a + b == b;
    } else {
      assert (a + b)[1..] == a[1..] + b;
      CallsConcat(a[1..], b);
    }
  }

  lemma CallsWithout(q: seq<Job>, i: nat)
    requires i < |q|
    ensures CallsIn(q) == CallsIn([q[i]]) + CallsIn(Removed(q, i))
  {
    Cut(q, i);
    CallsMiddle(q[..i], q[i], q[i + 1..]);
  }

  lemma CallsMiddle(a: seq<Job>, x: Job, b: seq<Job>)
    ensures CallsIn(a + ([x] + b)) == CallsIn([x]) + CallsIn(a + b)
  {
    CallsConcat(a, [x] + b);
    CallsConcat([x], b);
    CallsConcat(a, b);
  }

  /** Taking an item takes its call, and putting it back gives the call back. */
  lemma CallsTaken(v: View, frozen: bool)
    requires !Idle(v, frozen)
    ensures var w, t := Chosen(v, frozen), Taken(v, frozen);
      && Calls(v) == CallsIn([w]) + Calls(t) && Calls(PutBack(t, w, FindsOwn(v, frozen))) == Calls(v)
      && Calls(After(t, w)) == Calls(t)
  {
    var w, t := Chosen(v, frozen), Taken(v, frozen);
    CallsConcat(t.todo, Leaves(w));
    CallsConcat([w], t.todo);
    CallsConcat([w], t.proc);
    if FindsOwn(v, frozen) {
      CallsWithout(v.todo, FirstOf(v.todo, frozen));
    } else {
      CallsWithout(v.proc, FirstOf(v.proc, frozen));
    }
  }

  /** A reader that is frozen is given no transaction; one that owes an answer or has not joined the pool takes nothing
      of its process's; and a reader comes to owe an answer by being given a call, and in no other way. */
  ghost predicate Allowed(v: View, v': View, out: seq<Event>, frozen: bool) {
    && (frozen ==> forall e | e in out :: !e.Transaction?)
    && v'.looper == v.looper && (v.busy ==> v'.busy)
    && (v.busy || !v.looper ==> v'.proc == v.proc)
    && (v'.busy && !v.busy ==> exists e :: e in out && e.Transaction?)
    && Calls(v') <= Calls(v) && (v'.busy <==> v.busy || Calls(v') < Calls(v))
  }

  lemma AllowedNothing(v: View, frozen: bool)
    ensures Allowed(v, v, [], frozen)
  {}

  lemma AllowedBoth(v: View, v1: View, v2: View, a: seq<Event>, b: seq<Event>, frozen: bool)
    requires Allowed(v, v1, a, frozen) && Allowed(v1, v2, b, frozen)
    ensures Allowed(v, v2, a + b, frozen)
  {
    if v2.busy && !v.busy {
      if v1.busy {
        var e :| e in a && e.Transaction?;
        assert e in a + b;
      } else {
        var e :| e in b && e.Transaction?;
        assert e in a + b;
      }
    }
  }

  lemma NoopAllowed(v: View, v': View, out: seq<Event>, frozen: bool)
    requires Allowed(v, v', out, frozen)
    ensures Allowed(v, v', [Noop] + out, frozen)
  {
    AllowedNothing(v, frozen);
    assert Allowed(v, v, [Noop], frozen);
    AllowedBoth(v, v, v', [Noop], out, frozen);
  }

  lemma {:induction false} NoTransactions(n: nat, cmds: seq<Cmd>)
    ensures forall e | e in NodeRefs(n, cmds) :: e.NodeRef?
    decreases |cmds|
  {
    if cmds != [] { NoTransactions(n, cmds[1..]); }
  }

  lemma ReadOneAllowed(v: View, v': View, out: seq<Event>, frozen: bool)
    requires ReadOne(v, v', out, frozen)
    ensures Allowed(v, v', out, frozen)
  {
    var w := Chosen(v, frozen);
    if w.News? { NoTransactions(w.node, w.cmds); }
    CallsTaken(v, frozen);
    if Owes(w) { assert Transaction(w.id) in Emits(w) && Transaction(w.id) in out; }
  }

  lemma {:induction false} PassesAllowed(vs: seq<View>, outs: seq<seq<Event>>, frozen: bool)
    requires Passes(vs, outs, frozen)
    ensures Allowed(vs[0], vs[|vs| - 1], Flat(outs), frozen)
    decreases |outs|
  {
    var k := |outs|;
    if k > 0 {
      PassesAllowed(vs[..k], outs[..k - 1], frozen);
      ReadOneAllowed(vs[k - 1], vs[k], outs[k - 1], frozen);
      AllowedBoth(vs[0], vs[k - 1], vs[k], Flat(outs[..k - 1]), outs[k - 1], frozen);
    }
  }

  lemma LoopAllowed(vs: seq<View>, outs: seq<seq<Event>>, v': View, room: nat, turn: Turn, frozen: bool)
    requires Passes(vs, outs, frozen) && (Turned(vs[|vs| - 1], v', frozen, room, turn, []) || v' == vs[|vs| - 1])
    ensures Allowed(vs[0], v', Flat(outs), frozen)
  {
    PassesAllowed(vs, outs, frozen);
    TurnAllowed(vs[|vs| - 1], v', room, turn, frozen);
    AllowedBoth(vs[0], vs[|vs| - 1], v', Flat(outs), [], frozen);
    assert Flat(outs) + [] == Flat(outs);
  }

  /** A turn that emits nothing changes nothing of this. */
  lemma TurnAllowed(v: View, v': View, room: nat, turn: Turn, frozen: bool)
    requires Turned(v, v', frozen, room, turn, []) || v' == v
    ensures Allowed(v, v', [], frozen)
  {
    if !Idle(v, frozen) {
      var w := Chosen(v, frozen);
      CallsTaken(v, frozen);
      if Owes(w) { assert Emits(w) == [Transaction(w.id)]; }
    }
  }

  /** What a whole read comes to, with the BR_NOOP it may begin with. */
  lemma LoopComesTo(vs: seq<View>, outs: seq<seq<Event>>, v': View, room: nat, turn: Turn, frozen: bool, noop: bool)
    requires Passes(vs, outs, frozen) && (Turned(vs[|vs| - 1], v', frozen, room, turn, []) || v' == vs[|vs| - 1])
    ensures var out := if noop then [Noop] + Flat(outs) else Flat(outs);
      && Accounts(Look(vs[0]), Look(v'), WorkOf(out), frozen) && Allowed(vs[0], v', out, frozen)
      && Bytes(out) == (if noop then CMD_SIZE else 0) + Bytes(Flat(outs))
      && forall e: Event | IsWork(e) :: Stands(vs[0], e) == multiset(out)[e] + Stands(v', e)
  {
    LoopAccounts(vs, outs, v', room, turn, frozen);
    LoopAllowed(vs, outs, v', room, turn, frozen);
    NoopQuiet(Flat(outs));
    NoopAllowed(vs[0], v', Flat(outs), frozen);
    EachKind(vs[0], v', if noop then [Noop] + Flat(outs) else Flat(outs));
  }

  // ---------------------------------------------------------------- the loop

  /** How a stretch of the loop ends: with what was read, with EAGAIN, at the point of sleeping, on a
      transaction without a payload, or with no room even for BR_NOOP. */
  datatype Status = Ok | WouldBlock | Sleeps | Invalid | NoRoom

  datatype Result = Done | Full | Bad

  class Reader {
    var todo: seq<Job>
    var proc: seq<Job>
    var busy: bool
    var looper: bool
    var frozen: bool
    var requested: nat
    var ready: nat
    var started: nat
    var maxThreads: nat

    function Now(): View
      reads this
    {
      View(todo, proc, busy, looper)
    }

    static method First(q: seq<Job>, frozen: bool) returns (i: nat)
      ensures i == FirstOf(q, frozen)
    {
      i := 0;
      while i < |q| && !Eligible(q[i], frozen)
        invariant i <= |q| && forall j | 0 <= j < i :: !Eligible(q[j], frozen)
      {
        i := i + 1;
      }
      var k := FirstOf(q, frozen);
      assert !(i < k) && !(k < i);
    }

    /** Find and dequeue. */
    method Take() returns (w: Option<Job>, own: bool)
      modifies this`todo, this`proc
      ensures w.None? <==> Idle(old(Now()), frozen)
      ensures w.None? ==> Now() == old(Now())
      ensures w.Some? ==> Now() == Taken(old(Now()), frozen) && w.value == Chosen(old(Now()), frozen)
      ensures w.Some? ==> (own <==> FindsOwn(old(Now()), frozen))
    {
      own := false;
      w := None;
      if todo != [] {
        var i := First(todo, frozen);
        if i < |todo| {
          w, own := Some(todo[i]), true;
          todo := todo[..i] + todo[i + 1..];
        }
      } else if !busy && looper && proc != [] {
        var i := First(proc, frozen);
        if i < |proc| {
          w := Some(proc[i]);
          proc := proc[..i] + proc[i + 1..];
        }
      }
    }

    /** The switch over the kinds of work. */
    method Emit(w: Job, size: nat, consumed: nat) returns (res: Result, out: seq<Event>)
      requires consumed <= size
      modifies this`todo, this`busy
      ensures res == Bad <==> w.Txn? && !w.buffer
      ensures res == Full <==> res != Bad && size - consumed < Cost(w)
      ensures res != Done ==> Now() == old(Now()) && out == []
      ensures res == Done ==> Now() == After(old(Now()), w) && out == Emits(w) && consumed + Bytes(out) <= size
    {
      EmitsIs(w);
      res, out := Done, [];
      match w
      case Txn(id, buffer, owes) =>
        if !buffer {
          res := Bad;
        } else if size - consumed < TXN_CMD_SIZE {
          res := Full;
        } else {
          out := [Transaction(id)];
          if owes { busy := true; }
        }
      case Complete =>
        if size - consumed < CMD_SIZE { res := Full; } else { out := [TransactionComplete]; }
      case Error(code) =>
        if size - consumed < CMD_SIZE { res := Full; } else { out := [ErrorCode(code)]; }
      case News(n, cmds) =>
        if size - consumed < |cmds| * NODE_CMD_SIZE { res := Full; } else { out := NodeRefs(n, cmds); }
      case Dead(c) =>
        if size - consumed < COOKIE_CMD_SIZE { res := Full; } else { out := [DeadBinder(c)]; }
      case DeadAndClear(c) =>
        if size - consumed < COOKIE_CMD_SIZE {
          res := Full;
        } else {
          out := [DeadBinder(c)];
          todo := todo + [Clear(c)];
        }
      case Clear(c) =>
        if size - consumed < COOKIE_CMD_SIZE { res := Full; } else { out := [ClearDone(c)]; }
    }

    /** Process work was taken, no thread is on its way or ready, and the client allows more. */
    predicate Shorthanded(own: bool, asked: nat)
      reads this
    {
      !own && asked == 0 && ready == 0 && started < maxThreads && looper
    }

    /** Another thread is asked for when process work was taken and no other is ready; the request is
        recorded even when there is no room to say so. */
    method MaybeSpawn(own: bool, size: nat, consumed: nat) returns (out: seq<Event>)
      requires consumed <= size
      modifies this`requested
      ensures requested == old(requested) + if Shorthanded(own, old(requested)) then 1 else 0
      ensures out == if Shorthanded(own, old(requested)) && CMD_SIZE <= size - consumed then [SpawnLooper] else []
    {
      out := [];
      if !own && requested == 0 && ready == 0 && started < maxThreads && looper {
        requested := requested + 1;
        if CMD_SIZE <= size - consumed { out := [SpawnLooper]; }
      }
    }

    /** Take and read one item; an item without room is put back in front. */
    method Process(size: nat, consumed: nat) returns (turn: Turn, own: bool, out: seq<Event>)
      requires consumed <= size
      modifies this`todo, this`proc, this`busy
      ensures Turned(old(Now()), Now(), frozen, size - consumed, turn, out)
    {
      var w;
      w, own := Take();
      if w.None? { return Nothing, own, []; }
      var res;
      res, out := Emit(w.value, size, consumed);
      match res
      case Full =>
        if own { todo := [w.value] + todo; } else { proc := [w.value] + proc; }
        turn := Stuck;
      case Bad => turn := Refused;
      case Done => turn := Went;
    }

    /** One pass, with the request for another thread that may follow it. */
    method Pass(size: nat, consumed: nat) returns (turn: Turn, out: seq<Event>)
      requires consumed <= size
      modifies this`todo, this`proc, this`busy, this`requested
      ensures turn == Went ==> ReadOne(old(Now()), Now(), out, frozen)
      ensures turn != Went ==> out == [] && Turned(old(Now()), Now(), frozen, size - consumed, turn, out)
      ensures turn == Went ==> WeightIn(Now()) < WeightIn(old(Now()))
      ensures turn == Stuck ==> size - consumed < TXN_CMD_SIZE
      ensures consumed + Bytes(out) <= size
    {
      ghost var v := Now();
      var own;
      turn, own, out := Process(size, consumed);
      TurnBounds(v, Now(), frozen, size - consumed, turn, out);
      if turn == Went {
        var spawn := MaybeSpawn(own, size, consumed + Bytes(out));
        SpawnBytes(out, spawn);
        out := out + spawn;
      }
    }

    /** The loop. Every pass takes from the weight of the queues or ends it; `vs` and `outs` record them. */
    method Loop(size: nat, start: nat)
      returns (turn: Turn, consumed: nat, out: seq<Event>, wrote: bool, ghost vs: seq<View>, ghost outs: seq<seq<Event>>)
      requires start <= size
      modifies this`todo, this`proc, this`busy, this`requested
      ensures Passes(vs, outs, frozen) && vs[0] == old(Now()) && out == Flat(outs) && (wrote <==> outs != [])
      ensures consumed == start + Bytes(out) <= size
      ensures if turn == Went then Now() == vs[|vs| - 1] else Turned(vs[|vs| - 1], Now(), frozen, size - consumed, turn, [])
      ensures turn == Stuck || turn == Went ==> size - consumed < TXN_CMD_SIZE
    {
      consumed, out, wrote := start, [], false;
      vs, outs := [Now()], [];
      while true
        invariant Passes(vs, outs, frozen) && vs[0] == old(Now()) && vs[|vs| - 1] == Now() && out == Flat(outs)
        invariant consumed == start + Bytes(out) <= size && (wrote <==> outs != [])
        decreases WeightIn(Now())
      {
        var more;
        turn, more := Pass(size, consumed);
        if turn != Went { return; }
        PassesNext(vs, outs, Now(), more, frozen);
        FlatNext(outs, more);
        Extend(out, more);
        vs, outs := vs + [Now()], outs + [more];
        out, consumed, wrote := out + more, consumed + Bytes(more), true;
        if size - consumed < TXN_CMD_SIZE { return; }
      }
    }

    /**
    binder_thread_read. What was owed is what was emitted and what is owed still; an unfrozen reader emits the
    front of its stream and leaves the rest of it; and it stops early only for want of room.
    */
    method Read(size: nat, start: nat, nonBlock: bool) returns (status: Status, consumed: nat, out: seq<Event>)
      requires start <= size
      modifies this`todo, this`proc, this`busy, this`requested
      ensures consumed == start + Bytes(out) <= size
      ensures Accounts(old(Look(Now())), Look(Now()), WorkOf(out), frozen)
      ensures forall e: Event | IsWork(e) :: old(Stands(Now(), e)) == multiset(out)[e] + Stands(Now(), e)
      ensures Allowed(old(Now()), Now(), out, frozen)
      ensures status == NoRoom <==> start == 0 && size < CMD_SIZE
      ensures start == 0 && status != NoRoom ==> out != [] && out[0] == Noop
      ensures status == Ok && !frozen ==> Idle(Now(), false) || size - consumed < TXN_CMD_SIZE
      ensures status == WouldBlock || status == Sleeps ==>
        Idle(Now(), frozen) && Now() == old(Now()) && !frozen && (nonBlock <==> status == WouldBlock)
    {
      if start == 0 && size < CMD_SIZE {
        AccountsNothing(Look(Now()), frozen);
        AllowedNothing(Now(), frozen);
        return NoRoom, start, [];
      }
      var begin := if start == 0 then CMD_SIZE else start;
      var turn, wrote;
      ghost var vs, outs;
      turn, consumed, out, wrote, vs, outs := Loop(size, begin);
      LoopComesTo(vs, outs, Now(), size - consumed, turn, frozen, start == 0);
      if start == 0 { out := [Noop] + out; }
      status := if turn == Refused then Invalid
                else if turn != Nothing || frozen || wrote then Ok
                else if nonBlock then WouldBlock else Sleeps;
    }
  }
}
