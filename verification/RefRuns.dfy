/**
Runs of the driver seen from its counts: processes open and close, parcels are sent and freed, clients
acquire and release handles, a manager registers, owners read what became of their objects, threads
exit. A client may give back more than it took, and a send may fail on any object. Over every run with at most one
manager,

- a node's internal count is the number of processes with a strong handle on it, and no handle is left without a
  count (kext/binder_node.c:193-242, 357-396);
- news of a node waits where its owner reads, and nobody else reads it; the owner, if alive, has been told the truth
  about the node or has news waiting, as long as no thread exits with strong news on its own queue
  (kext/binder_node.c:173-187);
- what an owner reads about an object follows the grammar of Reconcile (kext/binder_proc.c:661-732).

RefLedger.dfy has what holds of the counts when clients keep to what they have.
*/
module RefRuns {
  import opened Common
  import opened RefCounts
  import opened RefHandles
  import opened Transfer
  import opened Parcels
  import opened ParcelRelease
  import opened RefClose
  import opened RefFlags
  import opened RefRoutes
  import opened Reconcile

  /** A delivered parcel, in the process that holds it. */
  datatype Parcel = Parcel(p: Pid, os: seq<Obj>)

  /**
  A state and its history: `threads` are the threads there are, with the process of each, `lost` the nodes whose queued
  news went with an exiting thread, `ever` the manager there has been, `born` the processes there have been, `bal` the
  counts clients have taken and not given back, `live` the parcels not yet freed, `out` what has been emitted about each
  node.
  */
  datatype History = History(
    s: State, threads: Threads, lost: set<NodeId>, ever: Option<NodeId>, born: set<Pid>,
    bal: multiset<Key>, live: seq<Parcel>, out: map<NodeId, seq<Cmd>>)

  function Start(): History { History(State(map[], map[], None, 0), map[], {}, None, {}, multiset{}, [], map[]) }

  datatype Op =
    | Send(from: Pid, to: Pid, os: seq<Obj>, thr: Option<Caller>, mems: seq<Memory>, memory: bool)
    | FreeBuffer(i: nat)
    | RefCommand(p: Pid, d: Desc, strong: bool, inc: bool, thr: Option<Caller>, memory: bool)
    | SetManager(p: Pid, ptr: U64, cookie: U64, memory: bool)
    | NewThread(tid: Tid, p: Pid)
    | Read(n: NodeId, room: nat, tid: Tid)
    | ExitThread(tid: Tid)
    | OpenProc(p: Pid)
    | CloseProc(p: Pid, nodes: seq<NodeId>, descs: seq<Desc>)

  // ---------------------------------------------------------------- runs

  /** A thread of the process, or none. */
  predicate Acts(h: History, thr: Option<Caller>, p: Pid) {
    IsThread(h.threads, thr) && (thr.Some? ==> thr.value.pid == p)
  }

  /** What the driver accepts; one manager, and no process identity twice. Work is done by a thread of the process that
      asks for it, and read by a thread whose queue it is on. */
  ghost predicate May(h: History, op: Op) {
    match op
    case Send(from, to, os, thr, mems, memory) =>
      from in h.s.tables && to in h.s.tables && |mems| == |os| && Acts(h, thr, from)
    case FreeBuffer(i) => i < |h.live| && h.live[i].p in h.s.tables
    case RefCommand(p, _, _, _, thr, _) => p in h.s.tables && Acts(h, thr, p)
    case SetManager(p, _, _, _) => p in h.s.tables && (h.ever.None? || h.s.mgr.Some?)
    case NewThread(tid, p) => tid !in h.threads && p in h.s.tables
    case Read(n, _, tid) =>
      && n in h.s.nodes && h.s.nodes[n].queue.Some? && tid in h.threads
      && (h.s.nodes[n].queue.value == ThreadQueue(tid) || h.s.nodes[n].queue.value == ProcQueue(h.threads[tid]))
    case ExitThread(tid) => tid in h.threads
    case OpenProc(p) => p !in h.born
    case CloseProc(p, nodes, descs) => Lists(h.s, p, nodes, descs)
  }

  function Out(h: History, n: NodeId): seq<Cmd> { if n in h.out then h.out[n] else [] }

  ghost function SendStep(h: History, from: Pid, to: Pid, os: seq<Obj>, thr: Option<Caller>, mems: seq<Memory>,
                          memory: bool): History
    requires to in h.s.tables && |mems| == |os|
  {
    var (s1, rs) := TranslateAll(h.s, from, to, os, thr, mems);
    if |rs| == |os| && memory then h.(s := s1, live := h.live + [Parcel(to, rs)])
    else if |rs| > |os| then h
    else h.(s := ReleaseAll(s1, to, Remains(os, rs)))
  }

  ghost function Step(h: History, op: Op): History
    requires May(h, op)
  {
    match op
    case Send(from, to, os, thr, mems, memory) => SendStep(h, from, to, os, thr, mems, memory)
    case FreeBuffer(i) =>
      h.(s := ReleaseAll(h.s, h.live[i].p, h.live[i].os), live := h.live[..i] + h.live[i + 1..])
    case RefCommand(p, d, strong, inc, thr, memory) =>
      var (s', d') := RefCmd(h.s, p, d, strong, inc, thr, memory);
      if d'.None? then h.(s := s')
      else if inc then h.(s := s', bal := h.bal + multiset{RefKey(p, d'.value, strong)})
      else h.(s := s', bal := h.bal - multiset{RefKey(p, d, strong)})
    case SetManager(p, ptr, cookie, memory) =>
      if h.s.mgr.Some? || (FindNode(h.s, p, ptr).None? && !memory) then h
      else h.(s := Register(h.s, p, ptr, cookie), ever := Some(ManagerNode(h.s, p, ptr)),
              bal := h.bal + multiset{LocalKey(p, ptr, true), LocalKey(p, ptr, false)})
    case NewThread(tid, p) => h.(threads := h.threads[tid := p])
    case Read(n, room, _) =>
      var (s', cs) := ReadNode(h.s, n, room);
      h.(s := s', out := h.out[n := Out(h, n) + cs], lost := if Fits(h.s.nodes[n], room) then h.lost - {n} else h.lost)
    case ExitThread(tid) =>
      h.(s := ThreadExit(h.s, tid), threads := h.threads - {tid}, lost := h.lost + NewsOn(h.s, tid))
    case OpenProc(p) => h.(s := h.s.(tables := h.s.tables[p := map[]]), born := h.born + {p})
    case CloseProc(p, nodes, descs) => h.(s := Close(h.s, p, nodes, descs), threads := Remaining(h.threads, p))
  }

  /** `hs` is a run: it starts from nothing and takes one allowed step per operation. */
  ghost predicate Run(hs: seq<History>, ops: seq<Op>) {
    |hs| == |ops| + 1 && hs[0] == Start() && forall i | 0 <= i < |ops| :: StepsTo(hs[i], ops[i], hs[i + 1])
  }

  ghost predicate StepsTo(h: History, op: Op, h': History) { May(h, op) && h' == Step(h, op) }

  // ---------------------------------------------------------------- what every state keeps

  /** Nobody holds anything before being born. */
  ghost predicate Born(h: History) {
    && h.s.tables.Keys <= h.born
    && (forall k | k in h.bal :: HolderOf(k).Some? && HolderOf(k).value in h.born)
    && (forall i | 0 <= i < |h.live| :: h.live[i].p in h.born)
  }

  /** What has been emitted about an object that is no manager's follows the grammar and its flags. */
  ghost predicate Streams(h: History) {
    forall n: NodeId | Some(n) != h.ever :: StreamAt(h.s, n, Out(h, n))
  }

  ghost predicate StreamAt(s: State, n: NodeId, out: seq<Cmd>) {
    if n in s.nodes then ToldBy(out, s.nodes[n].hasWeak, s.nodes[n].hasStrong)
    else InGrammar(out) && (s.next <= n ==> out == [])
  }

  ghost predicate Sound(h: History) {
    Inv(h.s, h.lost) && Zero(h.s, h.ever) && Born(h) && Streams(h) && Routed(h.s, h.threads, [])
  }

  lemma StartSound()
    ensures Sound(Start())
  {
    forall n: NodeId ensures InGrammar(Out(Start(), n)) {
      assert [] <= Lives([]);
    }
  }

  // ---------------------------------------------------------------- streams

  lemma Silent()
    ensures ToldBy([], false, false) && InGrammar([])
  {
    assert ToldWith([], [], 0, false, false);
    ToldInGrammar([], false, false);
  }

  /** Steps that emit nothing and touch no flag keep the streams. */
  lemma StreamsKept(h: History, h': History)
    requires Streams(h) && Bounded(h.s) && FlagsKept(h.s, h'.s) && h'.out == h.out
    requires h'.ever == h.ever
    ensures Streams(h')
  {
    Silent();
    forall n: NodeId | Some(n) != h'.ever
      ensures StreamAt(h'.s, n, Out(h', n))
    {
      if n in h.s.nodes && n !in h'.s.nodes {
        ToldInGrammar(Out(h, n), h.s.nodes[n].hasWeak, h.s.nodes[n].hasStrong);
      }
    }
  }

  // ---------------------------------------------------------------- sends and frees

  lemma ExtendsZero(s: State, s': State, ever: Option<NodeId>)
    requires Zero(s, ever) && FlagsKept(s, s') && Shrinks(s, s')
    ensures Zero(s', ever)
  {
    forall p | p in s'.tables && 0 in s'.tables[p] ensures ever == Some(s'.tables[p][0].node) {
      assert Holds(s', p, 0, s'.tables[p][0].node);
      assert Holds(s, p, 0, s'.tables[p][0].node);
    }
  }

  lemma SendSound(h: History, from: Pid, to: Pid, os: seq<Obj>, thr: Option<Caller>, mems: seq<Memory>, memory: bool)
    requires Sound(h) && May(h, Send(from, to, os, thr, mems, memory))
    ensures Sound(SendStep(h, from, to, os, thr, mems, memory))
  {
    var (s1, rs) := TranslateAll(h.s, from, to, os, thr, mems);
    TranslateAllIs(h.s, from, to, os, thr, mems, h.lost, h.ever);
    TranslateAllFlags(h.s, from, to, os, thr, mems);
    TranslateAllRouted(h.s, from, to, os, thr, mems, h.threads);
    if |rs| == |os| && memory {
      StreamsKept(h, h.(s := s1, live := h.live + [Parcel(to, rs)]));
    } else {
      ReleasedSound(h, s1, to, Remains(os, rs));
    }
  }

  /** Whatever is released in whatever state, every state kept stays kept. */
  lemma ReleasedSound(h: History, s1: State, p: Pid, os: seq<Obj>)
    requires Inv(s1, h.lost) && Zero(s1, h.ever) && FlagsKept(h.s, s1) && s1.tables.Keys == h.s.tables.Keys
    requires Born(h) && Streams(h) && Bounded(h.s) && Routed(s1, h.threads, [])
    ensures Sound(h.(s := ReleaseAll(s1, p, os)))
  {
    ReleaseAllRouted(s1, p, os, h.threads);
    var s2 := ReleaseAll(s1, p, os);
    ReleaseAllIs(s1, p, os, h.lost);
    ReleaseAllFlags(s1, p, os);
    ExtendsZero(s1, s2, h.ever);
    FlagsTrans(h.s, s1, s2);
    StreamsKept(h, h.(s := s2));
  }

  lemma FreeSound(h: History, i: nat)
    requires Sound(h) && May(h, FreeBuffer(i))
    ensures Sound(Step(h, FreeBuffer(i)))
  {
    ReleasedSound(h, h.s, h.live[i].p, h.live[i].os);
    FewerBorn(h.live, h.born, i);
  }

  lemma FewerBorn(live: seq<Parcel>, born: set<Pid>, i: nat)
    requires i < |live| && forall j | 0 <= j < |live| :: live[j].p in born
    ensures var less := live[..i] + live[i + 1..];
      forall j | 0 <= j < |less| :: less[j].p in born
  {}

  // ---------------------------------------------------------------- client commands

  /** An increment is a handle taken: on the descriptor's own node, or on the manager's. */
  lemma AcquireIs(s: State, p: Pid, d: Desc, strong: bool, thr: Option<Caller>, memory: bool) returns (n: NodeId)
    requires Tables(s) && p in s.tables
    ensures var (s', d') := RefCmd(s, p, d, strong, true, thr, memory);
      if d'.None? then s' == s else n in s.nodes && (s', d'.value) == TakeRef(s, p, n, strong, thr)
  {
    n := 0;
    if d in s.tables[p] {
      n := s.tables[p][d].node;
      assert Holds(s, p, d, n);
      assert FindDesc(s, p, n) == Some(d);
      CountUpIs(s, p, d, strong, thr);
    } else if s.mgr.Some? {
      n := s.mgr.value;
    }
  }

  lemma AcquireSound(h: History, p: Pid, d: Desc, strong: bool, thr: Option<Caller>, memory: bool)
    requires Sound(h) && p in h.s.tables && Acts(h, thr, p)
    ensures Sound(Step(h, RefCommand(p, d, strong, true, thr, memory)))
  {
    var (s', d') := RefCmd(h.s, p, d, strong, true, thr, memory);
    var n := AcquireIs(h.s, p, d, strong, thr, memory);
    if d'.Some? { TakenSound(h, s', p, n, d'.value, strong, thr); }
  }

  lemma TakenSound(h: History, s': State, p: Pid, n: NodeId, d: Desc, strong: bool, thr: Option<Caller>)
    requires Sound(h) && p in h.s.tables && n in h.s.nodes && (s', d) == TakeRef(h.s, p, n, strong, thr)
    requires IsThread(h.threads, thr)
    ensures Sound(h.(s := s', bal := h.bal + multiset{RefKey(p, d, strong)}))
  {
    var h' := h.(s := s', bal := h.bal + multiset{RefKey(p, d, strong)});
    TakeRefCounts(h.s, p, n, strong, thr, h.lost, h.ever);
    TakeRefExtends(h.s, p, n, strong, thr, h.ever);
    TakeFlags(h.s, p, n, strong, thr);
    TakeRouted(h.s, p, n, strong, thr, h.threads);
    StreamsKept(h, h');
  }

  /** A decrement of a handle there is changes at most its own count; any other is refused. */
  lemma DropIs(s: State, p: Pid, d: Desc, strong: bool, thr: Option<Caller>, memory: bool, lost: set<NodeId>)
    requires Inv(s, lost) && p in s.tables
    ensures var s' := RefCmd(s, p, d, strong, false, thr, memory).0;
      Inv(s', lost) && OneDown(s, s', RefKey(p, d, strong)) && Shrinks(s, s') && FlagsKept(s, s')
  {
    if d in s.tables[p] {
      assert Holds(s, p, d, s.tables[p][d].node);
      ReleaseHandleIs(s, p, d, strong, thr, lost);
      RefUpdateFlags(s, p, d, strong, false, thr);
    }
  }

  lemma DropSound(h: History, p: Pid, d: Desc, strong: bool, thr: Option<Caller>, memory: bool)
    requires Sound(h) && p in h.s.tables && Acts(h, thr, p)
    ensures Sound(Step(h, RefCommand(p, d, strong, false, thr, memory)))
  {
    var h' := Step(h, RefCommand(p, d, strong, false, thr, memory));
    DropIs(h.s, p, d, strong, thr, memory, h.lost);
    DropRouted(h.s, p, d, strong, thr, memory, h.threads);
    FewerSound(h, h');
  }

  lemma DropRouted(s: State, p: Pid, d: Desc, strong: bool, thr: Option<Caller>, memory: bool, threads: Threads)
    requires p in s.tables && Routed(s, threads, []) && IsThread(threads, thr)
    ensures Routed(RefCmd(s, p, d, strong, false, thr, memory).0, threads, [])
  {
    if d in s.tables[p] && s.tables[p][d].node in s.nodes { RefUpdateRouted(s, p, d, strong, false, thr, threads); }
  }

  lemma FewerSound(h: History, h': History)
    requires Sound(h) && Routed(h'.s, h.threads, []) && Inv(h'.s, h.lost) && Shrinks(h.s, h'.s) && FlagsKept(h.s, h'.s)
    requires h'.bal <= h.bal && h' == h.(s := h'.s, bal := h'.bal)
    ensures Sound(h')
  {
    ExtendsZero(h.s, h'.s, h.ever);
    StreamsKept(h, h');
  }

  // ---------------------------------------------------------------- the manager

  /** The node a registration works on, there or made. */
  lemma ManagerIs(s: State, p: Pid, ptr: U64, cookie: U64, lost: set<NodeId>, ever: Option<NodeId>)
    requires Inv(s, lost) && Zero(s, ever) && p in s.tables
    ensures var s1 := if FindNode(s, p, ptr).Some? then s else NewNode(s, p, ptr, cookie);
      var n := ManagerNode(s, p, ptr);
      && Inv(s1, lost) && SameCounts(s, s1) && FlagsKept(s, s1) && s1.tables == s.tables && s1.mgr == s.mgr
      && Owns(s1, p, ptr, n)
  {
    if FindNode(s, p, ptr).None? { NewNodeCounts(s, p, ptr, cookie, lost, ever); }
  }

  lemma RegisterInv(s: State, p: Pid, ptr: U64, cookie: U64, lost: set<NodeId>)
    requires Inv(s, lost) && Zero(s, None) && p in s.tables
    ensures Inv(Register(s, p, ptr, cookie), lost) && Zero(Register(s, p, ptr, cookie), Some(ManagerNode(s, p, ptr)))
  {
    ManagerIs(s, p, ptr, cookie, lost, None);
    var s1 := if FindNode(s, p, ptr).Some? then s else NewNode(s, p, ptr, cookie);
    var n := ManagerNode(s, p, ptr);
    SetNodeInv(s1, n, AsManager(s1.nodes[n]), lost);
    NameManager(s1.(nodes := s1.nodes[n := AsManager(s1.nodes[n])]), n, lost);
  }

  lemma NameManager(s: State, n: NodeId, lost: set<NodeId>)
    requires Inv(s, lost) && n in s.nodes && s.nodes[n].owner.Some?
    ensures Inv(s.(mgr := Some(n)), lost)
  {
    var s' := s.(mgr := Some(n));
    forall p, d, m ensures Holds(s', p, d, m) <==> Holds(s, p, d, m) {}
    SameHolders(s, s');
    forall p, ptr, m ensures Owns(s', p, ptr, m) <==> Owns(s, p, ptr, m) {}
  }

  lemma ManagerSound(h: History, p: Pid, ptr: U64, cookie: U64, memory: bool)
    requires Sound(h) && May(h, SetManager(p, ptr, cookie, memory))
    ensures Sound(Step(h, SetManager(p, ptr, cookie, memory)))
  {
    if h.s.mgr.None? && (FindNode(h.s, p, ptr).Some? || memory) {
      var h' := Step(h, SetManager(p, ptr, cookie, memory));
      RegisterInv(h.s, p, ptr, cookie, h.lost);
      RegisterRouted(h.s, p, ptr, cookie, h.threads);
      RegisterStreams(h, h', p, ptr, cookie);
      RegisterBorn(h, h', p, ptr);
    }
  }

  lemma RegisterBorn(h: History, h': History, p: Pid, ptr: U64)
    requires Born(h) && p in h.s.tables && h'.s.tables == h.s.tables && h'.born == h.born && h'.live == h.live
    requires h'.bal == h.bal + multiset{LocalKey(p, ptr, true), LocalKey(p, ptr, false)}
    ensures Born(h')
  {}

  lemma RegisterStreams(h: History, h': History, p: Pid, ptr: U64, cookie: U64)
    requires Sound(h) && p in h.s.tables && h.s.mgr.None? && h.ever.None? && h'.out == h.out
    requires h'.s == Register(h.s, p, ptr, cookie) && h'.ever == Some(ManagerNode(h.s, p, ptr))
    ensures Streams(h') && h'.s.tables == h.s.tables
  {
    var s1 := if FindNode(h.s, p, ptr).Some? then h.s else NewNode(h.s, p, ptr, cookie);
    ManagerIs(h.s, p, ptr, cookie, h.lost, h.ever);
    ManagerStreams(h, s1, h', ManagerNode(h.s, p, ptr));
  }

  lemma ManagerStreams(h: History, s1: State, h': History, n: NodeId)
    requires Streams(h) && Bounded(h.s) && FlagsKept(h.s, s1) && n in s1.nodes && h.ever.None?
    requires h'.s == s1.(mgr := Some(n), nodes := s1.nodes[n := AsManager(s1.nodes[n])])
    requires h'.ever == Some(n) && h'.out == h.out
    ensures Streams(h')
  {
    StreamsKept(h, h.(s := s1));
    forall m: NodeId | Some(m) != h'.ever
      ensures StreamAt(h'.s, m, Out(h', m))
    {
      assert Out(h', m) == Out(h.(s := s1), m);
    }
  }

  // ---------------------------------------------------------------- reading news

  lemma ReadStream(s: State, n: NodeId, room: nat, out: seq<Cmd>, out': seq<Cmd>)
    requires n in s.nodes && FlagsNode(s.nodes[n]) && ToldBy(out, s.nodes[n].hasWeak, s.nodes[n].hasStrong)
    requires out' == out + ReadNode(s, n, room).1
    ensures n < s.next ==> StreamAt(ReadNode(s, n, room).0, n, out')
  {
    var nd := s.nodes[n];
    if Fits(nd, room) {
      CommandsContinue(out, nd);
      ToldInGrammar(out', Weak(nd), Strong(nd));
    } else {
      assert out' == out;
    }
  }

  lemma ReadLeavesOthers(s: State, n: NodeId, room: nat, m: NodeId, out: seq<Cmd>)
    requires n in s.nodes && m != n && StreamAt(s, m, out)
    ensures StreamAt(ReadNode(s, n, room).0, m, out)
  {}

  lemma ReadStreams(h: History, h': History, n: NodeId, room: nat)
    requires Streams(h) && Bounded(h.s) && n in h.s.nodes && FlagsNode(h.s.nodes[n])
    requires h'.s == ReadNode(h.s, n, room).0 && h'.ever == h.ever
    requires h'.out == h.out[n := Out(h, n) + ReadNode(h.s, n, room).1]
    ensures Streams(h')
  {
    var nd := h.s.nodes[n];
    forall m: NodeId | Some(m) != h'.ever
      ensures StreamAt(h'.s, m, Out(h', m))
    {
      if m != n {
        ReadLeavesOthers(h.s, n, room, m, Out(h, m));
      } else {
        ReadStream(h.s, n, room, Out(h, n), Out(h', n));
      }
    }
  }

  lemma ReadSound(h: History, n: NodeId, room: nat, tid: Tid)
    requires Sound(h) && May(h, Read(n, room, tid))
    ensures Sound(Step(h, Read(n, room, tid)))
  {
    var h' := Step(h, Read(n, room, tid));
    ReadNodeInv(h.s, n, room, h.lost);
    assert NodeOk(n, h.s.nodes[n], h.lost);
    ReadStreams(h, h', n, room);
    ReadRouted(h.s, n, room, h.threads);
    ReadKeeps(h.s, n, room, h.ever);
  }

  lemma ReadKeeps(s: State, n: NodeId, room: nat, ever: Option<NodeId>)
    requires n in s.nodes && Zero(s, ever)
    ensures Zero(ReadNode(s, n, room).0, ever) && ReadNode(s, n, room).0.tables == s.tables
  {}

  // ---------------------------------------------------------------- coming and going

  lemma ThreadSound(h: History, tid: Tid, p: Pid)
    requires Sound(h) && tid !in h.threads
    ensures Sound(h.(threads := h.threads[tid := p]))
  {
    forall n | n in h.s.nodes ensures RoutedNode(h.s.nodes[n], h.threads[tid := p]) {
      assert RoutedNode(h.s.nodes[n], h.threads);
    }
    StreamsKept(h, h.(threads := h.threads[tid := p]));
  }

  lemma ExitSound(h: History, tid: Tid)
    requires Sound(h) && tid in h.threads
    ensures Sound(Step(h, ExitThread(tid)))
  {
    ExitRouted(h.s, tid, h.threads);
    ThreadExitInv(h.s, tid, h.lost);
    StreamsKept(h, Step(h, ExitThread(tid)));
  }

  lemma OpenInv(s: State, p: Pid, lost: set<NodeId>)
    requires Inv(s, lost) && p !in s.tables
    ensures var s' := s.(tables := s.tables[p := map[]]); Inv(s', lost) && SameCounts(s, s')
  {
    var s' := s.(tables := s.tables[p := map[]]);
    forall q, d, n ensures Holds(s', q, d, n) <==> Holds(s, q, d, n) {}
    forall n ensures StrongHolders(s', n) == StrongHolders(s, n) {
      forall q ensures StrongHolder(s', q, n) <==> StrongHolder(s, q, n) {
        if StrongHolder(s, q, n) { var d :| Holds(s, q, d, n) && s.tables[q][d].strong > 0; assert Holds(s', q, d, n); }
        if StrongHolder(s', q, n) { var d :| Holds(s', q, d, n) && s'.tables[q][d].strong > 0; assert Holds(s, q, d, n); }
      }
    }
    OpenCounts(s, p);
  }

  lemma OpenCounts(s: State, p: Pid)
    requires Owners(s) && p !in s.tables
    ensures var s' := s.(tables := s.tables[p := map[]]); Owners(s') && SameCounts(s, s')
  {
    var s' := s.(tables := s.tables[p := map[]]);
    forall q, ptr, n ensures Owns(s', q, ptr, n) <==> Owns(s, q, ptr, n) {}
    assert SameLocals(s, s');
    forall k ensures Count(s', k) == Count(s, k) {
      if k.LocalKey? { LocalSame(s, s', k.p, k.ptr, k.strong); }
    }
  }

  lemma OpenSound(h: History, p: Pid)
    requires Sound(h) && p !in h.born
    ensures Sound(Step(h, OpenProc(p)))
  {
    OpenInv(h.s, p, h.lost);
    StreamsKept(h, Step(h, OpenProc(p)));
  }

  lemma CloseSound(h: History, p: Pid, nodes: seq<NodeId>, descs: seq<Desc>)
    requires Sound(h) && Lists(h.s, p, nodes, descs)
    ensures Sound(Step(h, CloseProc(p, nodes, descs)))
  {
    CloseInv(h.s, p, nodes, descs, h.lost);
    CloseStreams(h, Step(h, CloseProc(p, nodes, descs)), p);
    CloseRouted(h.s, p, nodes, descs, h.threads);
  }

  lemma CloseStreams(h: History, h': History, p: Pid)
    requires Streams(h) && Bounded(h.s) && Zero(h.s, h.ever) && Left(StepDown(h.s, p), h'.s, p)
    requires h'.out == h.out && h'.ever == h.ever
    ensures Streams(h')
  {
    var s0 := StepDown(h.s, p);
    assert Streams(h.(s := s0)) by {
      forall n: NodeId | Some(n) != h.ever ensures StreamAt(s0, n, Out(h.(s := s0), n)) {
        assert StreamAt(h.s, n, Out(h, n));
      }
    }
    LeftFlags(s0, h'.s, p);
    StreamsKept(h.(s := s0), h');
  }

  // ---------------------------------------------------------------- every run

  lemma StepSound(h: History, op: Op)
    requires Sound(h) && May(h, op)
    ensures Sound(Step(h, op))
  {
    match op
    case Send(from, to, os, thr, mems, memory) => SendSound(h, from, to, os, thr, mems, memory);
    case FreeBuffer(i) => FreeSound(h, i);
    case RefCommand(p, d, strong, inc, thr, memory) =>
      if inc {
        AcquireSound(h, p, d, strong, thr, memory);
      } else {
        DropSound(h, p, d, strong, thr, memory);
      }
    case SetManager(p, ptr, cookie, memory) => ManagerSound(h, p, ptr, cookie, memory);
    case NewThread(tid, p) => ThreadSound(h, tid, p);
    case Read(n, room, tid) => ReadSound(h, n, room, tid);
    case ExitThread(tid) => ExitSound(h, tid);
    case OpenProc(p) => OpenSound(h, p);
    case CloseProc(p, nodes, descs) => CloseSound(h, p, nodes, descs);
  }

  lemma {:induction false} EveryRun(hs: seq<History>, ops: seq<Op>, i: nat)
    requires Run(hs, ops) && i < |hs|
    ensures Sound(hs[i])
  {
    if i == 0 {
      StartSound();
    } else {
      EveryRun(hs, ops, i - 1);
      assert StepsTo(hs[i - 1], ops[i - 1], hs[i - 1 + 1]);
      StepSound(hs[i - 1], ops[i - 1]);
    }
  }

  // ---------------------------------------------------------------- what it comes to

  /** In every run a node's internal count is the number of processes with a strong handle on it, and each of those
      processes is on its list. */
  lemma InternalCounts(hs: seq<History>, ops: seq<Op>, i: nat, n: NodeId)
    requires Run(hs, ops) && i < |hs| && n in hs[i].s.nodes
    ensures hs[i].s.nodes[n].internal == |StrongHolders(hs[i].s, n)| && StrongHolders(hs[i].s, n) <= hs[i].s.nodes[n].refs
  {
    EveryRun(hs, ops, i);
    forall p | StrongHolder(hs[i].s, p, n) ensures p in hs[i].s.nodes[n].refs {
      var d :| Holds(hs[i].s, p, d, n);
    }
  }

  /** In every run every handle has a count and a node that lists its holder. */
  lemma NoEmptyHandle(hs: seq<History>, ops: seq<Op>, i: nat, p: Pid, d: Desc)
    requires Run(hs, ops) && i < |hs| && p in hs[i].s.tables && d in hs[i].s.tables[p]
    ensures var s := hs[i].s; var r := s.tables[p][d];
      r.strong + r.weak > 0 && r.node in s.nodes && p in s.nodes[r.node].refs
  {
    EveryRun(hs, ops, i);
    assert Holds(hs[i].s, p, d, hs[i].s.tables[p][d].node);
  }

  /** What is lost is only remembered; no step depends on it. */
  lemma WithoutLost(h: History, op: Op)
    requires May(h, op)
    ensures May(h.(lost := {}), op) && Step(h.(lost := {}), op).(lost := {}) == Step(h, op).(lost := {})
  {}

  /** The thread's queue holds no strong news of a live owner's node. */
  ghost predicate Quiet(s: State, tid: Tid) {
    forall n | n in s.nodes && QueuedOn(s.nodes[n], tid) ::
      s.nodes[n].owner.None? || Strong(s.nodes[n]) == s.nodes[n].hasStrong
  }

  /** In every run news of a node waits where its owner reads, and only a thread of the owner's reads it. */
  lemma NewsIsRouted(hs: seq<History>, ops: seq<Op>, i: nat, n: NodeId)
    requires Run(hs, ops) && i < |hs| && n in hs[i].s.nodes && hs[i].s.nodes[n].queue.Some?
    ensures var nd := hs[i].s.nodes[n];
      && nd.owner.Some? && ReadBy(hs[i].threads, nd.queue.value, nd.owner.value)
      && (i < |ops| && ops[i].Read? && ops[i].n == n ==>
            ops[i].tid in hs[i].threads && nd.owner == Some(hs[i].threads[ops[i].tid]))
  {
    EveryRun(hs, ops, i);
    assert RoutedNode(hs[i].s.nodes[n], hs[i].threads);
    if i < |ops| { assert StepsTo(hs[i], ops[i], hs[i + 1]); }
  }

  /** The owner is there, has been told something else than the truth about the node, and no thread of it is to read
      the news. */
  predicate Uninformed(nd: Node, threads: Threads) {
    && nd.owner.Some? && Strong(nd) != nd.hasStrong
    && !(nd.queue.Some? && ReadBy(threads, nd.queue.value, nd.owner.value))
  }

  /** In every run whose threads exit with no strong news on their queues, every live owner has been told whether its
      object is held, or the news waits where a thread of the owner reads. */
  lemma {:induction false} NoNewsLost(hs: seq<History>, ops: seq<Op>, i: nat)
    requires Run(hs, ops) && i < |hs| && forall j | 0 <= j < i && ops[j].ExitThread? :: Quiet(hs[j].s, ops[j].tid)
    ensures Sound(hs[i].(lost := {}))
    ensures forall n | n in hs[i].s.nodes :: !Uninformed(hs[i].s.nodes[n], hs[i].threads)
  {
    if i == 0 {
      StartSound();
    } else {
      NoNewsLost(hs, ops, i - 1);
      assert StepsTo(hs[i - 1], ops[i - 1], hs[i - 1 + 1]);
      StepKeepsNews(hs[i - 1], ops[i - 1]);
    }
    forall n | n in hs[i].s.nodes ensures !Uninformed(hs[i].s.nodes[n], hs[i].threads) {
      assert NodeOk(n, hs[i].s.nodes[n], {}) && RoutedNode(hs[i].s.nodes[n], hs[i].threads);
    }
  }

  lemma StepKeepsNews(h: History, op: Op)
    requires May(h, op) && Sound(h.(lost := {})) && (op.ExitThread? ==> Quiet(h.s, op.tid))
    ensures Sound(Step(h, op).(lost := {}))
  {
    var h0 := h.(lost := {});
    WithoutLost(h, op);
    StepSound(h0, op);
    StepNews(h0, op);
    NewsSound(Step(h0, op));
  }

  lemma StepNews(h: History, op: Op)
    requires May(h, op) && Sound(h) && h.lost == {} && Sound(Step(h, op)) && (op.ExitThread? ==> Quiet(h.s, op.tid))
    ensures News(Step(h, op).s, {})
  {
    if op.ExitThread? {
      ExitKeepsNewsIff(h.s, op.tid);
    } else {
      LosesNothing(h, op);
    }
  }

  lemma LosesNothing(h: History, op: Op)
    requires May(h, op) && h.lost == {} && !op.ExitThread?
    ensures Step(h, op).lost == {}
  {}

  lemma NewsSound(h: History)
    requires Sound(h) && News(h.s, {})
    ensures Sound(h.(lost := {}))
  {}

  /** In every run what is emitted about an object that never is the manager's follows the grammar. */
  lemma GrammarKept(hs: seq<History>, ops: seq<Op>, i: nat, n: NodeId)
    requires Run(hs, ops) && i < |hs| && hs[i].ever != Some(n)
    ensures InGrammar(Out(hs[i], n))
  {
    EveryRun(hs, ops, i);
    if n in hs[i].s.nodes {
      ToldInGrammar(Out(hs[i], n), hs[i].s.nodes[n].hasWeak, hs[i].s.nodes[n].hasStrong);
    }
  }

  /** A thread exit keeps the news of every node if and only if its queue holds no strong news. */
  lemma ExitKeepsNewsIff(s: State, tid: Tid)
    requires News(s, {})
    ensures News(ThreadExit(s, tid), {}) <==> Quiet(s, tid)
  {
    var s' := ThreadExit(s, tid);
    if News(s', {}) {
      forall n | n in s.nodes && QueuedOn(s.nodes[n], tid)
        ensures s.nodes[n].owner.None? || Strong(s.nodes[n]) == s.nodes[n].hasStrong
      {
        assert NodeOk(n, s'.nodes[n], {});
      }
    } else {
      var n :| n in s'.nodes && !NodeOk(n, s'.nodes[n], {});
      assert NodeOk(n, s.nodes[n], {});
    }
  }
}
