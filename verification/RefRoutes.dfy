/**
News of an object goes to its owner: whoever changes a count, the node is queued on the owner's process or on a thread of
the owner's (kext/binder_node.c:173-187), and it stays there until the owner reads it or is gone.
*/
module RefRoutes {
  import opened Common
  import opened RefCounts
  import opened RefHandles
  import opened Transfer
  import opened Parcels
  import opened ParcelRelease
  import opened RefClose
  import opened Reconcile

  /** The threads there are, and the process of each. */
  type Threads = map<Tid, Pid>

  /** The queue is read by threads of `p`. */
  predicate ReadBy(threads: Threads, q: Queue, p: Pid) {
    match q
    case ProcQueue(r) => r == p
    case ThreadQueue(t) => t in threads && threads[t] == p
  }

  /** A node that is queued waits where its owner reads; the nodes in `but` apart. */
  ghost predicate Routed(s: State, threads: Threads, but: seq<NodeId>) {
    forall n | n in s.nodes && n !in but :: RoutedNode(s.nodes[n], threads)
  }

  predicate RoutedNode(nd: Node, threads: Threads) {
    nd.queue.Some? ==> nd.owner.Some? && ReadBy(threads, nd.queue.value, nd.owner.value)
  }

  /** The thread on whose behalf something is done is one of the process it is said to be of. */
  predicate IsThread(threads: Threads, thr: Option<Caller>) {
    thr.Some? ==> thr.value.tid in threads && threads[thr.value.tid] == thr.value.pid
  }

  lemma ToldRouted(was: Node, nd: Node, thr: Option<Caller>, threads: Threads)
    requires RoutedNode(nd, threads) && IsThread(threads, thr)
    ensures RoutedNode(RefCounts.Told(was, nd, thr), threads)
  {}

  lemma UpdateRouted(s: State, n: NodeId, strong: bool, inc: bool, internal: bool, thr: Option<Caller>, threads: Threads,
                     but: seq<NodeId>)
    requires Routed(s, threads, but) && n in s.nodes && IsThread(threads, thr)
    ensures Routed(UpdateRefs(s, n, strong, inc, internal, thr).0, threads, but)
  {
    var nd := Counted(s.nodes[n], strong, inc, internal);
    if nd.Some? && n !in but { ToldRouted(s.nodes[n], nd.value, thr, threads); }
  }

  lemma DeleteRouted(s: State, p: Pid, d: Desc, threads: Threads, but: seq<NodeId>)
    requires Routed(s, threads, but) && p in s.tables && d in s.tables[p] && s.tables[p][d].node in s.nodes
    ensures Routed(RefDelete(s, p, d), threads, but)
  {
    var r := s.tables[p][d];
    var nd := s.nodes[r.node];
    var s1 := s.(tables := s.tables[p := s.tables[p] - {d}], nodes := s.nodes[r.node := nd.(refs := nd.refs - {p})]);
    UpdateRouted(s1, r.node, r.strong > 0, false, true, None, threads, but);
  }

  lemma CountRouted(s: State, p: Pid, d: Desc, strong: bool, inc: bool, thr: Option<Caller>, threads: Threads)
    requires Routed(s, threads, []) && IsThread(threads, thr)
    requires p in s.tables && d in s.tables[p] && s.tables[p][d].node in s.nodes
    ensures Routed(RefCount(s, p, d, strong, inc, thr).0, threads, [])
  {
    var r := s.tables[p][d];
    if strong && inc && r.strong == 0 {
      UpdateRouted(s, r.node, true, true, true, thr, threads, []);
    } else if strong && !inc && r.strong == 1 {
      UpdateRouted(SetRef(s, p, d, r.(strong := 0)), r.node, true, false, true, thr, threads, []);
    }
  }

  lemma RefUpdateRouted(s: State, p: Pid, d: Desc, strong: bool, inc: bool, thr: Option<Caller>, threads: Threads)
    requires Routed(s, threads, []) && IsThread(threads, thr)
    requires p in s.tables && d in s.tables[p] && s.tables[p][d].node in s.nodes
    ensures Routed(RefUpdate(s, p, d, strong, inc, thr).0, threads, [])
  {
    var s1 := RefCount(s, p, d, strong, inc, thr).0;
    CountRouted(s, p, d, strong, inc, thr, threads);
    if p in s1.tables && d in s1.tables[p] && s1.tables[p][d].node in s1.nodes { DeleteRouted(s1, p, d, threads, []); }
  }

  lemma TakeRouted(s: State, p: Pid, n: NodeId, strong: bool, thr: Option<Caller>, threads: Threads)
    requires Routed(s, threads, []) && IsThread(threads, thr) && p in s.tables && n in s.nodes
    ensures Routed(TakeRef(s, p, n, strong, thr).0, threads, [])
  {
    var (s1, d) := GetRef(s, p, n);
    assert Routed(s1, threads, []);
    RefUpdateRouted(s1, p, d, strong, true, thr, threads);
  }

  lemma TranslateRouted(s: State, from: Pid, to: Pid, o: Obj, thr: Option<Caller>, mem: Memory, threads: Threads)
    requires Routed(s, threads, []) && IsThread(threads, thr) && to in s.tables
    ensures Routed(Translate(s, from, to, o, thr, mem).0, threads, [])
  {
    match o
    case Binder(ptr, cookie, strong) =>
      var found := FindNode(s, from, ptr);
      if found.Some? || mem.node {
        var s1 := if found.None? then NewNode(s, from, ptr, cookie) else s;
        var n := if found.None? then s.next else found.value;
        if n in s1.nodes && cookie == s1.nodes[n].cookie { TakeRouted(s1, to, n, strong, thr, threads); }
      }
    case Handle(d, strong) =>
      if from in s.tables && d in s.tables[from] && s.tables[from][d].node in s.nodes {
        UpdateRouted(s, s.tables[from][d].node, strong, true, false, thr, threads, []);
        TakeRouted(s, to, s.tables[from][d].node, strong, thr, threads);
      }
    case Other(_) =>
  }

  lemma {:induction false} TranslateAllRouted(s: State, from: Pid, to: Pid, os: seq<Obj>, thr: Option<Caller>,
                                              mems: seq<Memory>, threads: Threads)
    requires Routed(s, threads, []) && IsThread(threads, thr) && to in s.tables && |mems| == |os|
    ensures Routed(TranslateAll(s, from, to, os, thr, mems).0, threads, [])
    decreases |os|
  {
    if os != [] {
      TranslateRouted(s, from, to, os[0], thr, mems[0], threads);
      var (s1, r) := Translate(s, from, to, os[0], thr, mems[0]);
      if r.Some? && to in s1.tables { TranslateAllRouted(s1, from, to, os[1..], thr, mems[1..], threads); }
    }
  }

  lemma ReleaseRouted(s: State, p: Pid, o: Obj, threads: Threads)
    requires Routed(s, threads, [])
    ensures Routed(Release(s, p, o), threads, [])
  {
    match o
    case Binder(ptr, _, strong) =>
      var n := FindNode(s, p, ptr);
      if n.Some? && n.value in s.nodes { UpdateRouted(s, n.value, strong, false, false, None, threads, []); }
    case Handle(d, strong) =>
      if p in s.tables && d in s.tables[p] && s.tables[p][d].node in s.nodes {
        RefUpdateRouted(s, p, d, strong, false, None, threads);
      }
    case Other(_) =>
  }

  lemma {:induction false} ReleaseAllRouted(s: State, p: Pid, os: seq<Obj>, threads: Threads)
    requires Routed(s, threads, [])
    ensures Routed(ReleaseAll(s, p, os), threads, [])
    decreases |os|
  {
    if os != [] {
      ReleaseRouted(s, p, os[0], threads);
      ReleaseAllRouted(Release(s, p, os[0]), p, os[1..], threads);
    }
  }

  lemma RegisterRouted(s: State, p: Pid, ptr: U64, cookie: U64, threads: Threads)
    requires Routed(s, threads, [])
    ensures Routed(Register(s, p, ptr, cookie), threads, [])
  {}

  lemma ReadRouted(s: State, n: NodeId, room: nat, threads: Threads)
    requires Routed(s, threads, []) && n in s.nodes
    ensures Routed(ReadNode(s, n, room).0, threads, [])
  {}

  // ---------------------------------------------------------------- threads and processes that go

  lemma ExitRouted(s: State, tid: Tid, threads: Threads)
    requires Routed(s, threads, [])
    ensures Routed(ThreadExit(s, tid), threads - {tid}, [])
  {}

  lemma {:induction false} DieEachRouted(s: State, ns: seq<NodeId>, threads: Threads, but: seq<NodeId>)
    requires Routed(s, threads, but) && forall n | n in ns :: n in but
    ensures Routed(DieEach(s, ns), threads, but)
    decreases |ns|
  {
    if ns != [] {
      assert ns[0] in ns && ns == [ns[0]] + ns[1..];
      DieEachRouted(if ns[0] in s.nodes then Die(s, ns[0]) else s, ns[1..], threads, but);
    }
  }

  lemma {:induction false} DeleteEachRouted(s: State, p: Pid, ds: seq<Desc>, threads: Threads, but: seq<NodeId>)
    requires Routed(s, threads, but)
    ensures Routed(DeleteEach(s, p, ds), threads, but)
    decreases |ds|
  {
    if ds != [] {
      var d := ds[0];
      if p in s.tables && d in s.tables[p] && s.tables[p][d].node in s.nodes {
        DeleteRouted(s, p, d, threads, but);
        DeleteEachRouted(RefDelete(s, p, d), p, ds[1..], threads, but);
      } else {
        DeleteEachRouted(s, p, ds[1..], threads, but);
      }
    }
  }

  /** The threads that are not of `p`. */
  function Remaining(threads: Threads, p: Pid): Threads { map t | t in threads && threads[t] != p :: threads[t] }

  /** A closing process takes its threads along; no node is left on one of their queues, or on its own. */
  lemma CloseRouted(s: State, p: Pid, ns: seq<NodeId>, ds: seq<Desc>, threads: Threads)
    requires Routed(s, threads, []) && Lists(s, p, ns, ds) && OwnsNothing(Close(s, p, ns, ds), p)
    ensures Routed(Close(s, p, ns, ds), Remaining(threads, p), [])
  {
    var s0 := StepDown(s, p);
    var s2 := DeleteEach(DieEach(s0, ns), p, ds);
    DieEachRouted(s0, ns, threads, ns);
    DeleteEachRouted(DieEach(s0, ns), p, ds, threads, ns);
    forall n | n in Close(s, p, ns, ds).nodes
      ensures RoutedNode(Close(s, p, ns, ds).nodes[n], Remaining(threads, p))
    {
      if n !in ns { assert RoutedNode(s2.nodes[n], threads); }
    }
  }
}
