/**
Objects that outlive their owner (kext/binder_node.c:115-160, 256-301). The source says that a node is freed once
nothing points at it and its owner is gone or has been told to let go. A closing process leaves exactly the objects that
something keeps, and from then on an object without an owner goes with its last handle if and only if its owner had no
count on it and knew of none. What the owner was told is not taken back when it goes, so an object it had been told of
stays for good.
*/
module RefOrphans {
  import opened Common
  import opened RefCounts
  import opened RefHandles
  import opened Transfer
  import opened Parcels
  import opened ParcelRelease
  import opened RefClose
  import opened RefFlags
  import opened RefRoutes
  import opened RefFreeing
  import opened Reconcile
  import opened RefRuns

  /** What no other process can undo keeps the node. */
  predicate Stuck(nd: Node) { !Idle(nd) || nd.localStrong > 0 || nd.localWeak > 0 }

  predicate SameButHandles(nd: Node, nd': Node) {
    && nd'.owner == nd.owner && nd'.tmp == nd.tmp && nd'.hasStrong == nd.hasStrong && nd'.hasWeak == nd.hasWeak
    && nd'.queue == nd.queue && nd'.localStrong == nd.localStrong && nd'.localWeak == nd.localWeak
  }

  /** A node without an owner changes by its handles only. It goes, if at all, with the last of them. */
  predicate OrphanKept(nd: Node, nd': Option<Node>) {
    if nd'.None? then nd.refs != {} && !Stuck(nd)
    else
      && SameButHandles(nd, nd'.value) && (nd'.value.refs != {} ==> nd.refs != {})
      && (nd.refs != {} && nd'.value.refs == {} ==> Stuck(nd))
  }

  function At(s: State, n: NodeId): Option<Node> { if n in s.nodes then Some(s.nodes[n]) else None }

  ghost predicate OrphansKept(s: State, s': State) {
    && s.next <= s'.next && Bounded(s') && (forall n | n in s'.nodes :: n in s.nodes || s.next <= n)
    && forall n | n in s.nodes && s.nodes[n].owner.None? :: OrphanKept(s.nodes[n], At(s', n))
  }

  lemma OrphansTrans(a: State, b: State, c: State)
    requires Bounded(a) && OrphansKept(a, b) && OrphansKept(b, c)
    ensures OrphansKept(a, c)
  {
    forall n | n in a.nodes && a.nodes[n].owner.None? ensures OrphanKept(a.nodes[n], At(c, n)) {
      assert OrphanKept(a.nodes[n], At(b, n));
    }
  }

  // ---------------------------------------------------------------- counts

  /** Only node `n` changes. */
  lemma OneNode(s: State, s': State, n: NodeId)
    requires Bounded(s) && n in s.nodes && s'.next == s.next && s'.nodes - {n} == s.nodes - {n}
    requires s.nodes[n].owner.None? ==> OrphanKept(s.nodes[n], At(s', n))
    ensures OrphansKept(s, s')
  {
    forall m | m in s'.nodes && m != n ensures m in s.nodes { assert m in s'.nodes - {n}; }
    forall m | m in s.nodes && s.nodes[m].owner.None? ensures OrphanKept(s.nodes[m], At(s', m)) {
      if m != n { assert m in s.nodes - {n} && (s'.nodes - {n})[m] == s'.nodes[m]; }
    }
  }

  lemma UpdateOrphans(s: State, n: NodeId, strong: bool, inc: bool, internal: bool, thr: Option<Caller>)
    requires Bounded(s) && n in s.nodes && s.nodes[n].owner.Some?
    ensures OrphansKept(s, UpdateRefs(s, n, strong, inc, internal, thr).0)
  {
    var nd := Counted(s.nodes[n], strong, inc, internal);
    if nd.Some? { assert s.nodes[n := Told(s.nodes[n], nd.value, thr)] - {n} == s.nodes - {n}; }
    OneNode(s, UpdateRefs(s, n, strong, inc, internal, thr).0, n);
  }

  /** A node that lost a handle, and whether it went. */
  lemma LosesHandle(nd: Node, nd': Node, p: Pid)
    requires nd.owner.None? && p in nd.refs && SameButHandles(nd, nd') && nd'.refs == nd.refs - {p}
    requires nd'.refs == {} ==> nd'.internal == 0
    ensures OrphanKept(nd, if Freeable(nd') then None else Some(nd'))
  {}

  lemma LosesHandleOrphans(s: State, s': State, n: NodeId, nd: Node, p: Pid)
    requires Bounded(s) && n in s.nodes && p in s.nodes[n].refs && s'.next == s.next
    requires nd.refs == s.nodes[n].refs - {p} && (nd.refs == {} ==> nd.internal == 0)
    requires s.nodes[n].owner.None? ==> SameButHandles(s.nodes[n], nd)
    requires s'.nodes == if Freeable(nd) then s.nodes[n := nd] - {n} else s.nodes[n := nd]
    ensures OrphansKept(s, s')
  {
    if s.nodes[n].owner.None? { LosesHandle(s.nodes[n], nd, p); }
    ChangedNode(s, n, nd);
    OneNode(s, s', n);
  }

  lemma DropOrphans(s: State, p: Pid, d: Desc, strong: bool, thr: Option<Caller>, lost: set<NodeId>)
    requires Inv(s, lost) && p in s.tables && d in s.tables[p] && s.tables[p][d].node in s.nodes
    ensures OrphansKept(s, RefUpdate(s, p, d, strong, false, thr).0)
  {
    LastHandle(s, p, d, lost);
    if Refused(s, p, d, strong, false) {
      RefusedOrphans(s, p, d, strong, thr);
    } else {
      DropRefIs(s, p, d, strong, thr, lost);
      DroppedOrphans(s, RefUpdate(s, p, d, strong, false, thr).0, p, d, strong, thr);
    }
  }

  lemma RefusedOrphans(s: State, p: Pid, d: Desc, strong: bool, thr: Option<Caller>)
    requires Bounded(s) && p in s.tables && d in s.tables[p] && s.tables[p][d].node in s.nodes
    requires Refused(s, p, d, strong, false)
    ensures OrphansKept(s, RefUpdate(s, p, d, strong, false, thr).0)
  {
    SameOrphans(s, s);
  }

  lemma LastHandle(s: State, p: Pid, d: Desc, lost: set<NodeId>)
    requires Inv(s, lost) && p in s.tables && d in s.tables[p]
    ensures Bounded(s) && s.tables[p][d].node in s.nodes
    ensures var nd := s.nodes[s.tables[p][d].node];
      p in nd.refs && (nd.refs - {p} == {} ==> nd.internal == One(s.tables[p][d].strong > 0))
  {
    assert Holds(s, p, d, s.tables[p][d].node);
    OnlyHolder(s, p, d, s.tables[p][d].node, lost);
  }

  lemma DroppedOrphans(s: State, s': State, p: Pid, d: Desc, strong: bool, thr: Option<Caller>)
    requires Bounded(s) && p in s.tables && d in s.tables[p] && s.tables[p][d].node in s.nodes
    requires !Refused(s, p, d, strong, false)
    requires var r := s.tables[p][d]; var nd := s.nodes[r.node];
      && p in nd.refs && (nd.refs - {p} == {} ==> nd.internal == One(r.strong > 0))
      && s' == if Lowered(r, strong).strong + Lowered(r, strong).weak > 0
               then WithRef(s, p, d, Lowered(r, strong), NodeLess(nd, r, strong, thr))
               else MaybeFree(WithoutRef(s, p, d, NodeLess(nd, r, strong, thr).(refs := nd.refs - {p})), r.node)
    ensures OrphansKept(s, s')
  {
    var r := s.tables[p][d];
    var nd' := NodeLess(s.nodes[r.node], r, strong, thr);
    if Lowered(r, strong).strong + Lowered(r, strong).weak > 0 {
      ChangedNode(s, r.node, nd');
      OneNode(s, s', r.node);
    } else {
      LosesHandleOrphans(s, s', r.node, nd'.(refs := nd'.refs - {p}), p);
    }
  }

  lemma ChangedNode(s: State, n: NodeId, nd: Node)
    ensures s.nodes[n := nd] - {n} == s.nodes - {n}
  {}

  lemma TakeOrphans(s: State, p: Pid, n: NodeId, strong: bool, thr: Option<Caller>)
    requires Tables(s) && p in s.tables && n in s.nodes && (s.nodes[n].owner.Some? || s.nodes[n].refs != {})
    ensures OrphansKept(s, TakeRef(s, p, n, strong, thr).0)
  {
    TakeRefIs(s, p, n, strong, thr);
    ChangedNode(s, n, NodeAfter(s, p, n, strong, thr));
    OneNode(s, TakeRef(s, p, n, strong, thr).0, n);
  }

  // ---------------------------------------------------------------- parcels

  lemma TranslateOrphans(s: State, from: Pid, to: Pid, o: Obj, thr: Option<Caller>, mem: Memory, lost: set<NodeId>)
    requires Inv(s, lost) && from in s.tables && to in s.tables
    ensures OrphansKept(s, Translate(s, from, to, o, thr, mem).0)
  {
    match o
    case Binder(_, _, _) =>
      if FindNode(s, from, o.ptr).None? { NewNodeInv(s, from, o.ptr, o.cookie, lost); }
      BinderOrphans(s, from, to, o, thr, mem);
    case Handle(_, _) => HandleOrphans(s, from, to, o, thr, mem);
    case Other(_) =>
  }

  lemma BinderOrphans(s: State, from: Pid, to: Pid, o: Obj, thr: Option<Caller>, mem: Memory)
    requires Bounded(s) && to in s.tables && o.Binder?
    requires Tables(if FindNode(s, from, o.ptr).Some? then s else NewNode(s, from, o.ptr, o.cookie))
    ensures OrphansKept(s, TranslateBinder(s, from, to, o, thr, mem).0)
  {
    SameOrphans(s, s);
    NewOrphans(s, from, o.ptr, o.cookie);
    var found := FindNode(s, from, o.ptr);
    var s1 := if found.Some? then s else NewNode(s, from, o.ptr, o.cookie);
    var n := if found.Some? then found.value else s.next;
    TakenOrphans(s, s1, to, n, o.strong, thr, mem);
  }

  lemma TakenOrphans(s: State, s1: State, to: Pid, n: NodeId, strong: bool, thr: Option<Caller>, mem: Memory)
    requires Bounded(s) && OrphansKept(s, s1) && Tables(s1) && to in s1.tables && n in s1.nodes
    requires s1.nodes[n].owner.Some?
    ensures OrphansKept(s, TakeRefIf(s1, to, n, strong, thr, mem).0)
  {
    TakeOrphans(s1, to, n, strong, thr);
    OrphansTrans(s, s1, TakeRef(s1, to, n, strong, thr).0);
  }

  lemma NewOrphans(s: State, p: Pid, ptr: U64, cookie: U64)
    requires Bounded(s)
    ensures OrphansKept(s, NewNode(s, p, ptr, cookie))
  {}

  lemma HandleOrphans(s: State, from: Pid, to: Pid, o: Obj, thr: Option<Caller>, mem: Memory)
    requires Tables(s) && from in s.tables && to in s.tables && o.Handle?
    ensures OrphansKept(s, TranslateHandle(s, from, to, o, thr, mem).0)
  {
    if o.desc in s.tables[from] {
      var n := s.tables[from][o.desc].node;
      assert Holds(s, from, o.desc, n);
      if s.nodes[n].owner == Some(to) {
        UpdateOrphans(s, n, o.strong, true, false, thr);
      } else {
        TakeOrphans(s, to, n, o.strong, thr);
      }
    }
  }

  lemma {:induction false} TranslateAllOrphans(s: State, from: Pid, to: Pid, os: seq<Obj>, thr: Option<Caller>,
                                               mems: seq<Memory>, lost: set<NodeId>, ever: Option<NodeId>)
    requires Inv(s, lost) && Zero(s, ever) && from in s.tables && to in s.tables && |mems| == |os|
    ensures OrphansKept(s, TranslateAll(s, from, to, os, thr, mems).0)
    decreases |os|
  {
    if os != [] {
      TranslateOrphans(s, from, to, os[0], thr, mems[0], lost);
      TranslateIs(s, from, to, os[0], thr, mems[0], lost, ever);
      var (s1, r) := Translate(s, from, to, os[0], thr, mems[0]);
      if r.Some? {
        TranslateAllOrphans(s1, from, to, os[1..], thr, mems[1..], lost, ever);
        OrphansTrans(s, s1, TranslateAll(s1, from, to, os[1..], thr, mems[1..]).0);
      }
    }
  }

  lemma ReleaseOrphans(s: State, p: Pid, o: Obj, lost: set<NodeId>)
    requires Inv(s, lost)
    ensures OrphansKept(s, Release(s, p, o))
  {
    match o
    case Binder(ptr, _, strong) =>
      var n := FindNode(s, p, ptr);
      if n.Some? { UpdateOrphans(s, n.value, strong, false, false, None); }
    case Handle(d, strong) =>
      if p in s.tables && d in s.tables[p] {
        assert Holds(s, p, d, s.tables[p][d].node);
        DropOrphans(s, p, d, strong, None, lost);
      }
    case Other(_) =>
  }

  lemma {:induction false} ReleaseAllOrphans(s: State, p: Pid, os: seq<Obj>, lost: set<NodeId>)
    requires Inv(s, lost)
    ensures OrphansKept(s, ReleaseAll(s, p, os))
    decreases |os|
  {
    if os != [] {
      ReleaseOrphans(s, p, os[0], lost);
      ReleaseIs(s, p, os[0], lost);
      ReleaseAllOrphans(Release(s, p, os[0]), p, os[1..], lost);
      OrphansTrans(s, Release(s, p, os[0]), ReleaseAll(s, p, os));
    }
  }

  // ---------------------------------------------------------------- closing

  lemma DeleteOrphans(s: State, p: Pid, d: Desc, lost: set<NodeId>)
    requires Inv(s, lost) && p in s.tables && d in s.tables[p] && s.tables[p][d].node in s.nodes
    ensures OrphansKept(s, RefDelete(s, p, d))
  {
    var r := s.tables[p][d];
    assert Holds(s, p, d, r.node);
    OnlyHolder(s, p, d, r.node, lost);
    RefDeleteIs(s, p, d);
    LosesHandleOrphans(s, RefDelete(s, p, d), r.node, NodeDeleted(s.nodes[r.node], p, r), p);
  }

  lemma {:induction false} DeleteEachOrphans(s: State, p: Pid, ds: seq<Desc>, lost: set<NodeId>)
    requires Inv(s, lost) && p in s.tables
    ensures OrphansKept(s, DeleteEach(s, p, ds))
    decreases |ds|
  {
    if ds != [] {
      var d := ds[0];
      if d in s.tables[p] {
        assert Holds(s, p, d, s.tables[p][d].node);
        DeleteOrphans(s, p, d, lost);
        RefDeleteInv(s, p, d, lost);
        DeleteEachOrphans(RefDelete(s, p, d), p, ds[1..], lost);
        OrphansTrans(s, RefDelete(s, p, d), DeleteEach(s, p, ds));
      } else {
        DeleteEachOrphans(s, p, ds[1..], lost);
      }
    }
  }

  /** Objects that die stay if and only if something keeps them, and no other object is touched. */
  lemma {:induction false} DieEachIs(s: State, ns: seq<NodeId>, n: NodeId)
    requires n in s.nodes
    ensures At(DieEach(s, ns), n) ==
      (if n !in ns then Some(s.nodes[n]) else if Freeable(s.nodes[n]) then None else Some(s.nodes[n].(owner := None)))
    decreases |ns|
  {
    if ns != [] {
      var m := ns[0];
      assert ns == [m] + ns[1..];
      var s1 := if m in s.nodes then Die(s, m) else s;
      if n in s1.nodes {
        DieEachIs(s1, ns[1..], n);
      } else {
        DieEachAdds(s1, ns[1..]);
      }
    }
  }

  lemma {:induction false} DieEachAdds(s: State, ns: seq<NodeId>)
    ensures DieEach(s, ns).nodes.Keys <= s.nodes.Keys && DieEach(s, ns).next == s.next
    decreases |ns|
  {
    if ns != [] { DieEachAdds(if ns[0] in s.nodes then Die(s, ns[0]) else s, ns[1..]); }
  }

  /** The objects in `ns` have owners; the others are left alone. */
  lemma DieEachOrphans(s: State, ns: seq<NodeId>)
    requires Bounded(s) && forall n | n in ns && n in s.nodes :: s.nodes[n].owner.Some?
    ensures OrphansKept(s, DieEach(s, ns))
  {
    DieEachAdds(s, ns);
    forall n | n in s.nodes && s.nodes[n].owner.None? ensures OrphanKept(s.nodes[n], At(DieEach(s, ns), n)) {
      DieEachIs(s, ns, n);
    }
  }

  /** The stages of a close, with what they keep. */
  lemma CloseOrphanStages(s0: State, p: Pid, ns: seq<NodeId>, ds: seq<Desc>, lost: set<NodeId>)
    requires Inv(s0, lost) && !Manages(s0, p) && Lists(s0, p, ns, ds)
    ensures var s1 := DieEach(s0, ns);
      var s2 := DeleteEach(s1, p, ds);
      && OrphansKept(s0, s1) && OrphansKept(s1, s2) && OrphansKept(s0, s2) && Inv(s1, lost) && Inv(s2, lost)
      && Closing(s1, s2, p) && s1.tables == s0.tables && s2.tables[p] == map[]
  {
    var s1 := DieEach(s0, ns);
    DieEachInv(s0, p, ns, lost);
    DieEachOrphans(s0, ns);
    DeleteEachInv(s1, p, ds, lost);
    DeleteEachOrphans(s1, p, ds, lost);
    OrphansTrans(s0, s1, DeleteEach(s1, p, ds));
  }

  lemma StepDownOrphans(s: State, p: Pid)
    requires Bounded(s)
    ensures OrphansKept(s, StepDown(s, p))
  {}

  lemma CloseOrphans(s: State, p: Pid, ns: seq<NodeId>, ds: seq<Desc>, lost: set<NodeId>)
    requires Inv(s, lost) && Lists(s, p, ns, ds)
    ensures OrphansKept(s, Close(s, p, ns, ds))
  {
    var s0 := StepDown(s, p);
    StepDownInv(s, p, lost);
    StepDownOrphans(s, p);
    CloseOrphanStages(s0, p, ns, ds, lost + Shaken(s, p));
    var s2 := DeleteEach(DieEach(s0, ns), p, ds);
    OrphansTrans(s, s0, s2);
    UnqueuedOrphans(s, s2, Close(s, p, ns, ds), ns);
  }

  lemma UnqueuedOrphans(s: State, s2: State, s': State, ns: seq<NodeId>)
    requires OrphansKept(s, s2) && s'.nodes == Unqueued(s2, ns).nodes && s'.next == s2.next
    requires forall n | n in ns :: n in s.nodes && s.nodes[n].owner.Some?
    ensures OrphansKept(s, s')
  {
    forall n | n in s.nodes && s.nodes[n].owner.None? ensures OrphanKept(s.nodes[n], At(s', n)) {
      assert OrphanKept(s.nodes[n], At(s2, n)) && n !in ns;
    }
  }

  /** Of the objects of a process that closes, exactly those go that no other process has a handle on, that have no
      count of their owner's, and that the owner neither knew to be held nor had news of. A manager first gives up what
      it held on its own object. */
  lemma CloseFreesIff(s: State, p: Pid, ns: seq<NodeId>, ds: seq<Desc>, n: NodeId, lost: set<NodeId>)
    requires Inv(s, lost) && Lists(s, p, ns, ds) && n in ns
    ensures n !in Close(s, p, ns, ds).nodes <==> !Stuck(StepDown(s, p).nodes[n]) && NoOther(s, n, p)
    ensures n in Close(s, p, ns, ds).nodes ==>
      SameButHandles(StepDown(s, p).nodes[n].(owner := None, queue := None), Close(s, p, ns, ds).nodes[n])
  {
    var s0 := StepDown(s, p);
    StepDownInv(s, p, lost);
    var lost' := lost + Shaken(s, p);
    CloseOrphanStages(s0, p, ns, ds, lost');
    var s1 := DieEach(s0, ns);
    var s2 := DeleteEach(s1, p, ds);
    DieEachIs(s0, ns, n);
    assert NoOther(s, n, p) <==> NoOther(s0, n, p) by {
      assert forall q, d :: Holds(s0, q, d, n) <==> Holds(s, q, d, n);
    }
    if Freeable(s0.nodes[n]) {
      assert n !in s1.nodes && n !in s2.nodes;
      UnheldIff(s0, n, lost');
    } else {
      assert OrphanKept(s1.nodes[n], At(s2, n));
      DeletedAll(s0, s1, s2, p, n, lost');
    }
  }

  /** The same of the state as it is when the process closes. A manager lets go of its own object together with the role,
      whatever it held on it and was told, so that object goes unless another process has a handle on it or it is queued. */
  lemma CloseFrees(s: State, p: Pid, ns: seq<NodeId>, ds: seq<Desc>, n: NodeId, lost: set<NodeId>)
    requires Inv(s, lost) && Lists(s, p, ns, ds) && n in ns
    ensures var s' := Close(s, p, ns, ds);
      var nd := s.nodes[n];
      && (s.mgr == Some(n) ==> s'.mgr.None?)
      && (n !in s'.nodes <==>
            && NoOther(s, n, p) && nd.tmp == 0 && nd.queue.None?
            && (s.mgr == Some(n) || (nd.localStrong == 0 && nd.localWeak == 0 && !nd.hasStrong && !nd.hasWeak)))
  {
    CloseFreesIff(s, p, ns, ds, n, lost);
    CloseInv(s, p, ns, ds, lost);
  }

  lemma DeletedAll(s0: State, s1: State, s2: State, p: Pid, n: NodeId, lost: set<NodeId>)
    requires Inv(s0, lost) && Inv(s1, lost) && Inv(s2, lost) && s1.tables == s0.tables && Closing(s1, s2, p)
    requires p in s2.tables && s2.tables[p] == map[] && n in s0.nodes && n in s1.nodes && !Freeable(s0.nodes[n])
    requires s1.nodes[n] == s0.nodes[n].(owner := None) && OrphanKept(s1.nodes[n], At(s2, n))
    ensures n !in s2.nodes <==> !Stuck(s0.nodes[n]) && NoOther(s0, n, p)
  {
    if n in s2.nodes && !Stuck(s0.nodes[n]) {
      UnheldIff(s1, n, lost);
      assert s1.nodes[n].refs != {};
      var q :| q in s2.nodes[n].refs;
      var d :| Holds(s2, q, d, n);
      assert q != p && Holds(s0, q, d, n);
    }
    if !NoOther(s0, n, p) {
      var q, d :| Holds(s0, q, d, n) && q != p;
      assert Holds(s2, q, d, n);
    }
  }

  // ---------------------------------------------------------------- every run

  lemma SendOrphans(h: History, from: Pid, to: Pid, os: seq<Obj>, thr: Option<Caller>, mems: seq<Memory>, memory: bool)
    requires Sound(h) && from in h.s.tables && to in h.s.tables && |mems| == |os|
    ensures OrphansKept(h.s, SendStep(h, from, to, os, thr, mems, memory).s)
  {
    var (s1, rs) := TranslateAll(h.s, from, to, os, thr, mems);
    TranslateAllOrphans(h.s, from, to, os, thr, mems, h.lost, h.ever);
    if |rs| <= |os| && !(|rs| == |os| && memory) {
      TranslateAllIs(h.s, from, to, os, thr, mems, h.lost, h.ever);
      ReleaseAllOrphans(s1, to, Remains(os, rs), h.lost);
      OrphansTrans(h.s, s1, ReleaseAll(s1, to, Remains(os, rs)));
    }
  }

  lemma CommandOrphans(s: State, p: Pid, d: Desc, strong: bool, inc: bool, thr: Option<Caller>, memory: bool,
                       lost: set<NodeId>)
    requires Inv(s, lost) && p in s.tables
    ensures OrphansKept(s, RefCmd(s, p, d, strong, inc, thr, memory).0)
  {
    if d in s.tables[p] { assert Holds(s, p, d, s.tables[p][d].node); }
    if inc {
      AcquireOrphans(s, p, d, strong, thr, memory);
    } else if d in s.tables[p] {
      DropOrphans(s, p, d, strong, thr, lost);
    }
  }

  lemma AcquireOrphans(s: State, p: Pid, d: Desc, strong: bool, thr: Option<Caller>, memory: bool)
    requires Tables(s) && Owners(s) && p in s.tables
    ensures OrphansKept(s, RefCmd(s, p, d, strong, true, thr, memory).0)
  {
    if d in s.tables[p] {
      var n := s.tables[p][d].node;
      assert Holds(s, p, d, n) && FindDesc(s, p, n) == Some(d);
      TakeOrphans(s, p, n, strong, thr);
    } else if s.mgr.Some? {
      TakeOrphans(s, p, s.mgr.value, strong, thr);
    }
  }

  lemma RegisterOrphans(s: State, p: Pid, ptr: U64, cookie: U64)
    requires Bounded(s)
    ensures OrphansKept(s, Register(s, p, ptr, cookie))
  {}

  lemma ReadOrphans(s: State, n: NodeId, room: nat, threads: Threads)
    requires Bounded(s) && Routed(s, threads, []) && n in s.nodes && s.nodes[n].queue.Some?
    ensures OrphansKept(s, ReadNode(s, n, room).0)
  {
    assert RoutedNode(s.nodes[n], threads);
  }

  lemma ExitOrphans(s: State, tid: Tid, threads: Threads)
    requires Bounded(s) && Routed(s, threads, [])
    ensures OrphansKept(s, ThreadExit(s, tid))
  {
    forall n | n in s.nodes && s.nodes[n].owner.None? ensures s.nodes[n].queue.None? {
      assert RoutedNode(s.nodes[n], threads);
    }
  }

  lemma SameOrphans(s: State, s': State)
    requires Bounded(s) && s'.nodes == s.nodes && s'.next == s.next
    ensures OrphansKept(s, s')
  {}

  lemma ManagerOrphans(h: History, p: Pid, ptr: U64, cookie: U64, memory: bool)
    requires Bounded(h.s) && May(h, SetManager(p, ptr, cookie, memory))
    ensures OrphansKept(h.s, Step(h, SetManager(p, ptr, cookie, memory)).s)
  {
    SameOrphans(h.s, h.s);
    RegisterOrphans(h.s, p, ptr, cookie);
  }

  lemma StepOrphans(h: History, op: Op, s': State)
    requires Sound(h) && May(h, op) && s' == Step(h, op).s
    ensures OrphansKept(h.s, s')
  {
    match op
    case Send(from, to, os, thr, mems, memory) => SendOrphans(h, from, to, os, thr, mems, memory);
    case FreeBuffer(i) => ReleaseAllOrphans(h.s, h.live[i].p, h.live[i].os, h.lost);
    case RefCommand(p, d, strong, inc, thr, memory) => CommandOrphans(h.s, p, d, strong, inc, thr, memory, h.lost);
    case SetManager(p, ptr, cookie, memory) => ManagerOrphans(h, p, ptr, cookie, memory);
    case NewThread(_, _) => SameOrphans(h.s, s');
    case Read(n, room, _) => ReadOrphans(h.s, n, room, h.threads);
    case ExitThread(tid) => ExitOrphans(h.s, tid, h.threads);
    case OpenProc(_) => SameOrphans(h.s, s');
    case CloseProc(p, nodes, descs) => CloseOrphans(h.s, p, nodes, descs, h.lost);
  }

  ghost predicate Held(s: State, n: NodeId) { exists p, d :: Holds(s, p, d, n) }

  /** In every run an object without an owner is there for as long as somebody has a handle on it. It is there for ever
      if its owner had a count on it or was told of one, or if nobody had a handle on it when its owner went. */
  lemma {:induction false} OrphanLives(hs: seq<History>, ops: seq<Op>, i: nat, j: nat, n: NodeId)
    requires Run(hs, ops) && i <= j < |hs| && n in hs[i].s.nodes && hs[i].s.nodes[n].owner.None?
    ensures hs[i].s.next <= hs[j].s.next
    ensures n in hs[j].s.nodes <==> Stuck(hs[i].s.nodes[n]) || !Held(hs[i].s, n) || Held(hs[j].s, n)
    ensures n in hs[j].s.nodes ==> SameButHandles(hs[i].s.nodes[n], hs[j].s.nodes[n])
    ensures !Held(hs[i].s, n) ==> !Held(hs[j].s, n)
    decreases j
  {
    EveryRun(hs, ops, i);
    EveryRun(hs, ops, j);
    if i < j {
      OrphanLives(hs, ops, i, j - 1, n);
      assert StepsTo(hs[j - 1], ops[j - 1], hs[j - 1 + 1]);
      EveryRun(hs, ops, j - 1);
      StepOrphans(hs[j - 1], ops[j - 1], hs[j].s);
      OrphanNext(hs[i], hs[j - 1], hs[j], n);
    }
  }

  lemma OrphanNext(h0: History, h: History, h': History, n: NodeId)
    requires Bounded(h0.s) && Tables(h.s) && Tables(h'.s) && OrphansKept(h.s, h'.s) && h0.s.next <= h.s.next
    requires n in h0.s.nodes && h0.s.nodes[n].owner.None?
    requires n in h.s.nodes <==> Stuck(h0.s.nodes[n]) || !Held(h0.s, n) || Held(h.s, n)
    requires n in h.s.nodes ==> SameButHandles(h0.s.nodes[n], h.s.nodes[n])
    requires !Held(h0.s, n) ==> !Held(h.s, n)
    ensures n in h'.s.nodes <==> Stuck(h0.s.nodes[n]) || !Held(h0.s, n) || Held(h'.s, n)
    ensures n in h'.s.nodes ==> SameButHandles(h0.s.nodes[n], h'.s.nodes[n])
    ensures !Held(h0.s, n) ==> !Held(h'.s, n)
  {
    HeldIs(h.s, n);
    HeldIs(h'.s, n);
    if n in h.s.nodes { assert OrphanKept(h.s.nodes[n], At(h'.s, n)); }
  }

  lemma HeldIs(s: State, n: NodeId)
    requires Tables(s)
    ensures Held(s, n) <==> n in s.nodes && s.nodes[n].refs != {}
  {
    if n in s.nodes && s.nodes[n].refs != {} {
      var p :| p in s.nodes[n].refs;
      var d :| Holds(s, p, d, n);
    }
  }

  /** The owner had a count on the object, or knew of one. */
  predicate Remembered(nd: Node) { Stuck(nd.(queue := None)) }

  /** In every run, what becomes of an object whose owner closes: it is there for as long as somebody has a handle on it,
      and for ever if the owner had a count on it or knew of one, or had news of it while nobody else had a handle. */
  lemma ObjectFate(hs: seq<History>, ops: seq<Op>, i: nat, j: nat, n: NodeId)
    requires Run(hs, ops) && i < j < |hs| && ops[i].CloseProc? && n in ops[i].nodes
    ensures n in StepDown(hs[i].s, ops[i].p).nodes
    ensures var nd := StepDown(hs[i].s, ops[i].p).nodes[n];
      n in hs[j].s.nodes <==>
        Remembered(nd) || (nd.queue.Some? && NoOther(hs[i].s, n, ops[i].p)) || Held(hs[j].s, n)
  {
    EveryRun(hs, ops, i);
    assert StepsTo(hs[i], ops[i], hs[i + 1]);
    CloseFate(hs[i].s, hs[i + 1].s, ops[i].p, ops[i].nodes, ops[i].descs, n, hs[i].lost);
    if n in hs[i + 1].s.nodes {
      OrphanLives(hs, ops, i + 1, j, n);
    } else {
      GoneStays(hs, ops, i + 1, j, n);
    }
  }

  lemma CloseFate(s: State, s': State, p: Pid, ns: seq<NodeId>, ds: seq<Desc>, n: NodeId, lost: set<NodeId>)
    requires Inv(s, lost) && Lists(s, p, ns, ds) && n in ns && s' == Close(s, p, ns, ds)
    ensures n in StepDown(s, p).nodes && n < s'.next && (Held(s', n) <==> !NoOther(s, n, p))
    ensures n !in s'.nodes <==> !Stuck(StepDown(s, p).nodes[n]) && NoOther(s, n, p)
    ensures n in s'.nodes ==> s'.nodes[n].owner.None? && (Stuck(s'.nodes[n]) <==> Remembered(StepDown(s, p).nodes[n]))
  {
    CloseFreesIff(s, p, ns, ds, n, lost);
    CloseInv(s, p, ns, ds, lost);
    HeldAfter(s, s', p, n);
  }

  lemma HeldAfter(s: State, s': State, p: Pid, n: NodeId)
    requires s'.tables == s.tables - {p}
    ensures Held(s', n) <==> !NoOther(s, n, p)
  {
    if q, d :| Holds(s, q, d, n) && q != p { assert Holds(s', q, d, n); }
    if q, d :| Holds(s', q, d, n) { assert Holds(s, q, d, n); }
  }

  /** An object that is gone does not come back, and nobody has a handle on it. */
  lemma {:induction false} GoneStays(hs: seq<History>, ops: seq<Op>, i: nat, j: nat, n: NodeId)
    requires Run(hs, ops) && i <= j < |hs| && n !in hs[i].s.nodes && n < hs[i].s.next
    ensures n !in hs[j].s.nodes && n < hs[j].s.next && !Held(hs[j].s, n)
    decreases j
  {
    if i < j {
      GoneStays(hs, ops, i, j - 1, n);
      EveryRun(hs, ops, j - 1);
      assert StepsTo(hs[j - 1], ops[j - 1], hs[j - 1 + 1]);
      StepGone(hs[j - 1], ops[j - 1], hs[j], n);
    }
    EveryRun(hs, ops, j);
    HeldIs(hs[j].s, n);
  }

  lemma StepGone(h: History, op: Op, h': History, n: NodeId)
    requires Sound(h) && StepsTo(h, op, h') && n !in h.s.nodes && n < h.s.next
    ensures n !in h'.s.nodes && n < h'.s.next
  {
    StepOrphans(h, op, h'.s);
  }
}
