/**
What becomes of objects and handles when threads and processes go: binder_thread_release drops the
news its queue held (kext/binder_proc.c:247-267), and binder_proc_release steps down as manager,
orphans its objects, deletes its handles and empties its queues, in that order
(kext/binder_proc.c:308-399).
*/
module RefClose {
  import opened Common
  import opened RefCounts
  import opened RefHandles
  import opened Transfer
  import opened Parcels

  /** The process a count belongs to. */
  function HolderOf(k: Key): Option<Pid> {
    match k
    case RefKey(p, _, _) => Some(p)
    case LocalKey(p, _, _) => Some(p)
    case NoKey => None
  }

  /** Every count but those of process `p` is as it was. */
  ghost predicate CountsBut(s: State, s': State, p: Pid) {
    forall k | HolderOf(k) != Some(p) :: Count(s', k) == Count(s, k)
  }

  // ---------------------------------------------------------------- a thread goes

  predicate QueuedOn(nd: Node, tid: Tid) { nd.queue == Some(ThreadQueue(tid)) }

  /** The node items on the thread's queue are unlinked and nothing more. */
  function ThreadExit(s: State, tid: Tid): State {
    s.(nodes := map n | n in s.nodes :: if QueuedOn(s.nodes[n], tid) then s.nodes[n].(queue := None) else s.nodes[n])
  }

  ghost function NewsOn(s: State, tid: Tid): set<NodeId> {
    set n | n in s.nodes && QueuedOn(s.nodes[n], tid)
  }

  /** The same handles, owners and counts, with other queueing. */
  ghost predicate Requeued(s: State, s': State) {
    && s'.tables == s.tables && s'.mgr == s.mgr && s'.next == s.next && s'.nodes.Keys == s.nodes.Keys
    && forall n | n in s.nodes :: s'.nodes[n] == s.nodes[n].(queue := s'.nodes[n].queue)
  }

  lemma RequeuedInv(s: State, s': State, lost: set<NodeId>, lost': set<NodeId>)
    requires Inv(s, lost) && Requeued(s, s') && News(s', lost')
    ensures Inv(s', lost') && SameCounts(s, s')
  {
    RequeuedTables(s, s');
    SameHolders(s, s');
    RequeuedCounts(s, s');
  }

  lemma RequeuedTables(s: State, s': State)
    requires Tables(s) && Counting(s) && Requeued(s, s')
    ensures Tables(s') && Counting(s')
  {
    forall p, d, n ensures Holds(s', p, d, n) <==> Holds(s, p, d, n) {}
  }

  lemma RequeuedCounts(s: State, s': State)
    requires Owners(s) && Requeued(s, s')
    ensures Owners(s') && SameCounts(s, s')
  {
    forall p, ptr, n ensures Owns(s', p, ptr, n) <==> Owns(s, p, ptr, n) {}
    assert SameLocals(s, s');
    forall k ensures Count(s', k) == Count(s, k) {
      if k.LocalKey? { LocalSame(s, s', k.p, k.ptr, k.strong); }
    }
  }

  /** Only the news that was on the thread's own queue is lost. */
  lemma ThreadExitInv(s: State, tid: Tid, lost: set<NodeId>)
    requires Inv(s, lost)
    ensures Inv(ThreadExit(s, tid), lost + NewsOn(s, tid)) && SameCounts(s, ThreadExit(s, tid))
  {
    var s' := ThreadExit(s, tid);
    ThreadExitNews(s, tid, lost);
    RequeuedInv(s, s', lost, lost + NewsOn(s, tid));
  }

  lemma ThreadExitNews(s: State, tid: Tid, lost: set<NodeId>)
    requires News(s, lost)
    ensures News(ThreadExit(s, tid), lost + NewsOn(s, tid))
  {
    forall n | n in s.nodes ensures NodeOk(n, ThreadExit(s, tid).nodes[n], lost + NewsOn(s, tid)) {
      assert NodeOk(n, s.nodes[n], lost);
    }
  }

  // ---------------------------------------------------------------- a process goes

  /** The manager's node belongs to `p`. */
  predicate Manages(s: State, p: Pid) {
    s.mgr.Some? && s.mgr.value in s.nodes && s.nodes[s.mgr.value].owner == Some(p)
  }

  /** A manager gives up the role and the two references it held on itself. */
  function Resigned(nd: Node): Node {
    nd.(localStrong := 0, localWeak := 0, hasStrong := false, hasWeak := false)
  }

  function StepDown(s: State, p: Pid): State {
    if Manages(s, p) then s.(mgr := None, nodes := s.nodes[s.mgr.value := Resigned(s.nodes[s.mgr.value])]) else s
  }

  /** binder_node_died and binder_node_release. */
  function Die(s: State, n: NodeId): State
    requires n in s.nodes
  {
    MaybeFree(s.(nodes := s.nodes[n := s.nodes[n].(owner := None)]), n)
  }

  function DieEach(s: State, ns: seq<NodeId>): State
    decreases |ns|
  {
    if ns == [] then s else DieEach(if ns[0] in s.nodes then Die(s, ns[0]) else s, ns[1..])
  }

  function DeleteEach(s: State, p: Pid, ds: seq<Desc>): State
    decreases |ds|
  {
    if ds == [] then s
    else
      DeleteEach(if p in s.tables && ds[0] in s.tables[p] && s.tables[p][ds[0]].node in s.nodes
                 then RefDelete(s, p, ds[0]) else s, p, ds[1..])
  }

  /** The queues of the process are emptied; its own nodes can be on no other. */
  function Unqueued(s: State, ns: seq<NodeId>): State {
    s.(nodes := map n | n in s.nodes :: if n in ns then s.nodes[n].(queue := None) else s.nodes[n])
  }

  /** binder_proc_release, as far as objects and handles go, for a process with these lists of both. */
  function Close(s: State, p: Pid, ns: seq<NodeId>, ds: seq<Desc>): State {
    var s3 := Unqueued(DeleteEach(DieEach(StepDown(s, p), ns), p, ds), ns);
    s3.(tables := s3.tables - {p})
  }

  /** `ns` are the objects and `ds` the handles of `p`. */
  ghost predicate Lists(s: State, p: Pid, ns: seq<NodeId>, ds: seq<Desc>) {
    && p in s.tables && (forall n :: n in ns <==> n in s.nodes && s.nodes[n].owner == Some(p))
    && (forall d :: d in ds <==> d in s.tables[p])
  }

  ghost predicate OwnsNothing(s: State, p: Pid) {
    forall n | n in s.nodes :: s.nodes[n].owner != Some(p)
  }

  /** No node of `ns` that is left has an owner. */
  ghost predicate Ownerless(s: State, ns: seq<NodeId>) {
    forall n | n in ns && n in s.nodes :: s.nodes[n].owner.None?
  }

  // ---------------------------------------------------------------- what closing leaves alone

  predicate SameFlags(nd: Node, nd': Node) { nd'.hasStrong == nd.hasStrong && nd'.hasWeak == nd.hasWeak }

  /** The owner is the same, or was `p` and is gone. */
  predicate OwnerLeft(nd: Node, nd': Node, p: Pid) {
    nd'.ptr == nd.ptr && (nd'.owner == nd.owner || (nd.owner == Some(p) && nd'.owner.None?))
  }

  /** Nothing came, flags are as they were, no owner but `p` has left, and the manager is the same or gone. */
  ghost predicate Left(s: State, s': State, p: Pid) {
    && s'.nodes.Keys <= s.nodes.Keys && s'.next == s.next && (s'.mgr == s.mgr || s'.mgr == None)
    && forall n | n in s'.nodes :: OwnerLeft(s.nodes[n], s'.nodes[n], p) && SameFlags(s.nodes[n], s'.nodes[n])
  }

  /** A step of closing `p`: it touches nobody else's counts or handles. */
  ghost predicate Closing(s: State, s': State, p: Pid) {
    && Left(s, s', p) && CountsBut(s, s', p) && s'.tables.Keys == s.tables.Keys
    && forall q | q in s.tables && q != p :: s'.tables[q] == s.tables[q]
  }

  lemma ClosingTrans(a: State, b: State, c: State, p: Pid)
    requires Closing(a, b, p) && Closing(b, c, p)
    ensures Closing(a, c, p)
  {}

  lemma ClosingOwned(s: State, s': State, p: Pid, ns: seq<NodeId>)
    requires Closing(s, s', p) && Ownerless(s, ns)
    ensures Ownerless(s', ns) && (OwnsNothing(s, p) ==> OwnsNothing(s', p))
  {}

  // ---------------------------------------------------------------- stepping down

  /** A manager that has stepped down may know less than the truth until it is gone. */
  ghost function Shaken(s: State, p: Pid): set<NodeId> { if Manages(s, p) then {s.mgr.value} else {} }

  lemma LostMore(s: State, lost: set<NodeId>, lost': set<NodeId>)
    requires Inv(s, lost) && lost <= lost'
    ensures Inv(s, lost')
  {
    forall n | n in s.nodes ensures NodeOk(n, s.nodes[n], lost') { assert NodeOk(n, s.nodes[n], lost); }
  }

  lemma NoManager(s: State, lost: set<NodeId>)
    requires Inv(s, lost)
    ensures Inv(s.(mgr := None), lost) && SameCounts(s, s.(mgr := None))
  {
    var s' := s.(mgr := None);
    forall p, d, n ensures Holds(s', p, d, n) <==> Holds(s, p, d, n) {}
    SameHolders(s, s');
    forall p, ptr, n ensures Owns(s', p, ptr, n) <==> Owns(s, p, ptr, n) {}
    assert SameLocals(s, s');
    forall k ensures Count(s', k) == Count(s, k) {
      if k.LocalKey? { LocalSame(s, s', k.p, k.ptr, k.strong); }
    }
  }

  /** One of the process's own nodes changes, as nobody else can tell. */
  lemma OwnNodeCounts(s: State, s': State, n: NodeId, p: Pid)
    requires Owners(s) && Owners(s') && n in s.nodes && s'.tables == s.tables && s'.nodes.Keys == s.nodes.Keys
    requires s.nodes[n].owner != None ==> s.nodes[n].owner == Some(p)
    requires OwnerLeft(s.nodes[n], s'.nodes[n], p) && forall m | m in s.nodes && m != n :: s'.nodes[m] == s.nodes[m]
    ensures CountsBut(s, s', p)
  {
    forall k | HolderOf(k) != Some(p) ensures Count(s', k) == Count(s, k) {
      if k.LocalKey? {
        forall m ensures Owns(s', k.p, k.ptr, m) <==> Owns(s, k.p, k.ptr, m) {}
        if m :| Owns(s, k.p, k.ptr, m) { FindNodeIs(s, k.p, k.ptr, m); FindNodeIs(s', k.p, k.ptr, m); }
      }
    }
  }

  lemma StepDownInv(s: State, p: Pid, lost: set<NodeId>)
    requires Inv(s, lost)
    ensures Inv(StepDown(s, p), lost + Shaken(s, p)) && CountsBut(s, StepDown(s, p), p)
    ensures StepDown(s, p).tables == s.tables && !Manages(StepDown(s, p), p)
  {
    if Manages(s, p) {
      var m := s.mgr.value;
      var s1 := s.(nodes := s.nodes[m := Resigned(s.nodes[m])]);
      LostMore(s, lost, lost + {m});
      SetNodeInv(s, m, Resigned(s.nodes[m]), lost + {m});
      OwnNodeCounts(s, s1, m, p);
      NoManager(s1, lost + {m});
    }
  }

  // ---------------------------------------------------------------- objects dying

  lemma OrphanTables(s: State, n: NodeId)
    requires Tables(s) && n in s.nodes
    ensures Tables(s.(nodes := s.nodes[n := s.nodes[n].(owner := None)]))
  {
    SetNodeTables(s, n, s.nodes[n].(owner := None));
  }

  lemma OrphanOwners(s: State, n: NodeId)
    requires Owners(s) && n in s.nodes && s.mgr != Some(n)
    ensures Owners(s.(nodes := s.nodes[n := s.nodes[n].(owner := None)]))
  {
    var s' := s.(nodes := s.nodes[n := s.nodes[n].(owner := None)]);
    forall q, ptr, m | Owns(s', q, ptr, m) ensures Owns(s, q, ptr, m) {}
  }

  lemma OrphanInv(s: State, n: NodeId, lost: set<NodeId>)
    requires Inv(s, lost) && n in s.nodes && s.mgr != Some(n)
    ensures Inv(s.(nodes := s.nodes[n := s.nodes[n].(owner := None)]), lost)
  {
    var s' := s.(nodes := s.nodes[n := s.nodes[n].(owner := None)]);
    OrphanTables(s, n);
    SameHolders(s, s');
    OrphanOwners(s, n);
    forall m | m in s'.nodes ensures NodeOk(m, s'.nodes[m], lost) { assert NodeOk(m, s.nodes[m], lost); }
  }

  lemma MaybeFreeClosing(s: State, p: Pid, n: NodeId, lost: set<NodeId>)
    requires Inv(s, lost) && n in s.nodes
    ensures Inv(MaybeFree(s, n), lost) && Closing(s, MaybeFree(s, n), p)
  {
    MaybeFreeInv(s, n, lost);
    MaybeFreeCounts(s, n);
  }

  lemma DieClosing(s: State, p: Pid, n: NodeId, lost: set<NodeId>)
    requires Inv(s, lost) && n in s.nodes && s.mgr != Some(n)
    requires s.nodes[n].owner != None ==> s.nodes[n].owner == Some(p)
    ensures var s' := Die(s, n);
      && Inv(s', lost) && Closing(s, s', p) && s'.tables == s.tables && s'.mgr == s.mgr
      && (n in s'.nodes ==> s'.nodes[n].owner.None?)
  {
    var s1 := s.(nodes := s.nodes[n := s.nodes[n].(owner := None)]);
    OrphanInv(s, n, lost);
    OrphanClosing(s, s1, p, n);
    MaybeFreeClosing(s1, p, n, lost);
    ClosingTrans(s, s1, Die(s, n), p);
  }

  lemma OrphanClosing(s: State, s': State, p: Pid, n: NodeId)
    requires Owners(s) && Owners(s') && n in s.nodes && s' == s.(nodes := s.nodes[n := s.nodes[n].(owner := None)])
    requires s.nodes[n].owner != None ==> s.nodes[n].owner == Some(p)
    ensures Closing(s, s', p)
  {
    OwnNodeCounts(s, s', n, p);
  }

  /** All objects of the process die, one after another. */
  lemma {:induction false} DieEachInv(s: State, p: Pid, ns: seq<NodeId>, lost: set<NodeId>)
    requires Inv(s, lost) && !Manages(s, p)
    requires forall n | n in ns && n in s.nodes :: s.nodes[n].owner != None ==> s.nodes[n].owner == Some(p)
    ensures var s' := DieEach(s, ns); Inv(s', lost) && Closing(s, s', p) && s'.tables == s.tables && Ownerless(s', ns)
    decreases |ns|
  {
    if ns != [] {
      var n := ns[0];
      assert n in ns && ns == [n] + ns[1..];
      if n in s.nodes {
        assert s.mgr != Some(n);
        DieClosing(s, p, n, lost);
        DieEachInv(Die(s, n), p, ns[1..], lost);
        ClosingTrans(s, Die(s, n), DieEach(s, ns), p);
        ClosingOwned(Die(s, n), DieEach(s, ns), p, [n]);
      } else {
        DieEachInv(s, p, ns[1..], lost);
      }
    }
  }

  // ---------------------------------------------------------------- handles going

  /** Deleting a handle changes no count but that handle's. */
  lemma RefDeleteClosing(s: State, p: Pid, d: Desc, lost: set<NodeId>)
    requires Inv(s, lost) && p in s.tables && d in s.tables[p] && s.tables[p][d].node in s.nodes
    ensures Inv(RefDelete(s, p, d), lost) && Closing(s, RefDelete(s, p, d), p)
    ensures RefDelete(s, p, d).tables[p] == s.tables[p] - {d}
  {
    var r := s.tables[p][d];
    if r.strong > 0 { StrongIsCounted(s, p, d, lost); }
    RefDeleteIs(s, p, d);
    RefDeleteInv(s, p, d, lost);
    DeletedCounts(s, RefDelete(s, p, d), p, d, NodeDeleted(s.nodes[r.node], p, r));
  }

  lemma DeletedCounts(s: State, s': State, p: Pid, d: Desc, nd: Node)
    requires p in s.tables && d in s.tables[p] && s.tables[p][d].node in s.nodes && Owners(s) && Owners(s')
    requires s' == MaybeFree(WithoutRef(s, p, d, nd), s.tables[p][d].node)
    requires var was := s.nodes[s.tables[p][d].node];
      SameOwner(was, nd) && SameFlags(was, nd) && nd.localStrong == was.localStrong && nd.localWeak == was.localWeak
    ensures Closing(s, s', p)
  {
    var s1 := WithoutRef(s, p, d, nd);
    SameOwners(s, s.tables[p][d].node, nd, s1);
    MaybeFreeCounts(s1, s.tables[p][d].node);
    forall k | HolderOf(k) != Some(p) ensures Count(s', k) == Count(s, k) {
      WithoutRefCounts(s, p, d, nd, k);
    }
  }

  lemma {:induction false} DeleteEachInv(s: State, p: Pid, ds: seq<Desc>, lost: set<NodeId>)
    requires Inv(s, lost) && p in s.tables
    ensures var s' := DeleteEach(s, p, ds);
      && Inv(s', lost) && Closing(s, s', p)
      && forall d | d in s'.tables[p] :: d in s.tables[p] && d !in ds
    decreases |ds|
  {
    if ds != [] {
      var d := ds[0];
      assert ds == [d] + ds[1..];
      if d in s.tables[p] {
        assert Holds(s, p, d, s.tables[p][d].node);
        RefDeleteClosing(s, p, d, lost);
        DeleteEachInv(RefDelete(s, p, d), p, ds[1..], lost);
        ClosingTrans(s, RefDelete(s, p, d), DeleteEach(s, p, ds), p);
      } else {
        DeleteEachInv(s, p, ds[1..], lost);
      }
    }
  }

  lemma UnqueuedInv(s: State, p: Pid, ns: seq<NodeId>, lost: set<NodeId>)
    requires Inv(s, lost) && Ownerless(s, ns)
    ensures Inv(Unqueued(s, ns), lost) && Closing(s, Unqueued(s, ns), p)
  {
    UnqueuedNews(s, ns, lost);
    RequeuedInv(s, Unqueued(s, ns), lost, lost);
  }

  lemma UnqueuedNews(s: State, ns: seq<NodeId>, lost: set<NodeId>)
    requires News(s, lost) && Ownerless(s, ns)
    ensures News(Unqueued(s, ns), lost)
  {
    forall n | n in s.nodes ensures NodeOk(n, Unqueued(s, ns).nodes[n], lost) { assert NodeOk(n, s.nodes[n], lost); }
  }

  /** A process with no handles and no objects can be forgotten. */
  lemma ForgetInv(s: State, p: Pid, lost: set<NodeId>)
    requires Inv(s, lost) && p in s.tables && s.tables[p] == map[] && OwnsNothing(s, p)
    ensures Inv(s.(tables := s.tables - {p}), lost)
  {
    var s' := s.(tables := s.tables - {p});
    forall q, d, n ensures Holds(s', q, d, n) <==> Holds(s, q, d, n) {}
    forall n ensures StrongHolders(s', n) == StrongHolders(s, n) {
      forall q ensures StrongHolder(s', q, n) <==> StrongHolder(s, q, n) {
        if StrongHolder(s, q, n) { var d :| Holds(s, q, d, n) && s.tables[q][d].strong > 0; assert Holds(s', q, d, n); }
        if StrongHolder(s', q, n) { var d :| Holds(s', q, d, n) && s'.tables[q][d].strong > 0; assert Holds(s, q, d, n); }
      }
    }
    forall q, ptr, n ensures Owns(s', q, ptr, n) <==> Owns(s, q, ptr, n) {}
  }

  lemma ForgetCounts(s: State, p: Pid)
    requires Owners(s) && Owners(s.(tables := s.tables - {p}))
    ensures CountsBut(s, s.(tables := s.tables - {p}), p)
  {
    var s' := s.(tables := s.tables - {p});
    assert SameLocals(s, s');
    forall k | HolderOf(k) != Some(p) ensures Count(s', k) == Count(s, k) {
      if k.LocalKey? { LocalSame(s, s', k.p, k.ptr, k.strong); }
    }
  }

  // ---------------------------------------------------------------- all of it

  /** From stepping down to the empty queues. */
  lemma CloseStages(s0: State, p: Pid, ns: seq<NodeId>, ds: seq<Desc>, lost: set<NodeId>)
    requires Inv(s0, lost) && !Manages(s0, p) && Lists(s0, p, ns, ds)
    ensures var s3 := Unqueued(DeleteEach(DieEach(s0, ns), p, ds), ns);
      Inv(s3, lost) && Closing(s0, s3, p) && s3.tables[p] == map[] && Ownerless(s3, ns)
  {
    var s1 := DieEach(s0, ns);
    DieEachInv(s0, p, ns, lost);
    var s2 := DeleteEach(s1, p, ds);
    DeleteEachInv(s1, p, ds, lost);
    ClosingOwned(s1, s2, p, ns);
    ClosingTrans(s0, s1, s2, p);
    var s3 := Unqueued(s2, ns);
    UnqueuedInv(s2, p, ns, lost);
    ClosingTrans(s0, s2, s3, p);
    assert s2.tables[p] == map[];
  }

  /** What has no owner owns up to nothing: a manager that stepped down and died knows as much as it needs to. */
  lemma StageEnds(s0: State, s3: State, p: Pid, ns: seq<NodeId>, m: set<NodeId>, lost: set<NodeId>)
    requires Inv(s3, lost + m) && Closing(s0, s3, p) && Ownerless(s3, ns)
    requires forall n | n in s0.nodes && s0.nodes[n].owner == Some(p) :: n in ns
    requires forall n | n in m :: n in ns
    ensures Inv(s3, lost) && OwnsNothing(s3, p)
  {
    forall n | n in s3.nodes ensures NodeOk(n, s3.nodes[n], lost) { assert NodeOk(n, s3.nodes[n], lost + m); }
  }

  lemma CloseForgets(s: State, s0: State, s3: State, p: Pid, lost: set<NodeId>)
    requires p in s3.tables && s3.tables[p] == map[] && s0.tables == s.tables && OwnsNothing(s3, p)
    requires Inv(s3, lost) && CountsBut(s, s0, p) && Closing(s0, s3, p)
    ensures var s' := s3.(tables := s3.tables - {p});
      Inv(s', lost) && CountsBut(s, s', p) && Left(s0, s', p) && s'.tables == s.tables - {p} && OwnsNothing(s', p)
  {
    ForgetInv(s3, p, lost);
    ForgetCounts(s3, p);
    CountsButTrans(s, s0, s3, p);
    CountsButTrans(s, s3, s3.(tables := s3.tables - {p}), p);
  }

  /** A process closes: nobody else's counts or handles change, and it owns nothing any more. */
  lemma CloseInv(s: State, p: Pid, ns: seq<NodeId>, ds: seq<Desc>, lost: set<NodeId>)
    requires Inv(s, lost) && Lists(s, p, ns, ds)
    ensures var s' := Close(s, p, ns, ds);
      && Inv(s', lost) && CountsBut(s, s', p) && Left(StepDown(s, p), s', p)
      && s'.tables == s.tables - {p} && OwnsNothing(s', p)
  {
    var s0 := StepDown(s, p);
    StepDownInv(s, p, lost);
    CloseStages(s0, p, ns, ds, lost + Shaken(s, p));
    var s3 := Unqueued(DeleteEach(DieEach(s0, ns), p, ds), ns);
    StageEnds(s0, s3, p, ns, Shaken(s, p), lost);
    CloseForgets(s, s0, s3, p, lost);
  }

  lemma CountsButTrans(a: State, b: State, c: State, p: Pid)
    requires CountsBut(a, b, p) && CountsBut(b, c, p)
    ensures CountsBut(a, c, p)
  {}
}
