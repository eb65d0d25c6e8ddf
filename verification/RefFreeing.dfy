/**
When a node goes (kext/binder_node.c:115-171): exactly when the last thing that kept it goes, said of the state before
the call. What keeps a node is a handle of some process, a count its owner holds, something its owner was told and has
not been told the end of, and news that is still queued. And when the owner misses that a node is held weakly.
*/
module RefFreeing {
  import opened Common
  import opened RefCounts
  import opened RefHandles
  import opened RefClose
  import opened Reconcile

  /** Only handles and counts can keep the node: its owner knows of nothing and has no news of it coming. */
  predicate Idle(nd: Node) { nd.tmp == 0 && !nd.hasStrong && !nd.hasWeak && nd.queue.None? }

  /** No process but `p` has a handle on `n`. */
  ghost predicate NoOther(s: State, n: NodeId, p: Pid) { forall q, d | Holds(s, q, d, n) :: q == p }

  /** No process has a handle on `n`, and its owner holds no count. */
  ghost predicate Unheld(s: State, n: NodeId)
    requires n in s.nodes
  {
    s.nodes[n].localStrong == 0 && s.nodes[n].localWeak == 0 && forall p, d :: !Holds(s, p, d, n)
  }

  lemma NoHolders(s: State, n: NodeId, lost: set<NodeId>)
    requires Inv(s, lost) && n in s.nodes && forall p, d :: !Holds(s, p, d, n)
    ensures s.nodes[n].refs == {} && s.nodes[n].internal == 0
  {
    forall p ensures p !in s.nodes[n].refs {}
    assert StrongHolders(s, n) == {};
  }

  /** The counts of a node say it is held if and only if somebody holds it. */
  lemma UnheldIff(s: State, n: NodeId, lost: set<NodeId>)
    requires Inv(s, lost) && n in s.nodes
    ensures Unheld(s, n) <==> !Weak(s.nodes[n])
  {
    if Unheld(s, n) { NoHolders(s, n, lost); }
  }

  /** A change of the owner's own counts frees the node if and only if it gives back the last one, nobody has a handle,
      and the owner is gone and took no news with it. A live owner is told instead. */
  lemma LocalFreesIff(s: State, n: NodeId, strong: bool, inc: bool, thr: Option<Caller>, lost: set<NodeId>)
    requires Inv(s, lost) && n in s.nodes && UpdateRefs(s, n, strong, inc, false, thr).1
    ensures var s' := UpdateRefs(s, n, strong, inc, false, thr).0;
      var nd := s.nodes[n];
      && (n !in s'.nodes <==> !inc && nd.localStrong + nd.localWeak == 1 && (forall p, d :: !Holds(s, p, d, n))
                              && nd.owner.None? && Idle(nd))
      && s'.nodes - {n} == s.nodes - {n} && s'.tables == s.tables
  {
    LocalFreeable(s.nodes[n], strong, inc, thr);
    if s.nodes[n].refs == {} {
      forall p, d ensures !Holds(s, p, d, n) {}
    }
    if forall p, d :: !Holds(s, p, d, n) { NoHolders(s, n, lost); }
    assert s.nodes[n := Told(s.nodes[n], Counted(s.nodes[n], strong, inc, false).value, thr)] - {n} == s.nodes - {n};
  }

  lemma LocalFreeable(nd: Node, strong: bool, inc: bool, thr: Option<Caller>)
    requires Counted(nd, strong, inc, false).Some?
    ensures Freeable(Told(nd, Counted(nd, strong, inc, false).value, thr)) <==>
      !inc && nd.localStrong + nd.localWeak == 1 && nd.refs == {} && nd.internal == 0 && nd.owner.None? && Idle(nd)
  {}

  /** Giving back a count of a handle frees its node if and only if it was the last count of the last handle, the owner
      holds none, and the owner is gone or the count was a weak one, of which a live owner is not told. */
  lemma ReleaseFreesIff(s: State, p: Pid, d: Desc, strong: bool, thr: Option<Caller>, lost: set<NodeId>)
    requires Inv(s, lost) && p in s.tables && d in s.tables[p] && s.tables[p][d].node in s.nodes
    requires !Refused(s, p, d, strong, false)
    ensures var s' := RefUpdate(s, p, d, strong, false, thr).0;
      var r := s.tables[p][d];
      var nd := s.nodes[r.node];
      r.node !in s'.nodes <==>
        && r.strong + r.weak == 1 && NoOther(s, r.node, p) && nd.localStrong == 0 && nd.localWeak == 0 && Idle(nd)
        && (nd.owner.None? || !strong)
  {
    var r := s.tables[p][d];
    var n := r.node;
    assert Holds(s, p, d, n);
    OnlyHolder(s, p, d, n, lost);
    if r.strong + r.weak == 1 { LessFreeable(s.nodes[n], p, r, strong, thr); }
    DropRefIs(s, p, d, strong, thr, lost);
  }

  lemma LessFreeable(nd: Node, p: Pid, r: Ref, strong: bool, thr: Option<Caller>)
    requires (if strong then r.strong == 1 && r.weak == 0 else r.strong == 0 && r.weak == 1)
    requires p in nd.refs && (r.strong > 0 ==> nd.internal > 0)
    ensures var nd' := NodeLess(nd, r, strong, thr);
      Freeable(nd'.(refs := nd'.refs - {p})) <==>
        && nd.refs - {p} == {} && nd.internal == One(r.strong > 0) && nd.localStrong == 0 && nd.localWeak == 0
        && Idle(nd) && (nd.owner.None? || !strong)
  {}

  /** The handles on a node are one if and only if nobody else has one, and then its count is that handle's. */
  lemma OnlyHolder(s: State, p: Pid, d: Desc, n: NodeId, lost: set<NodeId>)
    requires Inv(s, lost) && Holds(s, p, d, n)
    ensures NoOther(s, n, p) <==> s.nodes[n].refs - {p} == {}
    ensures s.tables[p][d].strong > 0 ==> s.nodes[n].internal > 0
    ensures NoOther(s, n, p) ==> s.nodes[n].internal == One(s.tables[p][d].strong > 0)
  {
    if NoOther(s, n, p) {
      forall q ensures q !in s.nodes[n].refs - {p} {}
      if s.tables[p][d].strong > 0 {
        assert StrongHolder(s, p, n);
        assert StrongHolders(s, n) == {p};
      } else {
        assert StrongHolders(s, n) == {};
      }
    }
    if s.nodes[n].refs - {p} == {} {
      forall q, e | Holds(s, q, e, n) ensures q == p { assert q !in s.nodes[n].refs - {p}; }
    }
    if s.tables[p][d].strong > 0 { StrongIsCounted(s, p, d, lost); }
  }

  /** So does deleting a handle whatever its counts, as a closing process does. */
  lemma DeleteFreesIff(s: State, p: Pid, d: Desc, lost: set<NodeId>)
    requires Inv(s, lost) && p in s.tables && d in s.tables[p] && s.tables[p][d].node in s.nodes
    ensures var r := s.tables[p][d];
      var nd := s.nodes[r.node];
      r.node !in RefDelete(s, p, d).nodes <==>
        && NoOther(s, r.node, p) && nd.localStrong == 0 && nd.localWeak == 0 && Idle(nd)
        && (nd.owner.None? || r.strong == 0)
  {
    var r := s.tables[p][d];
    assert Holds(s, p, d, r.node);
    OnlyHolder(s, p, d, r.node, lost);
    RefDeleteIs(s, p, d);
  }

  /** Reading frees the node if and only if the owner is told, in that very read, that nobody holds it any more. A node
      that stays is off its queue and its owner knows the truth; without room nothing has happened. */
  lemma ReadFreesIff(s: State, n: NodeId, room: nat, lost: set<NodeId>)
    requires Inv(s, lost) && n in s.nodes
    ensures var (s', cs) := ReadNode(s, n, room);
      var nd := s.nodes[n];
      && (BrDecrefs in cs <==> Fits(nd, room) && nd.hasWeak && Unheld(s, n))
      && (n !in s'.nodes <==> BrDecrefs in cs && nd.tmp == 0)
      && (!Fits(nd, room) ==> s' == s)
      && (Fits(nd, room) && n in s'.nodes ==>
            && s'.nodes[n].queue.None? && (s'.nodes[n].hasWeak <==> !Unheld(s, n))
            && (s'.nodes[n].hasStrong <==> nd.localStrong > 0 || exists p :: StrongHolder(s, p, n)))
      && s'.nodes - {n} == s.nodes - {n} && s'.tables == s.tables
  {
    var nd := s.nodes[n];
    UnheldIff(s, n, lost);
    if p :| StrongHolder(s, p, n) { assert p in StrongHolders(s, n); }
    if nd.internal != 0 {
      var p :| p in StrongHolders(s, n);
      assert StrongHolder(s, p, n);
    }
  }

  /** An owner that goes takes along exactly the nodes that nothing keeps. */
  lemma DieFreesIff(s: State, n: NodeId, lost: set<NodeId>)
    requires Inv(s, lost) && n in s.nodes
    ensures n !in Die(s, n).nodes <==> Unheld(s, n) && Idle(s.nodes[n])
    ensures n in Die(s, n).nodes ==> Die(s, n).nodes[n] == s.nodes[n].(owner := None)
  {
    UnheldIff(s, n, lost);
  }

  // ---------------------------------------------------------------- weak news

  /** A live owner who has been told something else about weak references has the node queued. */
  predicate WeakNews(nd: Node) { nd.owner.Some? && Weak(nd) != nd.hasWeak ==> nd.queue.Some? }

  /** Taking a handle keeps weak news if and only if it is not the first hold on a node of a live owner, taken weakly,
      while the owner knows of none and has nothing queued. */
  lemma TakeWeakNewsIff(s: State, p: Pid, n: NodeId, strong: bool, thr: Option<Caller>, lost: set<NodeId>)
    requires Inv(s, lost) && p in s.tables && n in s.nodes && WeakNews(s.nodes[n])
    ensures var s' := TakeRef(s, p, n, strong, thr).0;
      var nd := s.nodes[n];
      && n in s'.nodes
      && (WeakNews(s'.nodes[n]) <==>
            !(!strong && nd.owner.Some? && Unheld(s, n) && !nd.hasWeak && nd.queue.None?))
  {
    var found := FindDesc(s, p, n);
    if found.Some? {
      assert Holds(s, p, found.value, n) && p in s.nodes[n].refs;
    }
    TakeRefIs(s, p, n, strong, thr);
    UnheldIff(s, n, lost);
    TakenWeakNews(s.nodes[n], p, RefBefore(s, p, n).strong == 0, strong, thr);
  }

  lemma TakenWeakNews(nd: Node, p: Pid, first: bool, strong: bool, thr: Option<Caller>)
    requires WeakNews(nd) && (!first ==> p in nd.refs)
    ensures var linked := nd.(refs := nd.refs + {p});
      WeakNews(if strong && first then Told(linked, linked.(internal := linked.internal + 1), thr) else linked) <==>
        !(!strong && nd.owner.Some? && !Weak(nd) && !nd.hasWeak && nd.queue.None?)
  {}

  /** Giving back a count of a handle keeps weak news if and only if it is not the last hold on a node of a live owner,
      given back weakly, while the owner knows of it and has nothing queued. */
  lemma DropWeakNewsIff(s: State, p: Pid, d: Desc, strong: bool, thr: Option<Caller>, lost: set<NodeId>)
    requires Inv(s, lost) && p in s.tables && d in s.tables[p] && s.tables[p][d].node in s.nodes
    requires !Refused(s, p, d, strong, false) && WeakNews(s.nodes[s.tables[p][d].node])
    ensures var s' := RefUpdate(s, p, d, strong, false, thr).0;
      var r := s.tables[p][d];
      var nd := s.nodes[r.node];
      (r.node in s'.nodes && !WeakNews(s'.nodes[r.node])) <==>
        && !strong && r.strong + r.weak == 1 && NoOther(s, r.node, p) && nd.localStrong == 0 && nd.localWeak == 0
        && nd.owner.Some? && nd.hasWeak && nd.queue.None?
  {
    var r := s.tables[p][d];
    assert Holds(s, p, d, r.node);
    OnlyHolder(s, p, d, r.node, lost);
    LessWeakNews(s.nodes[r.node], p, r, strong, thr);
    DropRefIs(s, p, d, strong, thr, lost);
  }

  lemma LessWeakNews(nd: Node, p: Pid, r: Ref, strong: bool, thr: Option<Caller>)
    requires p in nd.refs && (r.strong > 0 ==> nd.internal > 0) && WeakNews(nd) && FlagsNode(nd)
    requires if strong then r.strong > 0 else r.weak > 0
    ensures var nd' := NodeLess(nd, r, strong, thr);
      && WeakNews(nd')
      && (r.strong + r.weak == 1 ==>
            (!Freeable(nd'.(refs := nd'.refs - {p})) && !WeakNews(nd'.(refs := nd'.refs - {p})) <==>
              && !strong && nd.refs - {p} == {} && nd.internal == One(r.strong > 0)
              && nd.localStrong == 0 && nd.localWeak == 0
              && nd.owner.Some? && nd.hasWeak && nd.queue.None?))
  {}
}
