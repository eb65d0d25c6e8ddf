/**
Taking, dropping and deleting handles keeps the invariant of RefCounts, and changes exactly the one
count it says it changes.
*/
module RefHandles {
  import opened Common
  import opened RefCounts

  // ---------------------------------------------------------------- one handle and its node

  /** `s` with handle `d` of process `p` set to `r`, and its node to `nd`. */
  function WithRef(s: State, p: Pid, d: Desc, r: Ref, nd: Node): State
    requires p in s.tables
  {
    s.(tables := s.tables[p := Put(s.tables[p], d, r)], nodes := s.nodes[r.node := nd])
  }

  /** `s` without handle `d` of process `p`, and its node set to `nd`. */
  function WithoutRef(s: State, p: Pid, d: Desc, nd: Node): State
    requires p in s.tables && d in s.tables[p]
  {
    s.(tables := s.tables[p := s.tables[p] - {d}], nodes := s.nodes[s.tables[p][d].node := nd])
  }

  /** The owner's view of the node, apart from handles. */
  predicate SameOwner(nd: Node, nd': Node) {
    nd'.owner == nd.owner && nd'.ptr == nd.ptr
  }

  function One(b: bool): nat { if b then 1 else 0 }

  lemma WithRefHolds(s: State, p: Pid, d: Desc, r: Ref, nd: Node)
    requires p in s.tables && (Holds(s, p, d, r.node) || d !in s.tables[p])
    ensures forall q, e, m :: Holds(WithRef(s, p, d, r, nd), q, e, m) <==>
      (Holds(s, q, e, m) || (q == p && e == d && m == r.node))
  {}

  lemma WithRefHolders(s: State, p: Pid, d: Desc, r: Ref, nd: Node)
    requires Tables(s) && p in s.tables
    requires Holds(s, p, d, r.node) || (d !in s.tables[p] && forall e :: !Holds(s, p, e, r.node))
    ensures forall m | m != r.node :: StrongHolders(WithRef(s, p, d, r, nd), m) == StrongHolders(s, m)
    ensures StrongHolders(WithRef(s, p, d, r, nd), r.node) ==
      if r.strong > 0 then StrongHolders(s, r.node) + {p} else StrongHolders(s, r.node) - {p}
  {
    var s' := WithRef(s, p, d, r, nd);
    WithRefHolds(s, p, d, r, nd);
    forall q, m ensures StrongHolder(s', q, m) <==>
      (if q == p && m == r.node then r.strong > 0 else StrongHolder(s, q, m))
    {
      if q == p && m == r.node {
        assert Holds(s', p, d, m);
      } else {
        if StrongHolder(s, q, m) {
          var e :| Holds(s, q, e, m) && s.tables[q][e].strong > 0;
          assert Holds(s', q, e, m);
        }
        if StrongHolder(s', q, m) {
          var e :| Holds(s', q, e, m) && s'.tables[q][e].strong > 0;
          assert Holds(s, q, e, m);
        }
      }
    }
  }

  lemma WithRefTables(s: State, p: Pid, d: Desc, r: Ref, nd: Node)
    requires Tables(s) && p in s.tables && r.node in s.nodes && nd.refs == s.nodes[r.node].refs + {p}
    requires Holds(s, p, d, r.node) || (d !in s.tables[p] && forall e :: !Holds(s, p, e, r.node))
    ensures Tables(WithRef(s, p, d, r, nd))
  {
    var s' := WithRef(s, p, d, r, nd);
    WithRefHolds(s, p, d, r, nd);
    forall m, q | m in s'.nodes && q in s'.nodes[m].refs ensures exists e :: Holds(s', q, e, m) {
      if q == p && m == r.node {
        assert Holds(s', p, d, m);
      } else {
        assert q in s.nodes[m].refs;
        var e :| Holds(s, q, e, m);
        assert Holds(s', q, e, m);
      }
    }
  }

  lemma SameOwners(s: State, n: NodeId, nd: Node, s': State)
    requires Owners(s) && n in s.nodes && SameOwner(s.nodes[n], nd) && s'.nodes == s.nodes[n := nd] && s'.mgr == s.mgr
    requires s.tables.Keys <= s'.tables.Keys
    ensures Owners(s')
  {
    forall p, ptr, m ensures Owns(s', p, ptr, m) <==> Owns(s, p, ptr, m) {}
  }

  lemma WithRefInv(s: State, p: Pid, d: Desc, r: Ref, nd: Node, lost: set<NodeId>)
    requires Inv(s, lost) && p in s.tables && r.node in s.nodes && r.strong + r.weak > 0
    requires Holds(s, p, d, r.node) || (d !in s.tables[p] && forall e :: !Holds(s, p, e, r.node))
    requires nd.refs == s.nodes[r.node].refs + {p} && SameOwner(s.nodes[r.node], nd) && NodeOk(r.node, nd, lost)
    requires nd.internal + One(StrongHolder(s, p, r.node)) == s.nodes[r.node].internal + One(r.strong > 0)
    ensures Inv(WithRef(s, p, d, r, nd), lost)
  {
    WithRefTables(s, p, d, r, nd);
    WithRefInternal(s, p, d, r, nd);
    SameOwners(s, r.node, nd, WithRef(s, p, d, r, nd));
  }

  lemma WithRefInternal(s: State, p: Pid, d: Desc, r: Ref, nd: Node)
    requires Tables(s) && Counts(s) && p in s.tables && r.node in s.nodes
    requires Holds(s, p, d, r.node) || (d !in s.tables[p] && forall e :: !Holds(s, p, e, r.node))
    requires nd.internal + One(StrongHolder(s, p, r.node)) == s.nodes[r.node].internal + One(r.strong > 0)
    ensures Counts(WithRef(s, p, d, r, nd))
  {
    WithRefHolders(s, p, d, r, nd);
  }

  lemma WithoutRefHolds(s: State, p: Pid, d: Desc, nd: Node)
    requires p in s.tables && d in s.tables[p]
    ensures forall q, e, m :: Holds(WithoutRef(s, p, d, nd), q, e, m) <==> (Holds(s, q, e, m) && !(q == p && e == d))
  {}

  lemma WithoutRefHolders(s: State, p: Pid, d: Desc, nd: Node)
    requires Tables(s) && p in s.tables && d in s.tables[p]
    ensures forall m | m != s.tables[p][d].node :: StrongHolders(WithoutRef(s, p, d, nd), m) == StrongHolders(s, m)
    ensures StrongHolders(WithoutRef(s, p, d, nd), s.tables[p][d].node) == StrongHolders(s, s.tables[p][d].node) - {p}
  {
    var s' := WithoutRef(s, p, d, nd);
    var n := s.tables[p][d].node;
    assert Holds(s, p, d, n);
    WithoutRefHolds(s, p, d, nd);
    forall q, m ensures StrongHolder(s', q, m) <==> (StrongHolder(s, q, m) && !(q == p && m == n)) {
      if StrongHolder(s, q, m) && !(q == p && m == n) {
        var e :| Holds(s, q, e, m) && s.tables[q][e].strong > 0;
        assert Holds(s', q, e, m);
      }
      if StrongHolder(s', q, m) {
        var e :| Holds(s', q, e, m) && s'.tables[q][e].strong > 0;
        assert Holds(s, q, e, m);
      }
    }
  }

  lemma WithoutRefTables(s: State, p: Pid, d: Desc, nd: Node)
    requires Tables(s) && p in s.tables && d in s.tables[p] && s.tables[p][d].node in s.nodes
    requires nd.refs == s.nodes[s.tables[p][d].node].refs - {p}
    ensures Tables(WithoutRef(s, p, d, nd))
  {
    var s' := WithoutRef(s, p, d, nd);
    var n := s.tables[p][d].node;
    assert Holds(s, p, d, n);
    WithoutRefHolds(s, p, d, nd);
    forall m, q | m in s'.nodes && q in s'.nodes[m].refs ensures exists e :: Holds(s', q, e, m) {
      assert q in s.nodes[m].refs;
      var e :| Holds(s, q, e, m);
      assert Holds(s', q, e, m);
    }
  }

  lemma WithoutRefInv(s: State, p: Pid, d: Desc, nd: Node, lost: set<NodeId>)
    requires Inv(s, lost) && p in s.tables && d in s.tables[p] && s.tables[p][d].node in s.nodes
    requires var was := s.nodes[s.tables[p][d].node];
      && nd.refs == was.refs - {p} && SameOwner(was, nd) && NodeOk(s.tables[p][d].node, nd, lost)
      && nd.internal + One(s.tables[p][d].strong > 0) == was.internal
    ensures Inv(WithoutRef(s, p, d, nd), lost)
  {
    var s' := WithoutRef(s, p, d, nd);
    var n := s.tables[p][d].node;
    assert Holds(s, p, d, n);
    assert StrongHolder(s, p, n) <==> s.tables[p][d].strong > 0;
    WithoutRefTables(s, p, d, nd);
    WithoutRefHolders(s, p, d, nd);
    SameOwners(s, n, nd, s');
  }

  // ---------------------------------------------------------------- taking a handle

  function Bumped(r: Ref, strong: bool): Ref {
    if strong then r.(strong := r.strong + 1) else r.(weak := r.weak + 1)
  }

  function Lowered(r: Ref, strong: bool): Ref
    requires if strong then r.strong > 0 else r.weak > 0
  {
    if strong then r.(strong := r.strong - 1) else r.(weak := r.weak - 1)
  }

  /** binder_ref_get_for_node and an increment, as translation and BC_ACQUIRE do it. */
  ghost function TakeRef(s: State, p: Pid, n: NodeId, strong: bool, thr: Option<Caller>): (State, Desc)
    requires p in s.tables && n in s.nodes
  {
    var (s1, d) := GetRef(s, p, n);
    (RefUpdate(s1, p, d, strong, true, thr).0, d)
  }

  /** The handle `p` has on `n`, or the empty one it would get. */
  ghost function RefBefore(s: State, p: Pid, n: NodeId): Ref {
    var d := FindDesc(s, p, n);
    if d.Some? && p in s.tables && d.value in s.tables[p] then s.tables[p][d.value] else Ref(n, 0, 0)
  }

  /** The node after `p` has taken a handle: linked, and counted if this is the first strong one. */
  ghost function NodeAfter(s: State, p: Pid, n: NodeId, strong: bool, thr: Option<Caller>): Node
    requires n in s.nodes
  {
    var nd := s.nodes[n].(refs := s.nodes[n].refs + {p});
    if strong && RefBefore(s, p, n).strong == 0 then Told(nd, nd.(internal := nd.internal + 1), thr) else nd
  }

  lemma Overwrite(s: State, p: Pid, d: Desc, a: Ref, nda: Node, b: Ref, ndb: Node)
    requires p in s.tables && a.node == b.node
    ensures WithRef(WithRef(s, p, d, a, nda), p, d, b, ndb) == WithRef(s, p, d, b, ndb)
  {
    assert Put(Put(s.tables[p], d, a), d, b) == Put(s.tables[p], d, b);
    assert WithRef(WithRef(s, p, d, a, nda), p, d, b, ndb).tables == WithRef(s, p, d, b, ndb).tables;
  }

  lemma Unchanged(s: State, p: Pid, d: Desc)
    requires p in s.tables && d in s.tables[p] && s.tables[p][d].node in s.nodes
    ensures WithRef(s, p, d, s.tables[p][d], s.nodes[s.tables[p][d].node]) == s
  {
    assert Put(s.tables[p], d, s.tables[p][d]) == s.tables[p];
  }

  /** An increment never frees the node: the handle itself is a reason for it to exist. */
  lemma CountUpIs(s: State, p: Pid, d: Desc, strong: bool, thr: Option<Caller>)
    requires p in s.tables && d in s.tables[p] && s.tables[p][d].node in s.nodes
    requires p in s.nodes[s.tables[p][d].node].refs
    ensures var r := s.tables[p][d]; var nd := s.nodes[r.node];
      RefUpdate(s, p, d, strong, true, thr) ==
        (WithRef(s, p, d, Bumped(r, strong),
                 if strong && r.strong == 0 then Told(nd, nd.(internal := nd.internal + 1), thr) else nd), true)
  {
    var r := s.tables[p][d];
    assert s.nodes == s.nodes[r.node := s.nodes[r.node]];
  }

  lemma TakeRefIs(s: State, p: Pid, n: NodeId, strong: bool, thr: Option<Caller>)
    requires Tables(s) && p in s.tables && n in s.nodes
    ensures var (s', d) := TakeRef(s, p, n, strong, thr);
      && s' == WithRef(s, p, d, Bumped(RefBefore(s, p, n), strong), NodeAfter(s, p, n, strong, thr))
      && (if FindDesc(s, p, n).Some? then Holds(s, p, d, n) && Some(d) == FindDesc(s, p, n)
          else d == NextDesc(s, p, n) && forall e :: !Holds(s, p, e, n))
  {
    var found := FindDesc(s, p, n);
    var (s1, d) := GetRef(s, p, n);
    var linked := s.nodes[n].(refs := s.nodes[n].refs + {p});
    if found.Some? {
      assert Holds(s, p, d, n);
      assert linked == s.nodes[n];
      Unchanged(s, p, d);
    }
    assert s1 == WithRef(s, p, d, RefBefore(s, p, n), linked);
    CountUpIs(s1, p, d, strong, thr);
    Overwrite(s, p, d, RefBefore(s, p, n), linked,
              Bumped(RefBefore(s, p, n), strong), NodeAfter(s, p, n, strong, thr));
  }

  /** Whether a process is a strong holder is what its one handle on the node says. */
  lemma HolderIs(s: State, p: Pid, d: Desc, n: NodeId)
    requires Tables(s) && Holds(s, p, d, n)
    ensures StrongHolder(s, p, n) <==> s.tables[p][d].strong > 0
  {
    if StrongHolder(s, p, n) {
      var e :| Holds(s, p, e, n) && s.tables[p][e].strong > 0;
      assert e == d;
    }
  }

  lemma NodeAfterOk(s: State, p: Pid, n: NodeId, strong: bool, thr: Option<Caller>, lost: set<NodeId>)
    requires n in s.nodes && NodeOk(n, s.nodes[n], lost)
    ensures var nd := NodeAfter(s, p, n, strong, thr);
      && NodeOk(n, nd, lost) && SameOwner(s.nodes[n], nd) && nd.refs == s.nodes[n].refs + {p}
      && nd.internal == s.nodes[n].internal + One(strong && RefBefore(s, p, n).strong == 0)
  {
    var linked := s.nodes[n].(refs := s.nodes[n].refs + {p});
    ToldNews(n, linked, linked.(internal := linked.internal + 1), thr, lost);
  }

  /** A handle taken keeps the invariant, as long as a new one does not land on a used descriptor. */
  lemma TakeRefInv(s: State, p: Pid, n: NodeId, strong: bool, thr: Option<Caller>, lost: set<NodeId>)
    requires Inv(s, lost) && p in s.tables && n in s.nodes
    requires FindDesc(s, p, n).Some? || NextDesc(s, p, n) !in s.tables[p]
    ensures Inv(TakeRef(s, p, n, strong, thr).0, lost)
  {
    var d := TakeRef(s, p, n, strong, thr).1;
    TakeRefIs(s, p, n, strong, thr);
    NodeAfterOk(s, p, n, strong, thr, lost);
    if FindDesc(s, p, n).Some? { HolderIs(s, p, d, n); }
    WithRefInv(s, p, d, Bumped(RefBefore(s, p, n), strong), NodeAfter(s, p, n, strong, thr), lost);
  }

  // ---------------------------------------------------------------- dropping a handle

  /** The node after a handle's strong count has gone down. */
  function NodeLess(nd: Node, r: Ref, strong: bool, thr: Option<Caller>): Node {
    if strong && r.strong == 1 && nd.internal > 0 then Told(nd, nd.(internal := nd.internal - 1), thr) else nd
  }

  /** A strong handle is one of the node's internal references. */
  lemma StrongIsCounted(s: State, p: Pid, d: Desc, lost: set<NodeId>)
    requires Inv(s, lost) && p in s.tables && d in s.tables[p] && s.tables[p][d].strong > 0
    ensures s.tables[p][d].node in s.nodes && s.nodes[s.tables[p][d].node].internal > 0
    ensures p in s.nodes[s.tables[p][d].node].refs
  {
    var n := s.tables[p][d].node;
    assert Holds(s, p, d, n);
    assert p in StrongHolders(s, n);
  }

  lemma CountDownIs(s: State, p: Pid, d: Desc, strong: bool, thr: Option<Caller>)
    requires p in s.tables && d in s.tables[p] && s.tables[p][d].node in s.nodes
    requires var nd := s.nodes[s.tables[p][d].node]; p in nd.refs && (s.tables[p][d].strong > 0 ==> nd.internal > 0)
    requires !Refused(s, p, d, strong, false)
    ensures var r := s.tables[p][d];
      RefCount(s, p, d, strong, false, thr) ==
        (WithRef(s, p, d, Lowered(r, strong), NodeLess(s.nodes[r.node], r, strong, thr)), true)
  {
    var r := s.tables[p][d];
    assert s.nodes == s.nodes[r.node := s.nodes[r.node]];
  }

  lemma DeleteIs(s: State, p: Pid, d: Desc, r: Ref, nd: Node)
    requires p in s.tables && d in s.tables[p] && r.node in s.nodes && s.tables[p][d].node == r.node && r.strong == 0
    ensures RefDelete(WithRef(s, p, d, r, nd), p, d) ==
      MaybeFree(WithoutRef(s, p, d, nd.(refs := nd.refs - {p})), r.node)
  {
    var s1 := WithRef(s, p, d, r, nd);
    var nd' := nd.(refs := nd.refs - {p});
    assert s1.tables[p] - {d} == s.tables[p] - {d};
    assert s1.tables[p := s1.tables[p] - {d}] == s.tables[p := s.tables[p] - {d}];
    assert s1.nodes[r.node := nd'] == s.nodes[r.node := nd'];
    assert s1.nodes[r.node := nd'][r.node := nd'] == s.nodes[r.node := nd'];
  }

  lemma DropRefIs(s: State, p: Pid, d: Desc, strong: bool, thr: Option<Caller>, lost: set<NodeId>)
    requires Inv(s, lost) && p in s.tables && d in s.tables[p] && s.tables[p][d].node in s.nodes
    requires !Refused(s, p, d, strong, false)
    ensures var r := s.tables[p][d];
      var r' := Lowered(r, strong);
      var nd := NodeLess(s.nodes[r.node], r, strong, thr);
      RefUpdate(s, p, d, strong, false, thr) ==
        (if r'.strong + r'.weak > 0 then WithRef(s, p, d, r', nd)
         else MaybeFree(WithoutRef(s, p, d, nd.(refs := nd.refs - {p})), r.node), true)
  {
    var r := s.tables[p][d];
    assert Holds(s, p, d, r.node);
    if r.strong > 0 { StrongIsCounted(s, p, d, lost); }
    CountDownIs(s, p, d, strong, thr);
    DeleteIs(s, p, d, Lowered(r, strong).(strong := 0), NodeLess(s.nodes[r.node], r, strong, thr));
  }

  lemma NodeLessOk(n: NodeId, nd: Node, r: Ref, strong: bool, thr: Option<Caller>, lost: set<NodeId>)
    requires NodeOk(n, nd, lost) && (r.strong > 0 ==> nd.internal > 0)
    ensures var nd' := NodeLess(nd, r, strong, thr);
      && NodeOk(n, nd', lost) && SameOwner(nd, nd') && nd'.refs == nd.refs
      && nd'.internal + One(strong && r.strong == 1) == nd.internal
  {
    if nd.internal > 0 { ToldNews(n, nd, nd.(internal := nd.internal - 1), thr, lost); }
  }

  lemma DropRefInv(s: State, p: Pid, d: Desc, strong: bool, thr: Option<Caller>, lost: set<NodeId>)
    requires Inv(s, lost) && p in s.tables && d in s.tables[p] && s.tables[p][d].node in s.nodes
    ensures Inv(RefUpdate(s, p, d, strong, false, thr).0, lost)
  {
    if !Refused(s, p, d, strong, false) {
      var r := s.tables[p][d];
      assert Holds(s, p, d, r.node);
      DropRefIs(s, p, d, strong, thr, lost);
      if r.strong > 0 { StrongIsCounted(s, p, d, lost); }
      NodeLessOk(r.node, s.nodes[r.node], r, strong, thr, lost);
      HolderIs(s, p, d, r.node);
      if Lowered(r, strong).strong + Lowered(r, strong).weak > 0 {
        assert s.nodes[r.node].refs + {p} == s.nodes[r.node].refs;
        WithRefInv(s, p, d, Lowered(r, strong), NodeLess(s.nodes[r.node], r, strong, thr), lost);
      } else {
        EmptyRefInv(s, p, d, NodeLess(s.nodes[r.node], r, strong, thr), lost);
      }
    }
  }

  /** A handle that has run out of counts goes, and may take its node with it. */
  lemma EmptyRefInv(s: State, p: Pid, d: Desc, nd: Node, lost: set<NodeId>)
    requires Inv(s, lost) && p in s.tables && d in s.tables[p] && s.tables[p][d].node in s.nodes
    requires var was := s.nodes[s.tables[p][d].node];
      && SameOwner(was, nd) && nd.refs == was.refs && NodeOk(s.tables[p][d].node, nd, lost)
      && nd.internal + One(s.tables[p][d].strong > 0) == was.internal
    ensures Inv(MaybeFree(WithoutRef(s, p, d, nd.(refs := nd.refs - {p})), s.tables[p][d].node), lost)
  {
    var n := s.tables[p][d].node;
    DroppedNews(n, nd, p, lost);
    WithoutRefInv(s, p, d, nd.(refs := nd.refs - {p}), lost);
    MaybeFreeInv(WithoutRef(s, p, d, nd.(refs := nd.refs - {p})), n, lost);
  }

  lemma DroppedNews(n: NodeId, nd: Node, p: Pid, lost: set<NodeId>)
    requires NodeOk(n, nd, lost)
    ensures NodeOk(n, nd.(refs := nd.refs - {p}), lost)
  {}

  // ---------------------------------------------------------------- deleting a handle outright

  /** The node of a handle that is deleted whatever its counts. */
  function NodeDeleted(nd: Node, p: Pid, r: Ref): Node {
    var nd' := nd.(refs := nd.refs - {p});
    if r.strong > 0 && nd.internal > 0 then Told(nd', nd'.(internal := nd.internal - 1), None) else nd'
  }

  lemma RefDeleteIs(s: State, p: Pid, d: Desc)
    requires p in s.tables && d in s.tables[p] && s.tables[p][d].node in s.nodes
    requires s.tables[p][d].strong > 0 ==> s.nodes[s.tables[p][d].node].internal > 0
    ensures var r := s.tables[p][d];
      RefDelete(s, p, d) == MaybeFree(WithoutRef(s, p, d, NodeDeleted(s.nodes[r.node], p, r)), r.node)
  {
    var r := s.tables[p][d];
    var nd := s.nodes[r.node].(refs := s.nodes[r.node].refs - {p});
    var nd' := NodeDeleted(s.nodes[r.node], p, r);
    assert s.nodes[r.node := nd][r.node := nd'] == s.nodes[r.node := nd'];
  }

  lemma RefDeleteInv(s: State, p: Pid, d: Desc, lost: set<NodeId>)
    requires Inv(s, lost) && p in s.tables && d in s.tables[p] && s.tables[p][d].node in s.nodes
    ensures Inv(RefDelete(s, p, d), lost)
    ensures RefDelete(s, p, d).tables == s.tables[p := s.tables[p] - {d}]
  {
    var r := s.tables[p][d];
    var nd := s.nodes[r.node];
    assert Holds(s, p, d, r.node);
    if r.strong > 0 { StrongIsCounted(s, p, d, lost); }
    RefDeleteIs(s, p, d);
    DroppedNews(r.node, nd, p, lost);
    var nd1 := nd.(refs := nd.refs - {p});
    if r.strong > 0 { ToldNews(r.node, nd1, nd1.(internal := nd.internal - 1), None, lost); }
    WithoutRefInv(s, p, d, NodeDeleted(nd, p, r), lost);
    MaybeFreeInv(WithoutRef(s, p, d, NodeDeleted(nd, p, r)), r.node, lost);
  }
}
