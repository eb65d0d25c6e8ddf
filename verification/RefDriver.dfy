/**
The code of kext/binder_node.c:118-242, 323-435 and of the translation and release of one object in
kext/binder_txn.c, on state updated in place, against the functions of RefCounts and Transfer. The walks
over a whole parcel are in WireDriver.
*/
module RefDriver {
  import opened Common
  import opened RefCounts
  import opened Transfer
  import opened Parcels
  import opened RefClose

  datatype MgrError = Done | Busy | NotPermitted | NoMemory

  class Registry {
    var nodes: map<NodeId, Node>
    var tables: map<Pid, Table>
    var mgr: Option<NodeId>
    var next: NodeId
    /** The user the manager's role was first taken by. */
    var mgrUid: Option<nat>

    ghost function Abs(): State
      reads this
    {
      State(nodes, tables, mgr, next)
    }

    // -------------------------------------------------------------- nodes

    method MaybeFree(n: NodeId)
      requires n in nodes
      modifies this`nodes, this`tables, this`mgr, this`next
      ensures Abs() == RefCounts.MaybeFree(old(Abs()), n)
    {
      var nd := nodes[n];
      if nd.tmp != 0 || Weak(nd) { return; }
      if nd.hasStrong || nd.hasWeak { return; }
      if nd.queue.Some? { return; }
      nodes := nodes - {n};
      if nd.owner.Some? && mgr == Some(n) { mgr := None; }
    }

    method NotifyOwner(n: NodeId, thr: Option<Caller>)
      requires n in nodes
      modifies this`nodes
      ensures nodes == old(nodes)[n := Notified(old(nodes)[n], thr)]
    {
      var nd := nodes[n];
      if nd.owner.None? { return; }
      if nd.queue.Some? { return; }
      if thr.Some? && nd.owner == Some(thr.value.pid) {
        nodes := nodes[n := nd.(queue := Some(ThreadQueue(thr.value.tid)))];
      } else {
        nodes := nodes[n := nd.(queue := Some(ProcQueue(nd.owner.value)))];
      }
    }

    /** The count changes of binder_node_update_refs. */
    method ChangeCount(n: NodeId, strong: bool, inc: bool, internal: bool) returns (ok: bool)
      requires n in nodes
      modifies this`nodes
      ensures var nd := Counted(old(nodes)[n], strong, inc, internal);
        (ok <==> nd.Some?) && nodes == if ok then old(nodes)[n := nd.value] else old(nodes)
    {
      var nd := nodes[n];
      if strong {
        if inc {
          if internal {
            nd := nd.(internal := nd.internal + 1);
          } else {
            nd := nd.(localStrong := nd.localStrong + 1);
          }
        } else if internal {
          if nd.internal == 0 { return false; }
          nd := nd.(internal := nd.internal - 1);
        } else {
          if nd.localStrong == 0 { return false; }
          nd := nd.(localStrong := nd.localStrong - 1);
        }
      } else if inc {
        if !internal { nd := nd.(localWeak := nd.localWeak + 1); }
      } else if !internal {
        if nd.localWeak == 0 { return false; }
        nd := nd.(localWeak := nd.localWeak - 1);
      }
      nodes := nodes[n := nd];
      ok := true;
    }

    method UpdateRefs(n: NodeId, strong: bool, inc: bool, internal: bool, thr: Option<Caller>) returns (ok: bool)
      requires n in nodes
      modifies this`nodes, this`tables, this`mgr, this`next
      ensures (Abs(), ok) == RefCounts.UpdateRefs(old(Abs()), n, strong, inc, internal, thr)
    {
      var was := nodes[n];
      ok := ChangeCount(n, strong, inc, internal);
      if !ok { return; }
      ghost var nd := nodes[n];
      if Strong(nodes[n]) != Strong(was) || Weak(nodes[n]) != Weak(was) {
        NotifyOwner(n, thr);
      }
      assert nodes == old(nodes)[n := Told(was, nd, thr)];
      MaybeFree(n);
    }

    // -------------------------------------------------------------- handles

    method RefDelete(p: Pid, d: Desc)
      requires p in tables && d in tables[p] && tables[p][d].node in nodes
      modifies this`nodes, this`tables, this`mgr, this`next
      ensures Abs() == RefCounts.RefDelete(old(Abs()), p, d)
    {
      var r := tables[p][d];
      var hadStrong := r.strong > 0;
      tables := tables[p := tables[p] - {d}];
      nodes := nodes[r.node := nodes[r.node].(refs := nodes[r.node].refs - {p})];
      var _ := UpdateRefs(r.node, hadStrong, false, true, None);
    }

    /** The counting half of binder_ref_update; `stop` where the code returns before looking at the counts. */
    method RefCount(p: Pid, d: Desc, strong: bool, inc: bool, thr: Option<Caller>) returns (ok: bool, stop: bool)
      requires p in tables && d in tables[p] && tables[p][d].node in nodes
      modifies this`nodes, this`tables, this`mgr, this`next
      ensures (Abs(), ok) == RefCounts.RefCount(old(Abs()), p, d, strong, inc, thr)
      ensures stop <==> Refused(old(Abs()), p, d, strong, inc)
      ensures stop ==> !ok
    {
      var r := tables[p][d];
      ok, stop := true, false;
      if strong {
        if inc {
          if r.strong == 0 {
            ok := UpdateRefs(r.node, true, true, true, thr);
            if !ok { return; }
          }
          tables := tables[p := Put(tables[p], d, r.(strong := r.strong + 1))];
        } else {
          if r.strong == 0 { return false, true; }
          tables := tables[p := Put(tables[p], d, r.(strong := r.strong - 1))];
          if r.strong == 1 {
            ok := UpdateRefs(r.node, true, false, true, thr);
          }
        }
      } else if inc {
        tables := tables[p := Put(tables[p], d, r.(weak := r.weak + 1))];
      } else {
        if r.weak == 0 { return false, true; }
        tables := tables[p := Put(tables[p], d, r.(weak := r.weak - 1))];
      }
    }

    method RefUpdate(p: Pid, d: Desc, strong: bool, inc: bool, thr: Option<Caller>) returns (ok: bool)
      requires p in tables && d in tables[p] && tables[p][d].node in nodes
      modifies this`nodes, this`tables, this`mgr, this`next
      ensures (Abs(), ok) == RefCounts.RefUpdate(old(Abs()), p, d, strong, inc, thr)
    {
      var stop;
      ok, stop := RefCount(p, d, strong, inc, thr);
      if stop { return; }
      if p in tables && d in tables[p] && tables[p][d].node in nodes
         && tables[p][d].strong == 0 && tables[p][d].weak == 0
      {
        RefDelete(p, d);
      }
    }

    /** Search by node, then the next descriptor; None when there is no memory for a handle. */
    method GetForNode(p: Pid, n: NodeId, memory: bool) returns (d: Option<Desc>)
      requires Tables(Abs()) && p in tables && n in nodes
      modifies this`nodes, this`tables, this`mgr, this`next
      ensures d.None? <==> FindDesc(old(Abs()), p, n).None? && !memory
      ensures d.None? ==> Abs() == old(Abs())
      ensures d.Some? ==> (Abs(), d.value) == GetRef(old(Abs()), p, n)
    {
      if e :| e in tables[p] && tables[p][e].node == n {
        assert Holds(Abs(), p, e, n);
        return Some(e);
      }
      assert forall e :: !Holds(Abs(), p, e, n);
      if !memory { return None; }
      var e := 0;
      if mgr != Some(n) { e := LowestUnused(tables[p]); }
      nodes := nodes[n := nodes[n].(refs := nodes[n].refs + {p})];
      tables := tables[p := Put(tables[p], e, Ref(n, 0, 0))];
      d := Some(e);
    }

    static method LowestUnused(t: Table) returns (d: Desc)
      ensures d == LowestFree(t, 1)
    {
      d := 1;
      ghost var unused := From(t, 1);
      while d in t
        invariant 1 <= d && forall e | 1 <= e < d :: e in t
        invariant unused == From(t, d)
        decreases unused
      {
        assert d in From(t, d) && d !in From(t, d + 1);
        assert From(t, d + 1) <= From(t, d);
        d := d + 1;
        unused := From(t, d);
      }
      var lowest := LowestFree(t, 1);
      assert !(d < lowest) && !(lowest < d);
    }

    // -------------------------------------------------------------- objects

    method TakeRefIf(p: Pid, n: NodeId, strong: bool, thr: Option<Caller>, mem: Memory) returns (d: Option<Desc>)
      requires Tables(Abs()) && p in tables && n in nodes
      modifies this`nodes, this`tables, this`mgr, this`next
      ensures (Abs(), d) == Transfer.TakeRefIf(old(Abs()), p, n, strong, thr, mem)
    {
      d := GetForNode(p, n, mem.ref);
      if d.Some? {
        assert Holds(Abs(), p, d.value, n);
        var _ := RefUpdate(p, d.value, strong, true, thr);
      }
    }

    /** binder_node_find, then binder_node_new. */
    method FindOrMakeNode(p: Pid, ptr: U64, cookie: U64, memory: bool) returns (n: Option<NodeId>)
      requires Owners(Abs()) && next !in nodes
      modifies this`nodes, this`tables, this`mgr, this`next
      ensures var s := old(Abs()); var found := FindNode(s, p, ptr);
        && (n.None? <==> found.None? && !memory)
        && (found.Some? || !memory ==> Abs() == s)
        && (found.Some? ==> n == found)
        && (found.None? && memory ==> Abs() == NewNode(s, p, ptr, cookie) && n == Some(s.next))
    {
      if m :| m in nodes && nodes[m].owner == Some(p) && nodes[m].ptr == ptr {
        assert Owns(Abs(), p, ptr, m);
        FindNodeIs(Abs(), p, ptr, m);
        return Some(m);
      }
      assert forall m :: !Owns(Abs(), p, ptr, m);
      if !memory { return None; }
      n := Some(next);
      nodes := nodes[next := BlankNode(p, ptr, cookie)];
      next := next + 1;
    }

    /** binder_write_ref_cmd: handle 0 may be asked for before there is one. */
    method WriteRefCmd(p: Pid, d: Desc, strong: bool, inc: bool, thr: Option<Caller>,
                       memory: bool) returns (r: Option<Desc>)
      requires Tables(Abs()) && Owners(Abs()) && p in tables
      modifies this`nodes, this`tables, this`mgr, this`next
      ensures (Abs(), r) == RefCmd(old(Abs()), p, d, strong, inc, thr, memory)
    {
      if d in tables[p] {
        assert Holds(Abs(), p, d, tables[p][d].node);
        var ok := RefUpdate(p, d, strong, inc, thr);
        return if ok then Some(d) else None;
      }
      if !inc || d != 0 || mgr.None? { return None; }
      r := TakeRefIf(p, mgr.value, strong, thr, Memory(true, memory));
    }

    /** binder_context_mgr_set: refused while there is a manager, and to every user but the first who came this far,
        whether or not that one got the role. The new manager holds two references on itself. */
    method ContextMgrSet(p: Pid, ptr: U64, cookie: U64, uid: nat, memory: bool) returns (err: MgrError)
      requires Tables(Abs()) && Owners(Abs())
      modifies this
      ensures err == if old(mgr).Some? then Busy else if old(mgrUid).Some? && old(mgrUid) != Some(uid) then NotPermitted
        else if FindNode(old(Abs()), p, ptr).None? && !memory then NoMemory else Done
      ensures mgrUid == if old(mgr).None? && old(mgrUid).None? then Some(uid) else old(mgrUid)
      ensures Abs() == if err == Done then Register(old(Abs()), p, ptr, cookie) else old(Abs())
    {
      if mgr.Some? { return Busy; }
      if mgrUid.Some? {
        if mgrUid != Some(uid) { return NotPermitted; }
      } else {
        mgrUid := Some(uid);
      }
      var ok := TakeRole(p, ptr, cookie, memory);
      err := if ok then Done else NoMemory;
    }

    method TakeRole(p: Pid, ptr: U64, cookie: U64, memory: bool) returns (ok: bool)
      requires Tables(Abs()) && Owners(Abs())
      modifies this`nodes, this`tables, this`mgr, this`next
      ensures ok <==> FindNode(old(Abs()), p, ptr).Some? || memory
      ensures Abs() == if ok then Register(old(Abs()), p, ptr, cookie) else old(Abs())
    {
      var n := FindOrMakeNode(p, ptr, cookie, memory);
      if n.None? { return false; }
      mgr := n;
      var nd := nodes[n.value];
      nd := nd.(localStrong := nd.localStrong + 1);
      nd := nd.(localWeak := nd.localWeak + 1);
      nd := nd.(hasStrong := true, hasWeak := true);
      nodes := nodes[n.value := nd];
      ok := true;
    }

    method TranslateBinder(from: Pid, to: Pid, o: Obj, thr: Option<Caller>, mem: Memory) returns (r: Option<Obj>)
      requires Tables(Abs()) && Owners(Abs()) && to in tables && o.Binder?
      modifies this`nodes, this`tables, this`mgr, this`next
      ensures (Abs(), r) == Transfer.TranslateBinder(old(Abs()), from, to, o, thr, mem)
    {
      NewNodeTables(Abs(), from, o.ptr, o.cookie);
      var n := FindOrMakeNode(from, o.ptr, o.cookie, mem.node);
      if n.None? { return None; }
      if o.cookie != nodes[n.value].cookie { return None; }
      var d := TakeRefIf(to, n.value, o.strong, thr, mem);
      r := if d.None? then None else Some(Handle(d.value, o.strong));
    }

    method TranslateHandle(from: Pid, to: Pid, o: Obj, thr: Option<Caller>, mem: Memory,
                           ghost lost: set<NodeId>) returns (r: Option<Obj>)
      requires Inv(Abs(), lost) && from in tables && to in tables && o.Handle?
      modifies this`nodes, this`tables, this`mgr, this`next
      ensures (Abs(), r) == Transfer.TranslateHandle(old(Abs()), from, to, o, thr, mem)
    {
      if o.desc !in tables[from] { return None; }
      var n := tables[from][o.desc].node;
      assert Holds(Abs(), from, o.desc, n);
      var nd := nodes[n];
      if nd.owner == Some(to) {
        var ok := UpdateRefs(n, o.strong, true, false, thr);
        if !ok { return None; }
        return Some(Binder(nd.ptr, nd.cookie, o.strong));
      }
      var d := TakeRefIf(to, n, o.strong, thr, mem);
      r := if d.None? then None else Some(Handle(d.value, o.strong));
    }

    /** The switch of the translation loop. */
    method TranslateObject(from: Pid, to: Pid, o: Obj, thr: Option<Caller>, mem: Memory,
                           ghost lost: set<NodeId>, ghost ever: Option<NodeId>) returns (r: Option<Obj>)
      requires Inv(Abs(), lost) && Zero(Abs(), ever) && from in tables && to in tables
      modifies this`nodes, this`tables, this`mgr, this`next
      ensures (Abs(), r) == Translate(old(Abs()), from, to, o, thr, mem)
      ensures Inv(Abs(), lost) && Zero(Abs(), ever) && from in tables && to in tables
    {
      TranslateIs(Abs(), from, to, o, thr, mem, lost, ever);
      match o
      case Binder(_, _, _) => r := TranslateBinder(from, to, o, thr, mem);
      case Handle(_, _) => r := TranslateHandle(from, to, o, thr, mem, lost);
      case Other(good) => r := if good then Some(o) else None;
    }

    method ReleaseObject(p: Pid, o: Obj, ghost lost: set<NodeId>)
      requires Inv(Abs(), lost)
      modifies this`nodes, this`tables, this`mgr, this`next
      ensures Abs() == Release(old(Abs()), p, o)
    {
      match o
      case Binder(ptr, _, strong) =>
        if m :| m in nodes && nodes[m].owner == Some(p) && nodes[m].ptr == ptr {
          assert Owns(Abs(), p, ptr, m);
          FindNodeIs(Abs(), p, ptr, m);
          var _ := UpdateRefs(m, strong, false, false, None);
        } else {
          assert forall m :: !Owns(Abs(), p, ptr, m);
        }
      case Handle(d, strong) =>
        if p in tables && d in tables[p] {
          assert Holds(Abs(), p, d, tables[p][d].node);
          var _ := RefUpdate(p, d, strong, false, None);
        }
      case Other(_) =>
    }

    // -------------------------------------------------------------- a process closes

    /** The loop of binder_proc_release over the objects of the process. */
    method KillNodes(ns: seq<NodeId>)
      modifies this`nodes, this`tables, this`mgr, this`next
      ensures Abs() == DieEach(old(Abs()), ns)
    {
      ghost var s := Abs();
      var i := 0;
      assert ns[0..] == ns;
      while i < |ns|
        invariant i <= |ns| && DieEach(s, ns) == DieEach(Abs(), ns[i..])
      {
        assert ns[i..][0] == ns[i] && ns[i..][1..] == ns[i + 1..];
        if ns[i] in nodes {
          nodes := nodes[ns[i] := nodes[ns[i]].(owner := None)];
          MaybeFree(ns[i]);
        }
        i := i + 1;
      }
      assert ns[i..] == [];
    }

    /** The loop over its handles. */
    method DeleteRefs(p: Pid, ds: seq<Desc>)
      modifies this`nodes, this`tables, this`mgr, this`next
      ensures Abs() == DeleteEach(old(Abs()), p, ds)
    {
      ghost var s := Abs();
      var i := 0;
      assert ds[0..] == ds;
      while i < |ds|
        invariant i <= |ds| && DeleteEach(s, p, ds) == DeleteEach(Abs(), p, ds[i..])
      {
        assert ds[i..][0] == ds[i] && ds[i..][1..] == ds[i + 1..];
        if p in tables && ds[i] in tables[p] && tables[p][ds[i]].node in nodes { RefDelete(p, ds[i]); }
        i := i + 1;
      }
      assert ds[i..] == [];
    }

    /** binder_proc_release, as far as objects and handles go: the manager's role, the objects, the handles, and last
        the queues that still hold news of the objects. */
    method ProcRelease(p: Pid, ns: seq<NodeId>, ds: seq<Desc>)
      modifies this`nodes, this`tables, this`mgr, this`next
      ensures Abs() == Close(old(Abs()), p, ns, ds)
    {
      if mgr.Some? && mgr.value in nodes && nodes[mgr.value].owner == Some(p) {
        nodes := nodes[mgr.value := Resigned(nodes[mgr.value])];
        mgr := None;
      }
      KillNodes(ns);
      DeleteRefs(p, ds);
      nodes := map n | n in nodes :: if n in ns then nodes[n].(queue := None) else nodes[n];
      tables := tables - {p};
    }
  }

  lemma NewNodeTables(s: State, p: Pid, ptr: U64, cookie: U64)
    requires Tables(s)
    ensures Tables(NewNode(s, p, ptr, cookie))
  {
    forall q, d, m ensures Holds(NewNode(s, p, ptr, cookie), q, d, m) <==> Holds(s, q, d, m) {}
  }

  /** A walk in progress: what is rewritten so far, followed by the walk over the rest, is the whole walk. */
  ghost predicate Walked(all: (State, seq<Obj>), s: State, from: Pid, to: Pid, os: seq<Obj>, thr: Option<Caller>,
                         mems: seq<Memory>, rs: seq<Obj>)
    requires to in s.tables && |mems| == |os|
  {
    && |rs| <= |os|
    && var rest := TranslateAll(s, from, to, os[|rs|..], thr, mems[|rs|..]);
    all == (rest.0, rs + rest.1)
  }

  lemma WalkStarts(s: State, from: Pid, to: Pid, os: seq<Obj>, thr: Option<Caller>, mems: seq<Memory>)
    requires to in s.tables && |mems| == |os|
    ensures Walked(TranslateAll(s, from, to, os, thr, mems), s, from, to, os, thr, mems, [])
  {
    assert os[0..] == os && mems[0..] == mems;
    var all := TranslateAll(s, from, to, os, thr, mems);
    assert [] + all.1 == all.1;
  }

  /** One more object: the walk stops at a failure, and otherwise goes on from there. */
  lemma WalkOn(all: (State, seq<Obj>), s: State, from: Pid, to: Pid, os: seq<Obj>, thr: Option<Caller>,
               mems: seq<Memory>, rs: seq<Obj>, s1: State, r: Option<Obj>)
    requires to in s.tables && to in s1.tables && |mems| == |os|
    requires Walked(all, s, from, to, os, thr, mems, rs) && |rs| < |os|
    requires (s1, r) == Translate(s, from, to, os[|rs|], thr, mems[|rs|])
    ensures r.None? ==> all == (s1, rs)
    ensures r.Some? ==> Walked(all, s1, from, to, os, thr, mems, rs + [r.value]) && r.value in all.1
  {
    var i := |rs|;
    assert os[i..][1..] == os[i + 1..] && mems[i..][1..] == mems[i + 1..];
    if r.None? {
      assert rs + [] == rs;
    } else {
      Appended(rs, r.value, TranslateAll(s1, from, to, os[i + 1..], thr, mems[i + 1..]).1);
    }
  }

  lemma Appended(rs: seq<Obj>, r: Obj, rest: seq<Obj>)
    ensures rs + ([r] + rest) == rs + [r] + rest && r in rs + ([r] + rest)
  {
    assert (rs + ([r] + rest))[|rs|] == r;
  }

  lemma WalkEnds(all: (State, seq<Obj>), s: State, from: Pid, to: Pid, os: seq<Obj>, thr: Option<Caller>,
                 mems: seq<Memory>, rs: seq<Obj>)
    requires to in s.tables && |mems| == |os| && Walked(all, s, from, to, os, thr, mems, rs) && |rs| == |os|
    ensures all == (s, rs)
  {
    assert os[|rs|..] == [] && rs + [] == rs;
  }
}
