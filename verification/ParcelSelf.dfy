/**
Parcels a process sends to itself (kext/binder_txn.c:128-207, 470-569). Here an object can make a descriptor that a
later handle of the same parcel names, so which handles are refused depends on the descriptors given out on the way;
those are known before the send as well. With ParcelRefusal, where any parcel stops is known before it is sent.
*/
module ParcelSelf {
  import opened Common
  import opened RefCounts
  import opened RefHandles
  import opened Transfer
  import opened Parcels
  import opened ParcelRefusal

  // ---------------------------------------------------------------- what decides

  /** The cookie of the process's node at an address. */
  ghost function CookieAt(s: State, p: Pid, ptr: U64): Option<U64> {
    var n := FindNode(s, p, ptr);
    if n.Some? && n.value in s.nodes then Some(s.nodes[n.value].cookie) else None
  }

  /** The process has a handle on its own object at an address. */
  ghost predicate HasAt(s: State, p: Pid, ptr: U64) { exists n :: Owns(s, p, ptr, n) && Has(s, p, n) }

  /** The manager's node is the process's own object there. */
  ghost predicate ManagerAt(s: State, p: Pid, ptr: U64) { s.mgr.Some? && Owns(s, p, ptr, s.mgr.value) }

  /** An earlier object of the parcel is at the same address. */
  ghost predicate SameBefore(os: seq<Obj>, i: nat)
    requires i < |os| && os[i].Binder?
  {
    exists j :: 0 <= j < i && os[j].Binder? && os[j].ptr == os[i].ptr
  }

  /** The lowest descriptor from `d` on that is not among `ds`. */
  ghost function LowestOutside(ds: set<Desc>, d: Desc): (r: Desc)
    ensures d <= r && r !in ds && forall e | d <= e < r :: e in ds
    decreases set e | e in ds && d <= e
  {
    if d !in ds then d
    else
      var above, more := set e | e in ds && d <= e, set e | e in ds && d + 1 <= e;
      assert d in above && d !in more && more <= above;
      LowestOutside(ds, d + 1)
  }

  ghost function NewDesc(s: State, p: Pid, ptr: U64, ds: set<Desc>): Desc {
    if ManagerAt(s, p, ptr) then 0 else LowestOutside(ds, 1)
  }

  /** Object `i` is one the process gets a new handle for. */
  ghost predicate MakesHandle(s: State, p: Pid, os: seq<Obj>, i: nat)
    requires i < |os|
  {
    os[i].Binder? && !HasAt(s, p, os[i].ptr) && !SameBefore(os, i)
  }

  /** The descriptors in use when the walk comes to object `i`. */
  ghost function Given(s: State, p: Pid, os: seq<Obj>, i: nat): set<Desc>
    requires p in s.tables && i <= |os|
    decreases i
  {
    if i == 0 then s.tables[p].Keys
    else
      var ds := Given(s, p, os, i - 1);
      if MakesHandle(s, p, os, i - 1) then ds + {NewDesc(s, p, os[i - 1].ptr, ds)} else ds
  }

  /** The object's cookie is not the node's, or not that of the first object at its address. */
  ghost predicate ClashWithin(s: State, p: Pid, os: seq<Obj>, i: nat)
    requires i < |os| && os[i].Binder?
  {
    match CookieAt(s, p, os[i].ptr)
    case Some(c) => c != os[i].cookie
    case None => exists j: nat :: FirstAt(os, i, j) && os[j].cookie != os[i].cookie
  }

  ghost predicate FirstAt(os: seq<Obj>, i: nat, j: nat)
    requires i < |os| && os[i].Binder?
  {
    j < i && os[j].Binder? && os[j].ptr == os[i].ptr && !SameBefore(os, j)
  }

  /** Object `i` of a parcel to the process itself is refused, said of the state before it is sent. */
  ghost predicate RefusedWithin(s: State, p: Pid, os: seq<Obj>, mems: seq<Memory>, i: nat)
    requires p in s.tables && i < |os| && |mems| == |os|
  {
    match os[i]
    case Other(good) => !good
    case Handle(d, _) => d !in Given(s, p, os, i)
    case Binder(ptr, _, _) =>
      || ClashWithin(s, p, os, i)
      || (CookieAt(s, p, ptr).None? && !mems[i].node && !SameBefore(os, i))
      || (!mems[i].ref && MakesHandle(s, p, os, i))
  }

  ghost predicate FirstWithin(s: State, p: Pid, os: seq<Obj>, mems: seq<Memory>, k: nat)
    requires p in s.tables && |mems| == |os|
  {
    && k <= |os|
    && (forall i | 0 <= i < k :: !RefusedWithin(s, p, os, mems, i))
    && (k < |os| ==> RefusedWithin(s, p, os, mems, k))
  }

  // ---------------------------------------------------------------- one object

  lemma OwnedAt(s: State, p: Pid, ptr: U64, n: NodeId)
    requires Owners(s) && Owns(s, p, ptr, n)
    ensures FindNode(s, p, ptr) == Some(n) && CookieAt(s, p, ptr) == Some(s.nodes[n].cookie)
    ensures HasAt(s, p, ptr) <==> Has(s, p, n)
  {
    FindNodeIs(s, p, ptr, n);
  }

  lemma WithinFirst(s: State, p: Pid, os: seq<Obj>, mems: seq<Memory>)
    requires Tables(s) && Owners(s) && p in s.tables && |mems| == |os| > 0
    ensures RefusedWithin(s, p, os, mems, 0) <==> Refuses(s, p, p, os[0], mems[0])
  {
    match os[0]
    case Binder(ptr, _, _) =>
      if n :| Owns(s, p, ptr, n) {
        OwnedAt(s, p, ptr, n);
      } else {
        forall j: nat ensures !FirstAt(os, 0, j) {}
      }
    case Handle(d, _) => if d in s.tables[p] { assert Holds(s, p, d, s.tables[p][d].node); }
    case Other(_) =>
  }

  /** What one translated object leaves for the rest of the walk. */
  ghost predicate Within(s: State, s1: State, p: Pid, o: Obj) {
    && p in s.tables && p in s1.tables
    && (forall ptr: U64 :: CookieAt(s1, p, ptr) ==
          if CookieAt(s, p, ptr).None? && o.Binder? && ptr == o.ptr then Some(o.cookie) else CookieAt(s, p, ptr))
    && (forall ptr: U64 :: HasAt(s1, p, ptr) <==> HasAt(s, p, ptr) || (o.Binder? && ptr == o.ptr))
    && (forall ptr: U64 :: ManagerAt(s1, p, ptr) <==> ManagerAt(s, p, ptr))
    && s1.tables[p].Keys == Given(s, p, [o], 1)
  }

  /** A handle taken on `n`, seen by address. */
  lemma GainsAt(s: State, s1: State, p: Pid, n: NodeId, at: U64)
    requires Owners(s) && Owners(s1) && Gains(s, s1, p, n) && Owns(s, p, at, n)
    ensures forall ptr: U64 :: CookieAt(s1, p, ptr) == CookieAt(s, p, ptr)
    ensures forall ptr: U64 :: HasAt(s1, p, ptr) <==> HasAt(s, p, ptr) || ptr == at
  {
    forall ptr: U64
      ensures CookieAt(s1, p, ptr) == CookieAt(s, p, ptr) && (HasAt(s1, p, ptr) <==> HasAt(s, p, ptr) || ptr == at)
    {
      if m :| Owns(s, p, ptr, m) {
        assert Owns(s1, p, ptr, m);
        OwnedAt(s, p, ptr, m);
        OwnedAt(s1, p, ptr, m);
      } else {
        forall m ensures !Owns(s1, p, ptr, m) { assert !Owns(s, p, ptr, m); }
      }
    }
  }

  lemma LowestSame(t: Table)
    ensures LowestFree(t, 1) == LowestOutside(t.Keys, 1)
  {}

  lemma TakeKeys(s: State, p: Pid, n: NodeId, at: U64, strong: bool, thr: Option<Caller>, ever: Option<NodeId>)
    requires Tables(s) && Owners(s) && Zero(s, ever) && p in s.tables && Owns(s, p, at, n)
    ensures var s1 := TakeRef(s, p, n, strong, thr).0;
      && s1.mgr == s.mgr && p in s1.tables
      && s1.tables[p].Keys == s.tables[p].Keys + if HasAt(s, p, at) then {} else {NewDesc(s, p, at, s.tables[p].Keys)}
  {
    OwnedAt(s, p, at, n);
    DescIff(s, p, n);
    TakeRefIs(s, p, n, strong, thr);
    TakeRefExtends(s, p, n, strong, thr, ever);
    LowestSame(s.tables[p]);
    if s.mgr.Some? && Owns(s, p, at, s.mgr.value) { assert s.mgr.value == n; }
  }

  lemma OldWithin(s: State, s1: State, p: Pid, o: Obj, n: NodeId, thr: Option<Caller>, ever: Option<NodeId>)
    requires o.Binder? && Tables(s) && Owners(s) && Owners(s1) && Zero(s, ever) && p in s.tables && Owns(s, p, o.ptr, n)
    requires s1 == TakeRef(s, p, n, o.strong, thr).0
    ensures Within(s, s1, p, o)
  {
    TakeRefGains(s, p, n, o.strong, thr, ever);
    GainsAt(s, s1, p, n, o.ptr);
    TakeKeys(s, p, n, o.ptr, o.strong, thr, ever);
    OwnedAt(s, p, o.ptr, n);
    ManagerSame(s, s1, p);
    TakenWithin(s, s1, p, o);
  }

  lemma TakenWithin(s: State, s1: State, p: Pid, o: Obj)
    requires o.Binder? && p in s.tables && p in s1.tables && CookieAt(s, p, o.ptr).Some?
    requires forall ptr: U64 :: CookieAt(s1, p, ptr) == CookieAt(s, p, ptr)
    requires forall ptr: U64 :: HasAt(s1, p, ptr) <==> HasAt(s, p, ptr) || ptr == o.ptr
    requires forall ptr: U64 :: ManagerAt(s1, p, ptr) <==> ManagerAt(s, p, ptr)
    requires s1.tables[p].Keys ==
      s.tables[p].Keys + if HasAt(s, p, o.ptr) then {} else {NewDesc(s, p, o.ptr, s.tables[p].Keys)}
    ensures Within(s, s1, p, o)
  {
    assert Given(s, p, [o], 0) == s.tables[p].Keys;
  }

  lemma ManagerSame(s: State, s1: State, p: Pid)
    requires Owners(s) && s1.mgr == s.mgr && s1.nodes.Keys == s.nodes.Keys
    requires forall n | n in s.nodes :: SameOwner(s.nodes[n], s1.nodes[n])
    ensures forall ptr: U64 :: ManagerAt(s1, p, ptr) <==> ManagerAt(s, p, ptr)
  {}

  /** A new node, seen by address. */
  ghost predicate Added(s: State, s0: State, p: Pid, at: U64, cookie: U64) {
    && s0.tables == s.tables && CookieAt(s, p, at).None? && !HasAt(s, p, at)
    && (forall ptr: U64 :: CookieAt(s0, p, ptr) == if ptr == at then Some(cookie) else CookieAt(s, p, ptr))
    && (forall ptr: U64 :: HasAt(s0, p, ptr) <==> HasAt(s, p, ptr))
    && (forall ptr: U64 :: ManagerAt(s0, p, ptr) <==> ManagerAt(s, p, ptr))
  }

  lemma NewAt(s: State, p: Pid, at: U64, cookie: U64)
    requires Tables(s) && Owners(s) && Owners(NewNode(s, p, at, cookie)) && FindNode(s, p, at).None?
    ensures Added(s, NewNode(s, p, at, cookie), p, at, cookie)
  {
    var s0 := NewNode(s, p, at, cookie);
    assert Owns(s0, p, at, s.next) && s.next !in s.nodes;
    forall ptr: U64
      ensures CookieAt(s0, p, ptr) == if ptr == at then Some(cookie) else CookieAt(s, p, ptr)
      ensures HasAt(s0, p, ptr) <==> HasAt(s, p, ptr)
    {
      SameHas(s, s0, p);
      if m :| Owns(s, p, ptr, m) {
        assert Owns(s0, p, ptr, m);
        OwnedAt(s, p, ptr, m);
        OwnedAt(s0, p, ptr, m);
      } else if ptr == at {
        OwnedAt(s0, p, ptr, s.next);
        forall d ensures !Holds(s, p, d, s.next) {}
      } else {
        forall m ensures !Owns(s0, p, ptr, m) { assert !Owns(s, p, ptr, m); }
      }
    }
  }

  lemma NewWithin(s: State, s1: State, p: Pid, o: Obj, thr: Option<Caller>, lost: set<NodeId>, ever: Option<NodeId>)
    requires o.Binder? && Inv(s, lost) && Zero(s, ever) && Owners(s1) && p in s.tables && FindNode(s, p, o.ptr).None?
    requires s1 == TakeRef(NewNode(s, p, o.ptr, o.cookie), p, s.next, o.strong, thr).0
    ensures Within(s, s1, p, o)
  {
    var s0 := NewNode(s, p, o.ptr, o.cookie);
    NewNodeCounts(s, p, o.ptr, o.cookie, lost, ever);
    NewAt(s, p, o.ptr, o.cookie);
    assert Owns(s0, p, o.ptr, s.next);
    OldWithin(s0, s1, p, o, s.next, thr, ever);
    AddedWithin(s, s0, s1, p, o);
  }

  lemma AddedWithin(s: State, s0: State, s1: State, p: Pid, o: Obj)
    requires o.Binder? && p in s.tables && Added(s, s0, p, o.ptr, o.cookie) && Within(s0, s1, p, o)
    ensures Within(s, s1, p, o)
  {
    assert NewDesc(s0, p, o.ptr, s.tables[p].Keys) == NewDesc(s, p, o.ptr, s.tables[p].Keys);
    assert MakesHandle(s0, p, [o], 0) <==> MakesHandle(s, p, [o], 0);
    assert Given(s0, p, [o], 0) == Given(s, p, [o], 0);
  }

  /** A step that leaves tables and owned nodes alone. */
  lemma SameWithin(s: State, s1: State, p: Pid, o: Obj)
    requires !o.Binder? && Owners(s) && Owners(s1) && p in s.tables && p in s1.tables && s1.mgr == s.mgr
    requires s1.tables[p].Keys == s.tables[p].Keys && s1.nodes.Keys == s.nodes.Keys
    requires forall n :: Has(s1, p, n) <==> Has(s, p, n)
    requires forall n | n in s.nodes :: SameOwner(s.nodes[n], s1.nodes[n]) && s1.nodes[n].cookie == s.nodes[n].cookie
    ensures Within(s, s1, p, o)
  {
    forall ptr: U64
      ensures CookieAt(s1, p, ptr) == CookieAt(s, p, ptr) && (HasAt(s1, p, ptr) <==> HasAt(s, p, ptr))
    {
      if m :| Owns(s, p, ptr, m) {
        assert Owns(s1, p, ptr, m);
        OwnedAt(s, p, ptr, m);
        OwnedAt(s1, p, ptr, m);
      } else {
        forall m ensures !Owns(s1, p, ptr, m) { assert !Owns(s, p, ptr, m); }
      }
    }
  }

  lemma HomeWithin(s: State, s1: State, p: Pid, o: Obj, n: NodeId, thr: Option<Caller>)
    requires o.Handle? && Owners(s) && Owners(s1) && p in s.tables && n in s.nodes
    requires s1 == UpdateRefs(s, n, o.strong, true, false, thr).0
    ensures Within(s, s1, p, o)
  {
    LocalUpIs(s, n, o.strong, thr);
    SameHas(s, s1, p);
    SameWithin(s, s1, p, o);
  }

  lemma AwayWithin(s: State, s1: State, p: Pid, o: Obj, n: NodeId, thr: Option<Caller>, ever: Option<NodeId>)
    requires o.Handle? && Tables(s) && Owners(s) && Owners(s1) && Zero(s, ever) && Holds(s, p, o.desc, n) && n in s.nodes
    requires s1 == TakeRef(s, p, n, o.strong, thr).0
    ensures Within(s, s1, p, o)
  {
    TakeRefGains(s, p, n, o.strong, thr, ever);
    AwayKeys(s, p, o.desc, n, o.strong, thr, ever);
    SameWithin(s, s1, p, o);
  }

  lemma AwayKeys(s: State, p: Pid, d: Desc, n: NodeId, strong: bool, thr: Option<Caller>, ever: Option<NodeId>)
    requires Tables(s) && Zero(s, ever) && Holds(s, p, d, n) && n in s.nodes
    ensures var s1 := TakeRef(s, p, n, strong, thr).0;
      s1.mgr == s.mgr && p in s1.tables && s1.tables[p].Keys == s.tables[p].Keys
  {
    TakeRefIs(s, p, n, strong, thr);
    TakeRefExtends(s, p, n, strong, thr, ever);
  }

  lemma HandleWithin(s: State, s1: State, p: Pid, o: Obj, thr: Option<Caller>, mem: Memory, ever: Option<NodeId>)
    requires o.Handle? && Tables(s) && Owners(s) && Owners(s1) && Zero(s, ever) && p in s.tables
    requires TranslateHandle(s, p, p, o, thr, mem).1.Some? && s1 == TranslateHandle(s, p, p, o, thr, mem).0
    ensures Within(s, s1, p, o)
  {
    var n := s.tables[p][o.desc].node;
    assert Holds(s, p, o.desc, n);
    if s.nodes[n].owner == Some(p) {
      HomeWithin(s, s1, p, o, n, thr);
    } else {
      AwayWithin(s, s1, p, o, n, thr, ever);
    }
  }

  lemma TranslateWithin(s: State, p: Pid, o: Obj, thr: Option<Caller>, mem: Memory, lost: set<NodeId>, ever: Option<NodeId>)
    requires Inv(s, lost) && Zero(s, ever) && p in s.tables && Translate(s, p, p, o, thr, mem).1.Some?
    requires Owners(Translate(s, p, p, o, thr, mem).0)
    ensures Within(s, Translate(s, p, p, o, thr, mem).0, p, o)
  {
    var s1 := Translate(s, p, p, o, thr, mem).0;
    match o
    case Binder(ptr, _, _) =>
      var found := FindNode(s, p, ptr);
      if found.Some? {
        OldWithin(s, s1, p, o, found.value, thr, ever);
      } else {
        NewWithin(s, s1, p, o, thr, lost, ever);
      }
    case Handle(_, _) => HandleWithin(s, s1, p, o, thr, mem, ever);
    case Other(_) => SameWithin(s, s1, p, o);
  }

  // ---------------------------------------------------------------- the rest of the parcel

  lemma BeforeAfter(os: seq<Obj>, i: nat)
    requires 0 < i < |os| && os[i].Binder?
    ensures SameBefore(os, i) <==> (os[0].Binder? && os[0].ptr == os[i].ptr) || SameBefore(os[1..], i - 1)
  {
    if j :| 0 < j < i && os[j].Binder? && os[j].ptr == os[i].ptr { assert os[1..][j - 1] == os[j]; }
    if j :| 0 <= j < i - 1 && os[1..][j].Binder? && os[1..][j].ptr == os[i].ptr { assert os[j + 1] == os[1..][j]; }
  }

  lemma MakesAfter(s: State, s1: State, p: Pid, os: seq<Obj>, i: nat)
    requires 0 < i < |os| && Within(s, s1, p, os[0])
    ensures MakesHandle(s, p, os, i) <==> MakesHandle(s1, p, os[1..], i - 1)
  {
    if os[i].Binder? { BeforeAfter(os, i); }
  }

  lemma {:induction false} GivenAfter(s: State, s1: State, p: Pid, os: seq<Obj>, i: nat)
    requires 0 < i <= |os| && Within(s, s1, p, os[0])
    ensures Given(s, p, os, i) == Given(s1, p, os[1..], i - 1)
    decreases i
  {
    if i == 1 {
      assert MakesHandle(s, p, os, 0) <==> MakesHandle(s, p, [os[0]], 0);
    } else {
      GivenAfter(s, s1, p, os, i - 1);
      MakesAfter(s, s1, p, os, i - 1);
    }
  }

  lemma FirstAtAfter(os: seq<Obj>, i: nat, j: nat)
    requires 0 < j < i < |os| && os[i].Binder? && !(os[0].Binder? && os[0].ptr == os[i].ptr)
    ensures FirstAt(os, i, j) <==> FirstAt(os[1..], i - 1, j - 1)
  {
    if os[j].Binder? { BeforeAfter(os, j); }
  }

  lemma ClashWithinAfter(s: State, s1: State, p: Pid, os: seq<Obj>, i: nat)
    requires 0 < i < |os| && os[i].Binder? && Within(s, s1, p, os[0])
    ensures ClashWithin(s, p, os, i) <==> ClashWithin(s1, p, os[1..], i - 1)
  {
    if CookieAt(s, p, os[i].ptr).None? {
      if os[0].Binder? && os[0].ptr == os[i].ptr {
        assert FirstAt(os, i, 0);
        forall j: nat | FirstAt(os, i, j) ensures j == 0 {}
      } else {
        if j: nat :| FirstAt(os, i, j) && os[j].cookie != os[i].cookie {
          FirstAtAfter(os, i, j);
          assert os[1..][j - 1] == os[j];
        }
        if j: nat :| FirstAt(os[1..], i - 1, j) && os[1..][j].cookie != os[i].cookie {
          FirstAtAfter(os, i, j + 1);
          assert os[1..][j] == os[j + 1];
        }
      }
    }
  }

  lemma WithinAfter(s: State, s1: State, p: Pid, os: seq<Obj>, mems: seq<Memory>, i: nat)
    requires 0 < i < |os| && |mems| == |os| && Within(s, s1, p, os[0])
    ensures RefusedWithin(s, p, os, mems, i) <==> RefusedWithin(s1, p, os[1..], mems[1..], i - 1)
  {
    GivenAfter(s, s1, p, os, i);
    if os[i].Binder? {
      ClashWithinAfter(s, s1, p, os, i);
      BeforeAfter(os, i);
      MakesAfter(s, s1, p, os, i);
    }
  }

  lemma WithinFrom(s: State, s1: State, p: Pid, os: seq<Obj>, mems: seq<Memory>, k: nat)
    requires |mems| == |os| > 0 && Within(s, s1, p, os[0]) && !RefusedWithin(s, p, os, mems, 0)
    requires FirstWithin(s1, p, os[1..], mems[1..], k)
    ensures FirstWithin(s, p, os, mems, k + 1)
  {
    forall i | 0 < i < |os|
      ensures RefusedWithin(s, p, os, mems, i) <==> RefusedWithin(s1, p, os[1..], mems[1..], i - 1)
    {
      WithinAfter(s, s1, p, os, mems, i);
    }
  }

  lemma FirstObjectWithin(s: State, p: Pid, os: seq<Obj>, thr: Option<Caller>, mems: seq<Memory>, lost: set<NodeId>,
                          ever: Option<NodeId>)
    requires Inv(s, lost) && Zero(s, ever) && p in s.tables && |mems| == |os| > 0
    ensures var (s1, r) := Translate(s, p, p, os[0], thr, mems[0]);
      && (r.None? <==> RefusedWithin(s, p, os, mems, 0))
      && Inv(s1, lost) && Zero(s1, ever) && p in s1.tables
      && (r.Some? ==> Within(s, s1, p, os[0]))
  {
    OneObject(s, p, p, os[0], thr, mems[0], lost, ever);
    WithinFirst(s, p, os, mems);
    if Translate(s, p, p, os[0], thr, mems[0]).1.Some? { TranslateWithin(s, p, os[0], thr, mems[0], lost, ever); }
  }

  lemma {:induction false} StopWithin(s: State, p: Pid, os: seq<Obj>, thr: Option<Caller>, mems: seq<Memory>,
                                      lost: set<NodeId>, ever: Option<NodeId>)
    requires Inv(s, lost) && Zero(s, ever) && p in s.tables && |mems| == |os|
    ensures FirstWithin(s, p, os, mems, |TranslateAll(s, p, p, os, thr, mems).1|)
    decreases |os|
  {
    if os != [] {
      var (s1, r) := Translate(s, p, p, os[0], thr, mems[0]);
      FirstObjectWithin(s, p, os, thr, mems, lost, ever);
      if r.Some? { StopWithin(s1, p, os[1..], thr, mems[1..], lost, ever); }
      StopWithinNext(s, s1, p, os, thr, mems, r);
    }
  }

  lemma StopWithinNext(s: State, s1: State, p: Pid, os: seq<Obj>, thr: Option<Caller>, mems: seq<Memory>, r: Option<Obj>)
    requires p in s.tables && p in s1.tables && |mems| == |os| > 0
    requires (s1, r) == Translate(s, p, p, os[0], thr, mems[0])
    requires r.None? <==> RefusedWithin(s, p, os, mems, 0)
    requires r.Some? ==> Within(s, s1, p, os[0])
    requires r.Some? ==> FirstWithin(s1, p, os[1..], mems[1..], |TranslateAll(s1, p, p, os[1..], thr, mems[1..]).1|)
    ensures FirstWithin(s, p, os, mems, |TranslateAll(s, p, p, os, thr, mems).1|)
  {
    if r.Some? { WithinFrom(s, s1, p, os, mems, |TranslateAll(s1, p, p, os[1..], thr, mems[1..]).1|); }
  }

  // ---------------------------------------------------------------- any parcel

  /** `k` is the first object of the parcel that the state as it stands refuses, or the end of the parcel. */
  ghost predicate RefusedFirst(s: State, from: Pid, to: Pid, os: seq<Obj>, mems: seq<Memory>, k: nat)
    requires to in s.tables && |mems| == |os|
  {
    if from == to then FirstWithin(s, to, os, mems, k) else FirstBetween(s, from, to, os, mems, k)
  }

  /** What the walk rewrites is known before the send: everything before the first object refused by the state as it
      stands. */
  lemma StopIsKnown(s: State, from: Pid, to: Pid, os: seq<Obj>, thr: Option<Caller>, mems: seq<Memory>, k: nat,
                    lost: set<NodeId>, ever: Option<NodeId>)
    requires Inv(s, lost) && Zero(s, ever) && from in s.tables && to in s.tables && |mems| == |os|
    ensures |TranslateAll(s, from, to, os, thr, mems).1| == k <==> RefusedFirst(s, from, to, os, mems, k)
  {
    if from == to {
      StopWithin(s, to, os, thr, mems, lost, ever);
    } else {
      StopBetween(s, from, to, os, thr, mems, lost, ever);
    }
    OneRefusal(s, from, to, os, mems, |TranslateAll(s, from, to, os, thr, mems).1|, k);
  }

  lemma OneRefusal(s: State, from: Pid, to: Pid, os: seq<Obj>, mems: seq<Memory>, j: nat, k: nat)
    requires to in s.tables && |mems| == |os| && RefusedFirst(s, from, to, os, mems, j)
    ensures RefusedFirst(s, from, to, os, mems, k) <==> j == k
  {}
}
