/**
Whole parcels: translating every object of a parcel keeps its meaning and takes one count per object,
and releasing one object gives its count back (kext/binder_txn.c:470-569, 272-324).
*/
module Parcels {
  import opened Common
  import opened RefCounts
  import opened RefHandles
  import opened Transfer

  // ---------------------------------------------------------------- one object

  lemma ExtendsDenotes(s: State, s': State, p: Pid, o: Obj)
    requires Extends(s, s') && Owners(s) && Owners(s') && Denotes(s, p, o).Some?
    ensures Denotes(s', p, o) == Denotes(s, p, o)
  {
    match o
    case Binder(ptr, cookie, strong) =>
      var n := FindNode(s, p, ptr).value;
      assert Owns(s', p, ptr, n);
      FindNodeIs(s', p, ptr, n);
    case Handle(d, strong) => assert Holds(s, p, d, s.tables[p][d].node);
    case Other(_) =>
  }

  lemma ExtendsTrans(a: State, b: State, c: State)
    requires Extends(a, b) && Extends(b, c)
    ensures Extends(a, c)
  {}

  ghost predicate SameCounts(s: State, s': State) {
    forall k :: Count(s', k) == Count(s, k)
  }

  lemma NewNodeCounts(s: State, p: Pid, ptr: U64, cookie: U64, lost: set<NodeId>, ever: Option<NodeId>)
    requires Inv(s, lost) && Zero(s, ever) && p in s.tables && FindNode(s, p, ptr).None?
    ensures var s' := NewNode(s, p, ptr, cookie);
      Inv(s', lost) && Zero(s', ever) && Extends(s, s') && SameCounts(s, s') && FindNode(s', p, ptr) == Some(s.next)
  {
    var s' := NewNode(s, p, ptr, cookie);
    NewNodeInv(s, p, ptr, cookie, lost);
    NewNodeLocals(s, p, ptr, cookie);
    forall k ensures Count(s', k) == Count(s, k) {
      if k.LocalKey? { LocalSame(s, s', k.p, k.ptr, k.strong); }
    }
    assert Owns(s', p, ptr, s.next);
    FindNodeIs(s', p, ptr, s.next);
  }

  lemma NewNodeLocals(s: State, p: Pid, ptr: U64, cookie: U64)
    requires s.next !in s.nodes
    ensures SameLocals(s, NewNode(s, p, ptr, cookie))
  {}

  /** What translating one object does, whichever way it goes. */
  ghost predicate Translated(s: State, s': State, from: Pid, to: Pid, o: Obj, r: Option<Obj>) {
    && Extends(s, s')
    && (r.None? ==> SameCounts(s, s'))
    && (r.Some? ==> OneUp(s, s', KeyOf(to, r.value)))
    && (r.Some? && !o.Other? ==> Denotes(s', from, o).Some? && Denotes(s', to, r.value) == Denotes(s', from, o))
    && (r.Some? && o.Other? ==> r.value == o)
  }

  lemma TakeRefTranslated(s: State, from: Pid, to: Pid, o: Obj, n: NodeId, thr: Option<Caller>, mem: Memory,
                          lost: set<NodeId>, ever: Option<NodeId>)
    requires !o.Other?
    requires Inv(s, lost) && Zero(s, ever) && to in s.tables && n in s.nodes
    requires Denotes(s, from, o) == Some(Meaning(n, o.strong))
    ensures var (s', d) := TakeRefIf(s, to, n, o.strong, thr, mem);
      && Inv(s', lost) && Zero(s', ever)
      && Translated(s, s', from, to, o, if d.None? then None else Some(Handle(d.value, o.strong)))
  {
    var (s', d) := TakeRefIf(s, to, n, o.strong, thr, mem);
    if d.Some? {
      TakeRefCounts(s, to, n, o.strong, thr, lost, ever);
      TakeRefExtends(s, to, n, o.strong, thr, ever);
      TakenTranslated(s, s', from, to, o, n, d.value);
    }
  }

  lemma TakenTranslated(s: State, s': State, from: Pid, to: Pid, o: Obj, n: NodeId, d: Desc)
    requires !o.Other? && Owners(s) && Owners(s') && Extends(s, s')
    requires OneUp(s, s', RefKey(to, d, o.strong)) && Holds(s', to, d, n)
    requires Denotes(s, from, o) == Some(Meaning(n, o.strong))
    ensures Translated(s, s', from, to, o, Some(Handle(d, o.strong)))
  {
    ExtendsDenotes(s, s', from, o);
  }

  lemma NewBinderTranslated(s: State, from: Pid, to: Pid, o: Obj, thr: Option<Caller>, mem: Memory,
                            lost: set<NodeId>, ever: Option<NodeId>)
    requires Inv(s, lost) && Zero(s, ever) && from in s.tables && to in s.tables && o.Binder?
    requires FindNode(s, from, o.ptr).None?
    ensures var (s', d) := TakeRefIf(NewNode(s, from, o.ptr, o.cookie), to, s.next, o.strong, thr, mem);
      && Inv(s', lost) && Zero(s', ever)
      && Translated(s, s', from, to, o, if d.None? then None else Some(Handle(d.value, o.strong)))
  {
    var s1 := NewNode(s, from, o.ptr, o.cookie);
    NewNodeCounts(s, from, o.ptr, o.cookie, lost, ever);
    TakeRefTranslated(s1, from, to, o, s.next, thr, mem, lost, ever);
    var (s', d) := TakeRefIf(s1, to, s.next, o.strong, thr, mem);
    ThenTranslated(s, s1, s', from, to, o, if d.None? then None else Some(Handle(d.value, o.strong)));
  }

  lemma ThenTranslated(s: State, s1: State, s2: State, from: Pid, to: Pid, o: Obj, r: Option<Obj>)
    requires Extends(s, s1) && SameCounts(s, s1) && Translated(s1, s2, from, to, o, r)
    ensures Translated(s, s2, from, to, o, r)
  {
    ExtendsTrans(s, s1, s2);
  }

  lemma TranslateBinderIs(s: State, from: Pid, to: Pid, o: Obj, thr: Option<Caller>, mem: Memory,
                          lost: set<NodeId>, ever: Option<NodeId>)
    requires Inv(s, lost) && Zero(s, ever) && from in s.tables && to in s.tables && o.Binder?
    ensures var (s', r) := TranslateBinder(s, from, to, o, thr, mem);
      Inv(s', lost) && Zero(s', ever) && Translated(s, s', from, to, o, r)
  {
    var found := FindNode(s, from, o.ptr);
    if found.None? {
      if mem.node { NewBinderTranslated(s, from, to, o, thr, mem, lost, ever); }
    } else if o.cookie == s.nodes[found.value].cookie {
      TakeRefTranslated(s, from, to, o, found.value, thr, mem, lost, ever);
    }
  }

  lemma TranslateHandleIs(s: State, from: Pid, to: Pid, o: Obj, thr: Option<Caller>, mem: Memory,
                          lost: set<NodeId>, ever: Option<NodeId>)
    requires Inv(s, lost) && Zero(s, ever) && from in s.tables && to in s.tables && o.Handle?
    ensures var (s', r) := TranslateHandle(s, from, to, o, thr, mem);
      Inv(s', lost) && Zero(s', ever) && Translated(s, s', from, to, o, r)
  {
    if o.desc in s.tables[from] && s.tables[from][o.desc].node in s.nodes {
      var n := s.tables[from][o.desc].node;
      if s.nodes[n].owner == Some(to) {
        LocalUpCounts(s, n, o.strong, thr, lost, ever);
        var s' := UpdateRefs(s, n, o.strong, true, false, thr).0;
        LocalUpIs(s, n, o.strong, thr);
        ExtendsDenotes(s, s', from, o);
        assert Owns(s', to, s.nodes[n].ptr, n);
        FindNodeIs(s', to, s.nodes[n].ptr, n);
      } else {
        TakeRefTranslated(s, from, to, o, n, thr, mem, lost, ever);
      }
    }
  }

  lemma TranslateIs(s: State, from: Pid, to: Pid, o: Obj, thr: Option<Caller>, mem: Memory,
                    lost: set<NodeId>, ever: Option<NodeId>)
    requires Inv(s, lost) && Zero(s, ever) && from in s.tables && to in s.tables
    ensures var (s', r) := Translate(s, from, to, o, thr, mem);
      Inv(s', lost) && Zero(s', ever) && Translated(s, s', from, to, o, r)
  {
    match o
    case Binder(_, _, _) => TranslateBinderIs(s, from, to, o, thr, mem, lost, ever);
    case Handle(_, _) => TranslateHandleIs(s, from, to, o, thr, mem, lost, ever);
    case Other(_) => assert OneUp(s, s, NoKey);
  }

  /** A handle that reaches the owner of its object becomes the owner's own address and cookie. */
  lemma HandleGoesHome(s: State, from: Pid, to: Pid, d: Desc, strong: bool, thr: Option<Caller>, mem: Memory)
    requires from in s.tables && to in s.tables && d in s.tables[from] && s.tables[from][d].node in s.nodes
    requires s.nodes[s.tables[from][d].node].owner == Some(to)
    ensures var nd := s.nodes[s.tables[from][d].node];
      Translate(s, from, to, Handle(d, strong), thr, mem).1 == Some(Binder(nd.ptr, nd.cookie, strong))
  {
    LocalUpIs(s, s.tables[from][d].node, strong, thr);
  }

  // ---------------------------------------------------------------- a parcel translated

  /** The counts a parcel stands for in the process that holds it. */
  function Keys(p: Pid, os: seq<Obj>): multiset<Key> {
    if os == [] then multiset{} else multiset{KeyOf(p, os[0])} + Keys(p, os[1..])
  }

  /** The walk over a parcel: the state, and the objects rewritten before the end or the first failure. */
  ghost function TranslateAll(s: State, from: Pid, to: Pid, os: seq<Obj>, thr: Option<Caller>, mems: seq<Memory>)
    : (State, seq<Obj>)
    requires to in s.tables && |mems| == |os|
    decreases |os|
  {
    if os == [] then (s, [])
    else
      var (s1, r) := Translate(s, from, to, os[0], thr, mems[0]);
      if r.None? || to !in s1.tables then (s1, [])
      else
        var (s2, rest) := TranslateAll(s1, from, to, os[1..], thr, mems[1..]);
        (s2, [r.value] + rest)
  }

  /** What a walk has done when it stops: all it rewrote means the same to the receiver, and each
      rewritten object holds one count. */
  ghost predicate Carried(s: State, s': State, from: Pid, to: Pid, os: seq<Obj>, rs: seq<Obj>) {
    && Extends(s, s') && |rs| <= |os|
    && (forall i | 0 <= i < |rs| :: !os[i].Other? ==>
          Denotes(s', from, os[i]).Some? && Denotes(s', to, rs[i]) == Denotes(s', from, os[i]))
    && (forall i | 0 <= i < |rs| && os[i].Other? :: rs[i] == os[i])
    && (forall k | k != NoKey :: Count(s', k) == Count(s, k) + Keys(to, rs)[k])
  }

  /** Translation preserves meaning, object by object, and counts each object once. */
  lemma {:induction false} TranslateAllIs(s: State, from: Pid, to: Pid, os: seq<Obj>, thr: Option<Caller>,
                                          mems: seq<Memory>, lost: set<NodeId>, ever: Option<NodeId>)
    requires Inv(s, lost) && Zero(s, ever) && from in s.tables && to in s.tables && |mems| == |os|
    ensures var (s', rs) := TranslateAll(s, from, to, os, thr, mems);
      Inv(s', lost) && Zero(s', ever) && Carried(s, s', from, to, os, rs)
    decreases |os|
  {
    if os != [] {
      TranslateIs(s, from, to, os[0], thr, mems[0], lost, ever);
      var (s1, r) := Translate(s, from, to, os[0], thr, mems[0]);
      if r.Some? {
        TranslateAllIs(s1, from, to, os[1..], thr, mems[1..], lost, ever);
        var (s2, rest) := TranslateAll(s1, from, to, os[1..], thr, mems[1..]);
        CarryOne(s, s1, s2, from, to, os, r.value, rest);
      }
    }
  }

  lemma CarryOne(s: State, s1: State, s2: State, from: Pid, to: Pid, os: seq<Obj>, r: Obj, rest: seq<Obj>)
    requires os != [] && Owners(s1) && Owners(s2)
    requires Translated(s, s1, from, to, os[0], Some(r)) && Carried(s1, s2, from, to, os[1..], rest)
    ensures Carried(s, s2, from, to, os, [r] + rest)
  {
    var rs := [r] + rest;
    ExtendsTrans(s, s1, s2);
    assert rs[1..] == rest;
    forall i | 0 <= i < |rs|
      ensures !os[i].Other? ==> Denotes(s2, from, os[i]).Some? && Denotes(s2, to, rs[i]) == Denotes(s2, from, os[i])
      ensures os[i].Other? ==> rs[i] == os[i]
    {
      if i == 0 {
        if !os[0].Other? {
          ExtendsDenotes(s1, s2, from, os[0]);
          ExtendsDenotes(s1, s2, to, r);
        }
      } else {
        assert os[i] == os[1..][i - 1] && rs[i] == rest[i - 1];
      }
    }
  }

  // ---------------------------------------------------------------- one object released

  /** What was named and still is, is named the same. */
  ghost predicate Shrinks(s: State, s': State) {
    && s'.tables.Keys == s.tables.Keys
    && (forall p, d, n | Holds(s', p, d, n) :: Holds(s, p, d, n))
    && s'.nodes.Keys <= s.nodes.Keys
  }

  /** Exactly that count went down by one, if it was not already zero. */
  ghost predicate OneDown(s: State, s': State, k: Key) {
    forall j :: Count(s', j) == Count(s, j) - (if j == k && Count(s, k) > 0 then 1 else 0)
  }

  /** Freeing a node loses no count. */
  lemma MaybeFreeCounts(s: State, n: NodeId)
    requires n in s.nodes && Owners(s) && Owners(MaybeFree(s, n))
    ensures SameCounts(s, MaybeFree(s, n))
  {
    var s' := MaybeFree(s, n);
    if Freeable(s.nodes[n]) {
      assert SameLocals(s, s');
      forall k ensures Count(s', k) == Count(s, k) {
        if k.LocalKey? { LocalSame(s, s', k.p, k.ptr, k.strong); }
      }
    }
  }

  lemma WithoutRefCounts(s: State, p: Pid, d: Desc, nd: Node, k: Key)
    requires p in s.tables && d in s.tables[p] && s.tables[p][d].node in s.nodes
    requires var was := s.nodes[s.tables[p][d].node];
      SameOwner(was, nd) && nd.localStrong == was.localStrong && nd.localWeak == was.localWeak
    requires Owners(s) && Owners(WithoutRef(s, p, d, nd))
    ensures Count(WithoutRef(s, p, d, nd), k) == if k.RefKey? && k.p == p && k.d == d then 0 else Count(s, k)
  {
    if k.LocalKey? {
      var s' := WithoutRef(s, p, d, nd);
      assert SameLocals(s, s');
      LocalSame(s, s', k.p, k.ptr, k.strong);
    }
  }

  lemma NodeLessLocals(nd: Node, r: Ref, strong: bool, thr: Option<Caller>)
    ensures var nd' := NodeLess(nd, r, strong, thr);
      SameOwner(nd, nd') && nd'.localStrong == nd.localStrong && nd'.localWeak == nd.localWeak
  {}

  lemma ReleaseHandleIs(s: State, p: Pid, d: Desc, strong: bool, thr: Option<Caller>, lost: set<NodeId>)
    requires Inv(s, lost) && p in s.tables && d in s.tables[p] && s.tables[p][d].node in s.nodes
    ensures var s' := RefUpdate(s, p, d, strong, false, thr).0;
      Inv(s', lost) && OneDown(s, s', RefKey(p, d, strong)) && Shrinks(s, s')
  {
    var s' := RefUpdate(s, p, d, strong, false, thr).0;
    DropRefInv(s, p, d, strong, thr, lost);
    if !Refused(s, p, d, strong, false) {
      var r := s.tables[p][d];
      DropRefIs(s, p, d, strong, thr, lost);
      NodeLessLocals(s.nodes[r.node], r, strong, thr);
      if Lowered(r, strong).strong + Lowered(r, strong).weak > 0 {
        LoweredCounts(s, s', p, d, strong, NodeLess(s.nodes[r.node], r, strong, thr));
      } else {
        var nd := NodeLess(s.nodes[r.node], r, strong, thr);
        EmptiedCounts(s, s', p, d, strong, nd.(refs := nd.refs - {p}));
      }
    }
  }

  lemma LoweredCounts(s: State, s': State, p: Pid, d: Desc, strong: bool, nd: Node)
    requires p in s.tables && d in s.tables[p] && s.tables[p][d].node in s.nodes && !Refused(s, p, d, strong, false)
    requires s' == WithRef(s, p, d, Lowered(s.tables[p][d], strong), nd) && Owners(s) && Owners(s')
    requires var was := s.nodes[s.tables[p][d].node];
      SameOwner(was, nd) && nd.localStrong == was.localStrong && nd.localWeak == was.localWeak
    ensures OneDown(s, s', RefKey(p, d, strong)) && Shrinks(s, s')
  {
    forall k ensures Count(s', k) == Count(s, k) - One(k == RefKey(p, d, strong)) {
      WithRefCounts(s, p, d, Lowered(s.tables[p][d], strong), nd, k);
    }
  }

  lemma EmptiedCounts(s: State, s': State, p: Pid, d: Desc, strong: bool, nd: Node)
    requires Owners(s) && Owners(s')
    requires p in s.tables && d in s.tables[p] && s.tables[p][d].node in s.nodes && !Refused(s, p, d, strong, false)
    requires Lowered(s.tables[p][d], strong).strong + Lowered(s.tables[p][d], strong).weak == 0
    requires var was := s.nodes[s.tables[p][d].node];
      SameOwner(was, nd) && nd.localStrong == was.localStrong && nd.localWeak == was.localWeak
    requires s' == MaybeFree(WithoutRef(s, p, d, nd), s.tables[p][d].node)
    ensures OneDown(s, s', RefKey(p, d, strong)) && Shrinks(s, s')
  {
    var s1 := WithoutRef(s, p, d, nd);
    var n := s.tables[p][d].node;
    SameOwners(s, n, nd, s1);
    MaybeFreeCounts(s1, n);
    forall k ensures Count(s1, k) == Count(s, k) - One(k == RefKey(p, d, strong)) {
      WithoutRefCounts(s, p, d, nd, k);
    }
  }

  /** The owner's count goes down on the node, before it is looked at for freeing. */
  lemma LocalDownCounts(s: State, s1: State, n: NodeId, strong: bool)
    requires Owners(s) && Owners(s1) && n in s.nodes && s.nodes[n].owner.Some? && Local(s.nodes[n], strong) > 0
    requires s1.tables == s.tables && s1.nodes.Keys == s.nodes.Keys && SameOwner(s.nodes[n], s1.nodes[n])
    requires forall m | m in s.nodes && m != n :: s1.nodes[m] == s.nodes[m]
    requires Local(s1.nodes[n], strong) == Local(s.nodes[n], strong) - 1
    requires Local(s1.nodes[n], !strong) == Local(s.nodes[n], !strong)
    ensures OneDown(s, s1, LocalKey(s.nodes[n].owner.value, s.nodes[n].ptr, strong))
  {
    var p, a := s.nodes[n].owner.value, s.nodes[n].ptr;
    assert Owns(s, p, a, n);
    FindNodeIs(s, p, a, n);
    forall k ensures Count(s1, k) == Count(s, k) - One(k == LocalKey(p, a, strong)) {
      if k.LocalKey? { LocalShift(s, s1, n, k.p, k.ptr, k.strong); }
    }
  }

  lemma ReleaseLocalIs(s: State, n: NodeId, strong: bool, lost: set<NodeId>)
    requires Inv(s, lost) && n in s.nodes && s.nodes[n].owner.Some?
    ensures var s' := UpdateRefs(s, n, strong, false, false, None).0;
      Inv(s', lost) && OneDown(s, s', LocalKey(s.nodes[n].owner.value, s.nodes[n].ptr, strong)) && Shrinks(s, s')
  {
    LocalUpdateInv(s, n, strong, false, None, lost);
    var p, a := s.nodes[n].owner.value, s.nodes[n].ptr;
    assert Owns(s, p, a, n);
    FindNodeIs(s, p, a, n);
    var nd := Counted(s.nodes[n], strong, false, false);
    if nd.Some? { LocalFreed(s, n, strong, Told(s.nodes[n], nd.value, None)); }
  }

  lemma LocalFreed(s: State, n: NodeId, strong: bool, nd: Node)
    requires Owners(s) && n in s.nodes && s.nodes[n].owner.Some? && SameOwner(s.nodes[n], nd)
    requires Local(s.nodes[n], strong) > 0 && Local(nd, strong) == Local(s.nodes[n], strong) - 1
    requires Local(nd, !strong) == Local(s.nodes[n], !strong)
    requires Owners(MaybeFree(s.(nodes := s.nodes[n := nd]), n))
    ensures var s' := MaybeFree(s.(nodes := s.nodes[n := nd]), n);
      OneDown(s, s', LocalKey(s.nodes[n].owner.value, s.nodes[n].ptr, strong)) && Shrinks(s, s')
  {
    var s1 := s.(nodes := s.nodes[n := nd]);
    SameOwners(s, n, nd, s1);
    LocalDownCounts(s, s1, n, strong);
    MaybeFreeCounts(s1, n);
  }

  lemma ReleaseIs(s: State, p: Pid, o: Obj, lost: set<NodeId>)
    requires Inv(s, lost)
    ensures Inv(Release(s, p, o), lost) && Shrinks(s, Release(s, p, o))
    ensures OneDown(s, Release(s, p, o), KeyOf(p, o))
  {
    match o
    case Binder(ptr, _, strong) =>
      var n := FindNode(s, p, ptr);
      if n.Some? { ReleaseLocalIs(s, n.value, strong, lost); }
    case Handle(d, strong) =>
      if p in s.tables && d in s.tables[p] && s.tables[p][d].node in s.nodes {
        ReleaseHandleIs(s, p, d, strong, None, lost);
      } else if p in s.tables && d in s.tables[p] {
        assert Holds(s, p, d, s.tables[p][d].node);
      }
    case Other(_) =>
  }
}
