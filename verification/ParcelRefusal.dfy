/**
When a parcel is refused (kext/binder_txn.c:128-207, 470-569). Whether one object fails is decided on the state
before it, and where a whole parcel between two processes stops is decided before the send, by the sender's names and
the receiver's handles alone. ParcelSelf.dfy has the parcels a process sends itself, and both together.
*/
module ParcelRefusal {
  import opened Common
  import opened RefCounts
  import opened RefHandles
  import opened Transfer
  import opened Parcels

  /** The process has a handle on the node. */
  ghost predicate Has(s: State, p: Pid, n: NodeId) { exists d :: Holds(s, p, d, n) }

  /** What an object names for its sender: a node there is, the node a new address will get, or nothing. */
  datatype Name = Old(n: NodeId) | New(ptr: U64) | Nothing

  ghost function Names(s: State, from: Pid, o: Obj): Name {
    match o
    case Binder(ptr, _, _) =>
      var n := FindNode(s, from, ptr);
      if n.Some? then Old(n.value) else New(ptr)
    case Handle(d, _) => if from in s.tables && d in s.tables[from] then Old(s.tables[from][d].node) else Nothing
    case Other(_) => Nothing
  }

  /** The receiver needs no new handle: it has one, or a handle comes home to it. */
  ghost predicate Reached(s: State, to: Pid, o: Obj, name: Name) {
    name.Old? && (Has(s, to, name.n) || (o.Handle? && name.n in s.nodes && s.nodes[name.n].owner == Some(to)))
  }

  // ---------------------------------------------------------------- one object

  /** The refusals of one object: a descriptor or buffer not accepted, a descriptor the sender does not have, another
      cookie than the node's, no memory for a node or for a handle that is needed. */
  ghost predicate Refuses(s: State, from: Pid, to: Pid, o: Obj, mem: Memory) {
    var name := Names(s, from, o);
    match o
    case Other(good) => !good
    case Handle(_, _) => name.Nothing? || (!mem.ref && !Reached(s, to, o, name))
    case Binder(_, cookie, _) =>
      || (name.Old? && name.n in s.nodes && s.nodes[name.n].cookie != cookie)
      || (name.New? && !mem.node)
      || (!mem.ref && !Reached(s, to, o, name))
  }

  lemma RefusedIff(s: State, from: Pid, to: Pid, o: Obj, thr: Option<Caller>, mem: Memory)
    requires Tables(s) && from in s.tables && to in s.tables
    ensures Translate(s, from, to, o, thr, mem).1.None? <==> Refuses(s, from, to, o, mem)
  {
    match o
    case Binder(ptr, cookie, strong) =>
      var n := FindNode(s, from, ptr);
      if n.Some? {
        DescIff(s, to, n.value);
      } else {
        var s1 := NewNode(s, from, ptr, cookie);
        DescIff(s1, to, s.next);
        forall d ensures !Holds(s1, to, d, s.next) { assert !Holds(s, to, d, s.next); }
      }
    case Handle(d, strong) =>
      if d in s.tables[from] {
        var n := s.tables[from][d].node;
        assert Holds(s, from, d, n);
        DescIff(s, to, n);
        LocalUpIs(s, n, strong, thr);
      }
    case Other(_) =>
  }

  lemma DescIff(s: State, p: Pid, n: NodeId)
    ensures FindDesc(s, p, n).Some? <==> Has(s, p, n)
  {
    if d :| Holds(s, p, d, n) {}
  }

  // ---------------------------------------------------------------- the first refusal on the way

  /** The state the walk is in when it comes to object `i`. */
  ghost function StateAt(s: State, from: Pid, to: Pid, os: seq<Obj>, thr: Option<Caller>, mems: seq<Memory>, i: nat): State
    requires to in s.tables && |mems| == |os| && i <= |os|
  {
    TranslateAll(s, from, to, os[..i], thr, mems[..i]).0
  }

  /** `k` is the first object refused, or the end of the parcel. */
  ghost predicate StopsAt(s: State, from: Pid, to: Pid, os: seq<Obj>, thr: Option<Caller>, mems: seq<Memory>, k: nat)
    requires to in s.tables && |mems| == |os|
  {
    && k <= |os|
    && (forall i | 0 <= i < k :: !Refuses(StateAt(s, from, to, os, thr, mems, i), from, to, os[i], mems[i]))
    && (k < |os| ==> Refuses(StateAt(s, from, to, os, thr, mems, k), from, to, os[k], mems[k]))
  }

  /** What a translated object leaves for the rest of the walk. */
  lemma StateAtNext(s: State, from: Pid, to: Pid, os: seq<Obj>, thr: Option<Caller>, mems: seq<Memory>, i: nat)
    requires to in s.tables && |mems| == |os| && 0 < i <= |os|
    requires Translate(s, from, to, os[0], thr, mems[0]).1.Some? && to in Translate(s, from, to, os[0], thr, mems[0]).0.tables
    ensures var s1 := Translate(s, from, to, os[0], thr, mems[0]).0;
      StateAt(s, from, to, os, thr, mems, i) == StateAt(s1, from, to, os[1..], thr, mems[1..], i - 1)
  {
    assert os[..i][1..] == os[1..][..i - 1];
    assert mems[..i][1..] == mems[1..][..i - 1];
  }

  /** A walk rewrites the objects before the first it refuses, and no others. */
  lemma {:induction false} WalkStopsAt(s: State, from: Pid, to: Pid, os: seq<Obj>, thr: Option<Caller>,
                                       mems: seq<Memory>, lost: set<NodeId>, ever: Option<NodeId>)
    requires Inv(s, lost) && Zero(s, ever) && from in s.tables && to in s.tables && |mems| == |os|
    ensures StopsAt(s, from, to, os, thr, mems, |TranslateAll(s, from, to, os, thr, mems).1|)
    decreases |os|
  {
    if os != [] {
      var (s1, r) := Translate(s, from, to, os[0], thr, mems[0]);
      OneObject(s, from, to, os[0], thr, mems[0], lost, ever);
      assert StateAt(s, from, to, os, thr, mems, 0) == s;
      if r.Some? {
        WalkStopsAt(s1, from, to, os[1..], thr, mems[1..], lost, ever);
        StopsFrom(s, s1, from, to, os, thr, mems, |TranslateAll(s1, from, to, os[1..], thr, mems[1..]).1|);
      }
    }
  }

  /** One object: refused exactly when it says, and otherwise the walk goes on. */
  lemma OneObject(s: State, from: Pid, to: Pid, o: Obj, thr: Option<Caller>, mem: Memory, lost: set<NodeId>,
                  ever: Option<NodeId>)
    requires Inv(s, lost) && Zero(s, ever) && from in s.tables && to in s.tables
    ensures var (s1, r) := Translate(s, from, to, o, thr, mem);
      (r.None? <==> Refuses(s, from, to, o, mem)) && Inv(s1, lost) && Zero(s1, ever) && s1.tables.Keys == s.tables.Keys
  {
    RefusedIff(s, from, to, o, thr, mem);
    TranslateIs(s, from, to, o, thr, mem, lost, ever);
  }

  lemma StopsFrom(s: State, s1: State, from: Pid, to: Pid, os: seq<Obj>, thr: Option<Caller>, mems: seq<Memory>, k: nat)
    requires to in s.tables && to in s1.tables && |mems| == |os| > 0
    requires Translate(s, from, to, os[0], thr, mems[0]).1.Some? && s1 == Translate(s, from, to, os[0], thr, mems[0]).0
    requires !Refuses(StateAt(s, from, to, os, thr, mems, 0), from, to, os[0], mems[0])
    requires StopsAt(s1, from, to, os[1..], thr, mems[1..], k)
    ensures StopsAt(s, from, to, os, thr, mems, k + 1)
  {
    forall i | 0 < i <= |os|
      ensures StateAt(s, from, to, os, thr, mems, i) == StateAt(s1, from, to, os[1..], thr, mems[1..], i - 1)
    {
      StateAtNext(s, from, to, os, thr, mems, i);
    }
    forall i | 0 <= i < k + 1 ensures !Refuses(StateAt(s, from, to, os, thr, mems, i), from, to, os[i], mems[i]) {
      if i > 0 { assert os[1..][i - 1] == os[i] && mems[1..][i - 1] == mems[i]; }
    }
  }

  lemma OneStop(s: State, from: Pid, to: Pid, os: seq<Obj>, thr: Option<Caller>, mems: seq<Memory>, j: nat, k: nat)
    requires to in s.tables && |mems| == |os|
    requires StopsAt(s, from, to, os, thr, mems, j) && StopsAt(s, from, to, os, thr, mems, k)
    ensures j == k
  {}

  // ---------------------------------------------------------------- the first refusal before the send

  /** An earlier object of the parcel names the same. */
  ghost predicate Earlier(s: State, from: Pid, os: seq<Obj>, i: nat)
    requires i < |os|
  {
    exists j :: 0 <= j < i && Names(s, from, os[j]) == Names(s, from, os[i])
  }

  /** The object's cookie is not the one of its node, or of the first object that names the node to be. */
  ghost predicate Clash(s: State, from: Pid, os: seq<Obj>, i: nat)
    requires i < |os|
  {
    os[i].Binder? &&
    match Names(s, from, os[i])
    case Old(n) => n in s.nodes && s.nodes[n].cookie != os[i].cookie
    case New(_) => exists j: nat :: FirstOf(s, from, os, i, j) && os[j].Binder? && os[j].cookie != os[i].cookie
    case Nothing => false
  }

  ghost predicate FirstOf(s: State, from: Pid, os: seq<Obj>, i: nat, j: nat)
    requires i < |os|
  {
    j < i && Names(s, from, os[j]) == Names(s, from, os[i]) && !Earlier(s, from, os, j)
  }

  /** Object `i` is refused, said of the state before the parcel is sent. */
  ghost predicate RefusedBetween(s: State, from: Pid, to: Pid, os: seq<Obj>, mems: seq<Memory>, i: nat)
    requires i < |os| && |mems| == |os|
  {
    var name := Names(s, from, os[i]);
    var needsRef := !Reached(s, to, os[i], name) && !Earlier(s, from, os, i);
    match os[i]
    case Other(good) => !good
    case Handle(_, _) => name.Nothing? || (!mems[i].ref && needsRef)
    case Binder(_, _, _) =>
      || Clash(s, from, os, i)
      || (name.New? && !mems[i].node && !Earlier(s, from, os, i))
      || (!mems[i].ref && needsRef)
  }

  ghost predicate FirstBetween(s: State, from: Pid, to: Pid, os: seq<Obj>, mems: seq<Memory>, k: nat)
    requires |mems| == |os|
  {
    && k <= |os|
    && (forall i | 0 <= i < k :: !RefusedBetween(s, from, to, os, mems, i))
    && (k < |os| ==> RefusedBetween(s, from, to, os, mems, k))
  }

  /** The node that a translated object gives the receiver a handle on. */
  ghost predicate Gives(s: State, to: Pid, name: Name, n: NodeId) {
    match name
    case Old(m) => n == m && n in s.nodes && s.nodes[n].owner != Some(to)
    case New(_) => n == s.next
    case Nothing => false
  }

  /** What is left of translating `o` as far as later refusals go. */
  ghost predicate After(s: State, s1: State, from: Pid, to: Pid, o: Obj) {
    var name := Names(s, from, o);
    && from in s.tables && from in s1.tables && s1.tables[from] == s.tables[from]
    && s1.nodes.Keys == s.nodes.Keys + (if name.New? then {s.next} else {})
    && (forall n | n in s.nodes :: SameOwner(s.nodes[n], s1.nodes[n]) && s1.nodes[n].cookie == s.nodes[n].cookie)
    && (name.New? ==> o.Binder? && s1.nodes[s.next].owner == Some(from) && s1.nodes[s.next].ptr == o.ptr
                      && s1.nodes[s.next].cookie == o.cookie)
    && (forall n :: Has(s1, to, n) <==> Has(s, to, n) || Gives(s, to, name, n))
  }

  /** A handle on `n` is all that anybody gains, and `to` gains it. */
  ghost predicate Gains(s: State, s1: State, to: Pid, n: NodeId) {
    && s1.tables.Keys == s.tables.Keys && (forall p | p in s.tables && p != to :: s1.tables[p] == s.tables[p])
    && s1.nodes.Keys == s.nodes.Keys
    && (forall m | m in s.nodes :: SameOwner(s.nodes[m], s1.nodes[m]) && s1.nodes[m].cookie == s.nodes[m].cookie)
    && (forall m :: Has(s1, to, m) <==> Has(s, to, m) || m == n)
  }

  lemma TakeRefGains(s: State, to: Pid, n: NodeId, strong: bool, thr: Option<Caller>, ever: Option<NodeId>)
    requires Tables(s) && Zero(s, ever) && to in s.tables && n in s.nodes
    ensures Gains(s, TakeRef(s, to, n, strong, thr).0, to, n)
  {
    var (s1, d) := TakeRef(s, to, n, strong, thr);
    FreshDesc(s, to, n, ever);
    TakeRefIs(s, to, n, strong, thr);
    NodeAfterLocals(s, to, n, strong, thr);
    var r := Bumped(RefBefore(s, to, n), strong);
    WithRefHolds(s, to, d, r, NodeAfter(s, to, n, strong, thr));
    assert Holds(s1, to, d, n);
    forall m ensures Has(s1, to, m) <==> Has(s, to, m) || m == n {
      if e :| Holds(s, to, e, m) { assert Holds(s1, to, e, m); }
      if e :| Holds(s1, to, e, m) { assert Holds(s, to, e, m) || m == n; }
    }
  }

  lemma OldAfter(s: State, s1: State, from: Pid, to: Pid, o: Obj, n: NodeId)
    requires from in s.tables && from != to && n in s.nodes && s.nodes[n].owner != Some(to)
    requires Names(s, from, o) == Old(n) && Gains(s, s1, to, n)
    ensures After(s, s1, from, to, o)
  {}

  lemma NewAfter(s: State, s1: State, from: Pid, to: Pid, o: Obj)
    requires o.Binder? && from in s.tables && from != to && Names(s, from, o) == New(o.ptr) && s.next !in s.nodes
    requires Gains(NewNode(s, from, o.ptr, o.cookie), s1, to, s.next)
    ensures After(s, s1, from, to, o)
  {
    SameHas(s, NewNode(s, from, o.ptr, o.cookie), to);
  }

  lemma BinderAfter(s: State, from: Pid, to: Pid, o: Obj, thr: Option<Caller>, mem: Memory, ever: Option<NodeId>)
    requires Tables(s) && Owners(s) && Zero(s, ever) && from in s.tables && to in s.tables && from != to && o.Binder?
    requires TranslateBinder(s, from, to, o, thr, mem).1.Some?
    ensures After(s, TranslateBinder(s, from, to, o, thr, mem).0, from, to, o)
  {
    var s1 := TranslateBinder(s, from, to, o, thr, mem).0;
    var found := FindNode(s, from, o.ptr);
    if found.Some? {
      TakeRefGains(s, to, found.value, o.strong, thr, ever);
      OldAfter(s, s1, from, to, o, found.value);
    } else {
      NewNodeTables(s, from, o.ptr, o.cookie);
      TakeRefGains(NewNode(s, from, o.ptr, o.cookie), to, s.next, o.strong, thr, ever);
      NewAfter(s, s1, from, to, o);
    }
  }

  lemma HandleAfter(s: State, from: Pid, to: Pid, o: Obj, thr: Option<Caller>, mem: Memory, ever: Option<NodeId>)
    requires Tables(s) && Zero(s, ever) && from in s.tables && to in s.tables && from != to && o.Handle?
    requires TranslateHandle(s, from, to, o, thr, mem).1.Some?
    ensures After(s, TranslateHandle(s, from, to, o, thr, mem).0, from, to, o)
  {
    var s1 := TranslateHandle(s, from, to, o, thr, mem).0;
    var n := s.tables[from][o.desc].node;
    if s.nodes[n].owner == Some(to) {
      LocalUpIs(s, n, o.strong, thr);
      SameHas(s, s1, to);
    } else {
      TakeRefGains(s, to, n, o.strong, thr, ever);
      OldAfter(s, s1, from, to, o, n);
    }
  }

  lemma NewNodeTables(s: State, p: Pid, ptr: U64, cookie: U64)
    requires Tables(s)
    ensures Tables(NewNode(s, p, ptr, cookie)) && s.next !in s.nodes
  {
    var s1 := NewNode(s, p, ptr, cookie);
    forall q, d, n ensures Holds(s1, q, d, n) <==> Holds(s, q, d, n) {}
  }

  lemma TranslateAfter(s: State, from: Pid, to: Pid, o: Obj, thr: Option<Caller>, mem: Memory, ever: Option<NodeId>)
    requires Tables(s) && Owners(s) && Zero(s, ever) && from in s.tables && to in s.tables && from != to
    requires Translate(s, from, to, o, thr, mem).1.Some?
    ensures After(s, Translate(s, from, to, o, thr, mem).0, from, to, o)
  {
    match o
    case Binder(_, _, _) => BinderAfter(s, from, to, o, thr, mem, ever);
    case Handle(_, _) => HandleAfter(s, from, to, o, thr, mem, ever);
    case Other(_) =>
  }

  lemma SameHas(s: State, s1: State, to: Pid)
    requires s1.tables == s.tables
    ensures forall n :: Has(s1, to, n) <==> Has(s, to, n)
  {
    forall n ensures Has(s1, to, n) <==> Has(s, to, n) {
      if d :| Holds(s, to, d, n) { assert Holds(s1, to, d, n); }
      if d :| Holds(s1, to, d, n) { assert Holds(s, to, d, n); }
    }
  }

  // ---------------------------------------------------------------- names after one object

  /** What a name becomes once the first object is translated. */
  ghost function Renamed(s: State, first: Name, name: Name): Name {
    if first.New? && name == first then Old(s.next) else name
  }

  lemma NamesAfter(s: State, s1: State, from: Pid, to: Pid, first: Obj, o: Obj)
    requires Tables(s) && Owners(s) && Owners(s1) && After(s, s1, from, to, first)
    ensures Names(s1, from, o) == Renamed(s, Names(s, from, first), Names(s, from, o))
    ensures Names(s, from, o).Old? ==> Names(s, from, o).n in s.nodes
  {
    match o
    case Binder(ptr, _, _) =>
      if n :| Owns(s, from, ptr, n) {
        assert Owns(s1, from, ptr, n);
        FindNodeIs(s, from, ptr, n);
        FindNodeIs(s1, from, ptr, n);
      } else if Names(s, from, first) == New(ptr) {
        assert Owns(s1, from, ptr, s.next);
        FindNodeIs(s1, from, ptr, s.next);
      } else {
        forall n ensures !Owns(s1, from, ptr, n) { assert !Owns(s, from, ptr, n); }
      }
    case Handle(d, _) => if d in s.tables[from] { assert Holds(s, from, d, s.tables[from][d].node); }
    case Other(_) =>
  }

  lemma SameNames(s: State, s1: State, from: Pid, to: Pid, first: Obj, a: Obj, b: Obj)
    requires Tables(s) && Owners(s) && Owners(s1) && After(s, s1, from, to, first)
    ensures Names(s1, from, a) == Names(s1, from, b) <==> Names(s, from, a) == Names(s, from, b)
  {
    NamesAfter(s, s1, from, to, first, a);
    NamesAfter(s, s1, from, to, first, b);
    assert s.next !in s.nodes;
  }

  lemma EarlierAfter(s: State, s1: State, from: Pid, to: Pid, os: seq<Obj>, i: nat)
    requires 0 < i < |os| && Tables(s) && Owners(s) && Owners(s1) && After(s, s1, from, to, os[0])
    ensures Earlier(s, from, os, i) <==> Names(s, from, os[0]) == Names(s, from, os[i]) || Earlier(s1, from, os[1..], i - 1)
  {
    if j :| 0 < j < i && Names(s, from, os[j]) == Names(s, from, os[i]) {
      SameNames(s, s1, from, to, os[0], os[j], os[i]);
      assert os[1..][j - 1] == os[j];
    }
    if j :| 0 <= j < i - 1 && Names(s1, from, os[1..][j]) == Names(s1, from, os[1..][i - 1]) {
      SameNames(s, s1, from, to, os[0], os[j + 1], os[i]);
      assert os[1..][j] == os[j + 1];
    }
  }

  lemma ReachedAfter(s: State, s1: State, from: Pid, to: Pid, first: Obj, o: Obj)
    requires Tables(s) && Owners(s) && Owners(s1) && After(s, s1, from, to, first) && from != to
    requires !Names(s, from, o).Nothing?
    ensures Reached(s1, to, o, Names(s1, from, o)) <==>
      Reached(s, to, o, Names(s, from, o)) || Names(s, from, first) == Names(s, from, o)
  {
    NamesAfter(s, s1, from, to, first, o);
    assert s.next !in s.nodes;
    assert forall d :: !Holds(s, to, d, s.next);
    if o.Binder? && Names(s, from, o).Old? { assert Owns(s, from, o.ptr, Names(s, from, o).n); }
  }

  lemma FirstAfter(s: State, s1: State, from: Pid, to: Pid, os: seq<Obj>, i: nat, j: nat)
    requires 0 < j < i < |os| && Tables(s) && Owners(s) && Owners(s1) && After(s, s1, from, to, os[0])
    requires Names(s, from, os[0]) != Names(s, from, os[i])
    ensures FirstOf(s, from, os, i, j) <==> FirstOf(s1, from, os[1..], i - 1, j - 1)
  {
    SameNames(s, s1, from, to, os[0], os[j], os[i]);
    EarlierAfter(s, s1, from, to, os, j);
  }

  lemma ClashAfter(s: State, s1: State, from: Pid, to: Pid, os: seq<Obj>, i: nat)
    requires 0 < i < |os| && Tables(s) && Owners(s) && Owners(s1) && After(s, s1, from, to, os[0])
    ensures Clash(s, from, os, i) <==> Clash(s1, from, os[1..], i - 1)
  {
    NamesAfter(s, s1, from, to, os[0], os[i]);
    var name := Names(s, from, os[i]);
    if os[i].Binder? && name.New? {
      if Names(s, from, os[0]) == name {
        assert FirstOf(s, from, os, i, 0);
        forall j: nat | FirstOf(s, from, os, i, j) ensures j == 0 {}
      } else {
        if j: nat :| FirstOf(s, from, os, i, j) && os[j].Binder? && os[j].cookie != os[i].cookie {
          FirstAfter(s, s1, from, to, os, i, j);
          assert os[1..][j - 1] == os[j];
        }
        if j: nat :| FirstOf(s1, from, os[1..], i - 1, j) && os[1..][j].Binder? && os[1..][j].cookie != os[1..][i - 1].cookie {
          FirstAfter(s, s1, from, to, os, i, j + 1);
          assert os[1..][j] == os[j + 1];
        }
      }
    }
  }

  /** A later object is refused after the first as it was before it. */
  lemma BetweenAfter(s: State, s1: State, from: Pid, to: Pid, os: seq<Obj>, mems: seq<Memory>, i: nat)
    requires 0 < i < |os| && |mems| == |os| && Tables(s) && Owners(s) && Owners(s1) && from != to
    requires After(s, s1, from, to, os[0])
    ensures RefusedBetween(s, from, to, os, mems, i) <==> RefusedBetween(s1, from, to, os[1..], mems[1..], i - 1)
  {
    NamesAfter(s, s1, from, to, os[0], os[i]);
    EarlierAfter(s, s1, from, to, os, i);
    ClashAfter(s, s1, from, to, os, i);
    if !Names(s, from, os[i]).Nothing? { ReachedAfter(s, s1, from, to, os[0], os[i]); }
  }

  // ---------------------------------------------------------------- the whole parcel

  lemma BetweenFirst(s: State, from: Pid, to: Pid, os: seq<Obj>, mems: seq<Memory>)
    requires |mems| == |os| > 0
    ensures RefusedBetween(s, from, to, os, mems, 0) <==> Refuses(s, from, to, os[0], mems[0])
  {
    if os[0].Binder? && Names(s, from, os[0]).New? {
      forall j: nat ensures !FirstOf(s, from, os, 0, j) {}
    }
  }

  /** Between two processes, what the walk rewrites is known before the send: everything before the first object
      refused by the state as it stands. */
  lemma {:induction false} StopBetween(s: State, from: Pid, to: Pid, os: seq<Obj>, thr: Option<Caller>,
                                       mems: seq<Memory>, lost: set<NodeId>, ever: Option<NodeId>)
    requires Inv(s, lost) && Zero(s, ever) && from in s.tables && to in s.tables && |mems| == |os| && from != to
    ensures FirstBetween(s, from, to, os, mems, |TranslateAll(s, from, to, os, thr, mems).1|)
    decreases |os|
  {
    if os != [] {
      var (s1, r) := Translate(s, from, to, os[0], thr, mems[0]);
      FirstObject(s, from, to, os, thr, mems, lost, ever);
      if r.Some? { StopBetween(s1, from, to, os[1..], thr, mems[1..], lost, ever); }
      StopBetweenNext(s, s1, from, to, os, thr, mems, r);
    }
  }

  lemma StopBetweenNext(s: State, s1: State, from: Pid, to: Pid, os: seq<Obj>, thr: Option<Caller>, mems: seq<Memory>,
                   r: Option<Obj>)
    requires to in s.tables && to in s1.tables && |mems| == |os| > 0 && from != to && Tables(s) && Owners(s) && Owners(s1)
    requires (s1, r) == Translate(s, from, to, os[0], thr, mems[0])
    requires r.None? <==> RefusedBetween(s, from, to, os, mems, 0)
    requires r.Some? ==> After(s, s1, from, to, os[0])
    requires r.Some? ==>
      FirstBetween(s1, from, to, os[1..], mems[1..], |TranslateAll(s1, from, to, os[1..], thr, mems[1..]).1|)
    ensures FirstBetween(s, from, to, os, mems, |TranslateAll(s, from, to, os, thr, mems).1|)
  {
    if r.Some? { BetweenFrom(s, s1, from, to, os, mems, |TranslateAll(s1, from, to, os[1..], thr, mems[1..]).1|); }
  }

  lemma FirstObject(s: State, from: Pid, to: Pid, os: seq<Obj>, thr: Option<Caller>, mems: seq<Memory>,
                    lost: set<NodeId>, ever: Option<NodeId>)
    requires Inv(s, lost) && Zero(s, ever) && from in s.tables && to in s.tables && |mems| == |os| > 0 && from != to
    ensures var (s1, r) := Translate(s, from, to, os[0], thr, mems[0]);
      && (r.None? <==> RefusedBetween(s, from, to, os, mems, 0))
      && Inv(s1, lost) && Zero(s1, ever) && s1.tables.Keys == s.tables.Keys
      && (r.Some? ==> After(s, s1, from, to, os[0]))
  {
    OneObject(s, from, to, os[0], thr, mems[0], lost, ever);
    BetweenFirst(s, from, to, os, mems);
    if Translate(s, from, to, os[0], thr, mems[0]).1.Some? { TranslateAfter(s, from, to, os[0], thr, mems[0], ever); }
  }

  lemma BetweenFrom(s: State, s1: State, from: Pid, to: Pid, os: seq<Obj>, mems: seq<Memory>, k: nat)
    requires |mems| == |os| > 0 && Tables(s) && Owners(s) && Owners(s1) && from != to
    requires After(s, s1, from, to, os[0]) && !RefusedBetween(s, from, to, os, mems, 0)
    requires FirstBetween(s1, from, to, os[1..], mems[1..], k)
    ensures FirstBetween(s, from, to, os, mems, k + 1)
  {
    forall i | 0 < i < |os|
      ensures RefusedBetween(s, from, to, os, mems, i) <==> RefusedBetween(s1, from, to, os[1..], mems[1..], i - 1)
    {
      BetweenAfter(s, s1, from, to, os, mems, i);
    }
  }
}
