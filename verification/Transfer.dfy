/**
Objects crossing from one process to another: binder_translate_binder and binder_translate_handle
on the way in (kext/binder_txn.c:128-207), the walk of binder_transaction_buffer_release on the way
out (kext/binder_txn.c:272-324), and what each does to the counts of RefCounts.
*/
module Transfer {
  import opened Common
  import opened RefCounts
  import opened RefHandles

  /** What one offset of a parcel names, as one process reads it. Descriptors and scatter-gather buffers hold
      no reference; one that is refused, and an offset that names no whole object, are not `good`. */
  datatype Obj =
    | Binder(ptr: U64, cookie: U64, strong: bool)
    | Handle(desc: Desc, strong: bool)
    | Other(good: bool)

  /** What an object names for the process that reads it, and how strongly. */
  datatype Meaning = Meaning(node: NodeId, strong: bool)

  ghost function Denotes(s: State, p: Pid, o: Obj): Option<Meaning> {
    match o
    case Binder(ptr, cookie, strong) =>
      var n := FindNode(s, p, ptr);
      if n.Some? && n.value in s.nodes && s.nodes[n.value].cookie == cookie then Some(Meaning(n.value, strong)) else None
    case Handle(d, strong) =>
      if p in s.tables && d in s.tables[p] then Some(Meaning(s.tables[p][d].node, strong)) else None
    case Other(_) => None
  }

  /** Whether memory for a node and for a handle can be had. */
  datatype Memory = Memory(node: bool, ref: bool)

  /** binder_ref_get_for_node, when it can fail, then the increment. */
  ghost function TakeRefIf(s: State, p: Pid, n: NodeId, strong: bool, thr: Option<Caller>,
                           mem: Memory): (State, Option<Desc>)
    requires p in s.tables && n in s.nodes
  {
    if FindDesc(s, p, n).None? && !mem.ref then (s, None)
    else
      var (s', d) := TakeRef(s, p, n, strong, thr);
      (s', Some(d))
  }

  ghost function TranslateBinder(s: State, from: Pid, to: Pid, o: Obj, thr: Option<Caller>,
                                 mem: Memory): (State, Option<Obj>)
    requires to in s.tables && o.Binder?
  {
    var found := FindNode(s, from, o.ptr);
    if found.None? && !mem.node then (s, None)
    else
      var s1 := if found.None? then NewNode(s, from, o.ptr, o.cookie) else s;
      var n := if found.None? then s.next else found.value;
      if n !in s1.nodes || o.cookie != s1.nodes[n].cookie then (s1, None)
      else
        var (s2, d) := TakeRefIf(s1, to, n, o.strong, thr, mem);
        (s2, if d.None? then None else Some(Handle(d.value, o.strong)))
  }

  ghost function TranslateHandle(s: State, from: Pid, to: Pid, o: Obj, thr: Option<Caller>,
                                 mem: Memory): (State, Option<Obj>)
    requires to in s.tables && o.Handle?
  {
    if from !in s.tables || o.desc !in s.tables[from] || s.tables[from][o.desc].node !in s.nodes then (s, None)
    else
      var n := s.tables[from][o.desc].node;
      if s.nodes[n].owner == Some(to) then
        var (s1, ok) := UpdateRefs(s, n, o.strong, true, false, thr);
        (s1, if ok then Some(Binder(s.nodes[n].ptr, s.nodes[n].cookie, o.strong)) else None)
      else
        var (s1, d) := TakeRefIf(s, to, n, o.strong, thr, mem);
        (s1, if d.None? then None else Some(Handle(d.value, o.strong)))
  }

  /** One object rewritten for the receiver; None fails the transaction. */
  ghost function Translate(s: State, from: Pid, to: Pid, o: Obj, thr: Option<Caller>, mem: Memory): (State, Option<Obj>)
    requires to in s.tables
  {
    match o
    case Binder(_, _, _) => TranslateBinder(s, from, to, o, thr, mem)
    case Handle(_, _) => TranslateHandle(s, from, to, o, thr, mem)
    case Other(good) => (s, if good then Some(o) else None)
  }

  /** One object of a freed parcel given back. */
  ghost function Release(s: State, p: Pid, o: Obj): State {
    match o
    case Binder(ptr, _, strong) =>
      var n := FindNode(s, p, ptr);
      if n.None? || n.value !in s.nodes then s else UpdateRefs(s, n.value, strong, false, false, None).0
    case Handle(d, strong) =>
      if p !in s.tables || d !in s.tables[p] || s.tables[p][d].node !in s.nodes then s
      else RefUpdate(s, p, d, strong, false, None).0
    case Other(_) => s
  }

  // ---------------------------------------------------------------- client commands

  /** binder_write_ref_cmd: the new state, and the descriptor whose count changed. */
  ghost function RefCmd(s: State, p: Pid, d: Desc, strong: bool, inc: bool, thr: Option<Caller>, memory: bool)
    : (State, Option<Desc>)
    requires p in s.tables
  {
    if d in s.tables[p] then
      if s.tables[p][d].node !in s.nodes then (s, None)
      else
        var (s', ok) := RefUpdate(s, p, d, strong, inc, thr);
        (s', if ok then Some(d) else None)
    else if !inc || d != 0 || s.mgr.None? || s.mgr.value !in s.nodes then (s, None)
    else TakeRefIf(s, p, s.mgr.value, strong, thr, Memory(true, memory))
  }

  /** The node a registering manager gets: its own, or a new one. */
  ghost function ManagerNode(s: State, p: Pid, ptr: U64): NodeId {
    var found := FindNode(s, p, ptr);
    if found.Some? then found.value else s.next
  }

  function AsManager(nd: Node): Node {
    nd.(localStrong := nd.localStrong + 1, localWeak := nd.localWeak + 1, hasStrong := true, hasWeak := true)
  }

  /** binder_context_mgr_set past the refusals, given memory. */
  ghost function Register(s: State, p: Pid, ptr: U64, cookie: U64): State {
    var s1 := if FindNode(s, p, ptr).Some? then s else NewNode(s, p, ptr, cookie);
    var n := ManagerNode(s, p, ptr);
    if n !in s1.nodes then s1
    else s1.(mgr := Some(n), nodes := s1.nodes[n := AsManager(s1.nodes[n])])
  }

  // ---------------------------------------------------------------- counts by name

  /** The counts a process can be said to hold: on a descriptor of its own, or on an object of its own. */
  datatype Key = RefKey(p: Pid, d: Desc, strong: bool) | LocalKey(p: Pid, ptr: U64, strong: bool) | NoKey

  function Local(nd: Node, strong: bool): nat { if strong then nd.localStrong else nd.localWeak }

  ghost function Count(s: State, k: Key): nat {
    match k
    case RefKey(p, d, strong) =>
      if p in s.tables && d in s.tables[p] then (if strong then s.tables[p][d].strong else s.tables[p][d].weak) else 0
    case LocalKey(p, ptr, strong) =>
      var n := FindNode(s, p, ptr);
      if n.Some? && n.value in s.nodes then Local(s.nodes[n.value], strong) else 0
    case NoKey => 0
  }

  /** The count an object stands for in the process that holds it. */
  function KeyOf(p: Pid, o: Obj): Key {
    match o
    case Binder(ptr, _, strong) => LocalKey(p, ptr, strong)
    case Handle(d, strong) => RefKey(p, d, strong)
    case Other(_) => NoKey
  }

  lemma FindNodeIs(s: State, p: Pid, ptr: U64, n: NodeId)
    requires Owners(s) && Owns(s, p, ptr, n)
    ensures FindNode(s, p, ptr) == Some(n)
  {}

  /** Descriptor 0 is the manager's and nobody else's, `ever` being the only manager there has been. */
  ghost predicate Zero(s: State, ever: Option<NodeId>) {
    && (forall p | p in s.tables && 0 in s.tables[p] :: ever == Some(s.tables[p][0].node))
    && (s.mgr.Some? ==> s.mgr == ever)
  }

  /** With one manager, a new handle never lands on a descriptor in use. */
  lemma FreshDesc(s: State, p: Pid, n: NodeId, ever: Option<NodeId>)
    requires Zero(s, ever) && p in s.tables
    ensures FindDesc(s, p, n).Some? || NextDesc(s, p, n) !in s.tables[p]
  {
    if s.mgr == Some(n) && 0 in s.tables[p] { assert Holds(s, p, 0, n); }
  }

  /** What was named stays named: `s'` extends the tables and the owned nodes of `s`. */
  ghost predicate Extends(s: State, s': State) {
    && s'.tables.Keys == s.tables.Keys
    && (forall p, d, n | Holds(s, p, d, n) :: Holds(s', p, d, n))
    && (forall n | n in s.nodes :: n in s'.nodes && SameOwner(s.nodes[n], s'.nodes[n])
          && s'.nodes[n].cookie == s.nodes[n].cookie)
  }

  /** Exactly one count went up by one. */
  ghost predicate OneUp(s: State, s': State, k: Key) {
    forall j :: Count(s', j) == Count(s, j) + (if j == k && k != NoKey then 1 else 0)
  }

  /** The owned nodes of both states carry the same local counts, up to nodes that carry none. */
  ghost predicate SameLocals(s: State, s': State) {
    && (forall p, ptr, n | Owns(s, p, ptr, n) ::
          (Owns(s', p, ptr, n) && s'.nodes[n].localStrong == s.nodes[n].localStrong
             && s'.nodes[n].localWeak == s.nodes[n].localWeak)
          || (s.nodes[n].localStrong == 0 && s.nodes[n].localWeak == 0))
    && (forall p, ptr, n | Owns(s', p, ptr, n) ::
          (Owns(s, p, ptr, n) && s'.nodes[n].localStrong == s.nodes[n].localStrong
             && s'.nodes[n].localWeak == s.nodes[n].localWeak)
          || (s'.nodes[n].localStrong == 0 && s'.nodes[n].localWeak == 0))
  }

  lemma LocalSame(s: State, s': State, p: Pid, ptr: U64, strong: bool)
    requires Owners(s) && Owners(s') && SameLocals(s, s')
    ensures Count(s', LocalKey(p, ptr, strong)) == Count(s, LocalKey(p, ptr, strong))
  {
    if n :| Owns(s, p, ptr, n) { FindNodeIs(s, p, ptr, n); }
    if n :| Owns(s', p, ptr, n) { FindNodeIs(s', p, ptr, n); }
  }

  // ---------------------------------------------------------------- taking a handle counts once

  function RefLevel(r: Ref, strong: bool): nat { if strong then r.strong else r.weak }

  /** A change to one handle, and to its node's link, is seen by that handle's keys and no others. */
  lemma WithRefCounts(s: State, p: Pid, d: Desc, r: Ref, nd: Node, k: Key)
    requires p in s.tables && r.node in s.nodes && SameOwner(s.nodes[r.node], nd)
    requires nd.localStrong == s.nodes[r.node].localStrong && nd.localWeak == s.nodes[r.node].localWeak
    requires Owners(s) && Owners(WithRef(s, p, d, r, nd))
    ensures Count(WithRef(s, p, d, r, nd), k) ==
      if k.RefKey? && k.p == p && k.d == d then RefLevel(r, k.strong) else Count(s, k)
  {
    if k.LocalKey? {
      SetRefLocals(s, p, d, r, nd);
      LocalSame(s, WithRef(s, p, d, r, nd), k.p, k.ptr, k.strong);
    }
  }

  lemma SetRefLocals(s: State, p: Pid, d: Desc, r: Ref, nd: Node)
    requires p in s.tables && r.node in s.nodes && SameOwner(s.nodes[r.node], nd)
    requires nd.localStrong == s.nodes[r.node].localStrong && nd.localWeak == s.nodes[r.node].localWeak
    ensures SameLocals(s, WithRef(s, p, d, r, nd))
  {}

  lemma NodeAfterLocals(s: State, p: Pid, n: NodeId, strong: bool, thr: Option<Caller>)
    requires n in s.nodes
    ensures var nd := NodeAfter(s, p, n, strong, thr);
      && SameOwner(s.nodes[n], nd) && nd.cookie == s.nodes[n].cookie
      && nd.localStrong == s.nodes[n].localStrong && nd.localWeak == s.nodes[n].localWeak
  {}

  /** The level of the handle a process has, or would get, on a node. */
  lemma RefBeforeLevel(s: State, p: Pid, n: NodeId, d: Desc, strong: bool)
    requires p in s.tables && (if FindDesc(s, p, n).Some? then Some(d) == FindDesc(s, p, n) else d !in s.tables[p])
    ensures Count(s, RefKey(p, d, strong)) == RefLevel(RefBefore(s, p, n), strong)
  {}

  lemma TakeRefCounts(s: State, p: Pid, n: NodeId, strong: bool, thr: Option<Caller>, lost: set<NodeId>,
                      ever: Option<NodeId>)
    requires Inv(s, lost) && Zero(s, ever) && p in s.tables && n in s.nodes
    ensures var (s', d) := TakeRef(s, p, n, strong, thr);
      Inv(s', lost) && OneUp(s, s', RefKey(p, d, strong)) && Holds(s', p, d, n)
  {
    var (s', d) := TakeRef(s, p, n, strong, thr);
    FreshDesc(s, p, n, ever);
    TakeRefInv(s, p, n, strong, thr, lost);
    TakeRefIs(s, p, n, strong, thr);
    NodeAfterLocals(s, p, n, strong, thr);
    TakenUp(s, s', p, d, n, strong, NodeAfter(s, p, n, strong, thr));
  }

  lemma TakenUp(s: State, s': State, p: Pid, d: Desc, n: NodeId, strong: bool, nd: Node)
    requires p in s.tables && n in s.nodes && SameOwner(s.nodes[n], nd) && Owners(s) && Owners(s')
    requires nd.localStrong == s.nodes[n].localStrong && nd.localWeak == s.nodes[n].localWeak
    requires RefBefore(s, p, n).node == n && s' == WithRef(s, p, d, Bumped(RefBefore(s, p, n), strong), nd)
    requires if FindDesc(s, p, n).Some? then Some(d) == FindDesc(s, p, n) else d !in s.tables[p]
    ensures OneUp(s, s', RefKey(p, d, strong))
  {
    forall k ensures Count(s', k) == Count(s, k) + One(k == RefKey(p, d, strong)) {
      WithRefCounts(s, p, d, Bumped(RefBefore(s, p, n), strong), nd, k);
      RefBeforeLevel(s, p, n, d, true);
      RefBeforeLevel(s, p, n, d, false);
    }
  }

  lemma WithRefExtends(s: State, p: Pid, d: Desc, r: Ref, nd: Node)
    requires p in s.tables && r.node in s.nodes && SameOwner(s.nodes[r.node], nd) && nd.cookie == s.nodes[r.node].cookie
    requires Holds(s, p, d, r.node) || d !in s.tables[p]
    ensures Extends(s, WithRef(s, p, d, r, nd))
  {}

  lemma TakeRefExtends(s: State, p: Pid, n: NodeId, strong: bool, thr: Option<Caller>, ever: Option<NodeId>)
    requires Tables(s) && Zero(s, ever) && p in s.tables && n in s.nodes
    ensures var s' := TakeRef(s, p, n, strong, thr).0;
      Extends(s, s') && Zero(s', ever) && s'.next == s.next && s'.mgr == s.mgr
  {
    var (s', d) := TakeRef(s, p, n, strong, thr);
    FreshDesc(s, p, n, ever);
    TakeRefIs(s, p, n, strong, thr);
    NodeAfterLocals(s, p, n, strong, thr);
    WithRefExtends(s, p, d, Bumped(RefBefore(s, p, n), strong), NodeAfter(s, p, n, strong, thr));
    if d == 0 && FindDesc(s, p, n).None? { assert s.mgr == Some(n); }
  }

  // ---------------------------------------------------------------- the owner's own counts

  lemma LocalUpIs(s: State, n: NodeId, strong: bool, thr: Option<Caller>)
    requires n in s.nodes
    ensures var (s', ok) := UpdateRefs(s, n, strong, true, false, thr);
      && ok && s'.nodes.Keys == s.nodes.Keys && s'.tables == s.tables && s'.mgr == s.mgr && s'.next == s.next
      && (forall m | m in s.nodes && m != n :: s'.nodes[m] == s.nodes[m])
      && SameOwner(s.nodes[n], s'.nodes[n]) && s'.nodes[n].cookie == s.nodes[n].cookie
      && s'.nodes[n].localStrong == s.nodes[n].localStrong + One(strong)
      && s'.nodes[n].localWeak == s.nodes[n].localWeak + One(!strong)
  {}

  /** The owner's own count goes up; the node cannot be freed by that. */
  lemma LocalUpCounts(s: State, n: NodeId, strong: bool, thr: Option<Caller>, lost: set<NodeId>, ever: Option<NodeId>)
    requires Inv(s, lost) && Zero(s, ever) && n in s.nodes && s.nodes[n].owner.Some?
    ensures var (s', ok) := UpdateRefs(s, n, strong, true, false, thr);
      && ok && Inv(s', lost) && Zero(s', ever) && Extends(s, s')
      && OneUp(s, s', LocalKey(s.nodes[n].owner.value, s.nodes[n].ptr, strong))
  {
    var s' := UpdateRefs(s, n, strong, true, false, thr).0;
    LocalUpdateInv(s, n, strong, true, thr, lost);
    LocalUpIs(s, n, strong, thr);
    var p, a := s.nodes[n].owner.value, s.nodes[n].ptr;
    forall k ensures Count(s', k) == Count(s, k) + One(k == LocalKey(p, a, strong)) {
      if k.LocalKey? { LocalShift(s, s', n, k.p, k.ptr, k.strong); }
    }
  }

  /** When one node's local counts change and nothing else, only its own keys see it. */
  lemma LocalShift(s: State, s': State, n: NodeId, p: Pid, ptr: U64, strong: bool)
    requires Owners(s) && Owners(s') && n in s.nodes && s'.nodes.Keys == s.nodes.Keys
    requires SameOwner(s.nodes[n], s'.nodes[n]) && forall m | m in s.nodes && m != n :: s'.nodes[m] == s.nodes[m]
    ensures Count(s', LocalKey(p, ptr, strong)) == Count(s, LocalKey(p, ptr, strong)) +
      (if Owns(s, p, ptr, n) then Local(s'.nodes[n], strong) - Local(s.nodes[n], strong) else 0)
  {
    forall m ensures Owns(s', p, ptr, m) <==> Owns(s, p, ptr, m) {}
    if m :| Owns(s, p, ptr, m) {
      FindNodeIs(s, p, ptr, m);
      FindNodeIs(s', p, ptr, m);
    }
  }
}
