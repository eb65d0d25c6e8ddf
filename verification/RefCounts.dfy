/**
Nodes, the handles other processes hold on them, and the counts that connect the two
(kext/binder_node.c:54-435). One context; a process is present while it has a handle table.

Handles are keyed by descriptor here; HandleTable.dfy has the driver's lists and the loops that
search them.
*/
module RefCounts {
  import opened Common

  type Desc = nat

  /** The thread on whose behalf a count changes, and its process. */
  datatype Caller = Caller(tid: Tid, pid: Pid)

  /** struct binder_node. `refs` is the list of handles on it, by holder; `owner` is proc, gone once the owner is;
      `queue` is where it waits as news for its owner. */
  datatype Node = Node(
    owner: Option<Pid>, ptr: U64, cookie: U64, refs: set<Pid>,
    internal: nat, localStrong: nat, localWeak: nat, tmp: nat,
    hasStrong: bool, hasWeak: bool, queue: Option<Queue>)

  /** struct binder_ref. */
  datatype Ref = Ref(node: NodeId, strong: nat, weak: nat)

  /** The handles of one process. */
  type Table = map<Desc, Ref>

  function Put(t: Table, d: Desc, r: Ref): Table { t[d := r] }

  datatype State = State(
    nodes: map<NodeId, Node>, tables: map<Pid, Table>, mgr: Option<NodeId>, next: NodeId)

  // ---------------------------------------------------------------- nodes

  predicate Strong(nd: Node) { nd.internal != 0 || nd.localStrong != 0 }

  predicate Weak(nd: Node) { Strong(nd) || nd.localWeak != 0 || nd.refs != {} }

  /** binder_node_notify_owner. */
  function Notified(nd: Node, thr: Option<Caller>): Node {
    if nd.owner.None? || nd.queue.Some? then nd
    else nd.(queue := Some(if thr.Some? && thr.value.pid == nd.owner.value then ThreadQueue(thr.value.tid)
                           else ProcQueue(nd.owner.value)))
  }

  /** The count changes of binder_node_update_refs; None is EINVAL. */
  function Counted(nd: Node, strong: bool, inc: bool, internal: bool): Option<Node> {
    if strong then
      if inc then Some(if internal then nd.(internal := nd.internal + 1) else nd.(localStrong := nd.localStrong + 1))
      else if internal then (if nd.internal == 0 then None else Some(nd.(internal := nd.internal - 1)))
      else (if nd.localStrong == 0 then None else Some(nd.(localStrong := nd.localStrong - 1)))
    else if internal then Some(nd)
    else if inc then Some(nd.(localWeak := nd.localWeak + 1))
    else if nd.localWeak == 0 then None
    else Some(nd.(localWeak := nd.localWeak - 1))
  }

  /** A changed node tells its owner when what the owner can see has changed. */
  function Told(was: Node, nd: Node, thr: Option<Caller>): Node {
    if Strong(nd) != Strong(was) || Weak(nd) != Weak(was) then Notified(nd, thr) else nd
  }

  predicate Freeable(nd: Node) {
    nd.tmp == 0 && !Weak(nd) && !nd.hasStrong && !nd.hasWeak && nd.queue.None?
  }

  /** binder_node_maybe_free. */
  function MaybeFree(s: State, n: NodeId): State
    requires n in s.nodes
  {
    if !Freeable(s.nodes[n]) then s
    else s.(nodes := s.nodes - {n},
            mgr := if s.nodes[n].owner.Some? && s.mgr == Some(n) then None else s.mgr)
  }

  /** binder_node_update_refs: the new state, and whether the change was accepted. */
  function UpdateRefs(s: State, n: NodeId, strong: bool, inc: bool, internal: bool, thr: Option<Caller>): (State, bool)
    requires n in s.nodes
  {
    var nd := Counted(s.nodes[n], strong, inc, internal);
    if nd.None? then (s, false)
    else (MaybeFree(s.(nodes := s.nodes[n := Told(s.nodes[n], nd.value, thr)]), n), true)
  }

  /** binder_node_find. */
  ghost predicate Owns(s: State, p: Pid, ptr: U64, n: NodeId) {
    n in s.nodes && s.nodes[n].owner == Some(p) && s.nodes[n].ptr == ptr
  }

  ghost function FindNode(s: State, p: Pid, ptr: U64): Option<NodeId> {
    if n :| Owns(s, p, ptr, n) then Some(n) else None
  }

  function BlankNode(p: Pid, ptr: U64, cookie: U64): Node {
    Node(Some(p), ptr, cookie, {}, 0, 0, 0, 0, false, false, None)
  }

  /** binder_node_new for an address the process has no node at. */
  function NewNode(s: State, p: Pid, ptr: U64, cookie: U64): State {
    s.(nodes := s.nodes[s.next := BlankNode(p, ptr, cookie)], next := s.next + 1)
  }

  // ---------------------------------------------------------------- handles

  /** Process `p` names node `n` by descriptor `d`. */
  predicate Holds(s: State, p: Pid, d: Desc, n: NodeId) {
    p in s.tables && d in s.tables[p] && s.tables[p][d].node == n
  }

  /** binder_ref_find_for_node. */
  ghost function FindDesc(s: State, p: Pid, n: NodeId): Option<Desc> {
    if d :| Holds(s, p, d, n) then Some(d) else None
  }

  /** The descriptors a table uses from `d` on. */
  ghost function From(t: Table, d: Desc): set<Desc> { set e | e in t.Keys && d <= e }

  /** The lowest descriptor from `d` on that a table does not use. */
  ghost function LowestFree(t: Table, d: Desc): (r: Desc)
    ensures d <= r && r !in t && forall e | d <= e < r :: e in t
    decreases From(t, d)
  {
    if d !in t then d
    else
      assert d in From(t, d) && d !in From(t, d + 1);
      assert From(t, d + 1) <= From(t, d);
      LowestFree(t, d + 1)
  }

  /** binder_ref_next_desc. */
  ghost function NextDesc(s: State, p: Pid, n: NodeId): Desc
    requires p in s.tables
  {
    if s.mgr == Some(n) then 0 else LowestFree(s.tables[p], 1)
  }

  /** binder_ref_get_for_node: the handle on `n`, made with no counts if there was none. */
  ghost function GetRef(s: State, p: Pid, n: NodeId): (State, Desc)
    requires p in s.tables && n in s.nodes
  {
    var found := FindDesc(s, p, n);
    if found.Some? then (s, found.value)
    else
      var d := NextDesc(s, p, n);
      (s.(tables := s.tables[p := Put(s.tables[p], d, Ref(n, 0, 0))],
          nodes := s.nodes[n := s.nodes[n].(refs := s.nodes[n].refs + {p})]), d)
  }

  function SetRef(s: State, p: Pid, d: Desc, r: Ref): State
    requires p in s.tables
  {
    s.(tables := s.tables[p := Put(s.tables[p], d, r)])
  }

  /** binder_ref_delete: off both lists, then the node hears of it. */
  function RefDelete(s: State, p: Pid, d: Desc): State
    requires p in s.tables && d in s.tables[p] && s.tables[p][d].node in s.nodes
  {
    var r := s.tables[p][d];
    var nd := s.nodes[r.node];
    var s1 := s.(tables := s.tables[p := s.tables[p] - {d}], nodes := s.nodes[r.node := nd.(refs := nd.refs - {p})]);
    UpdateRefs(s1, r.node, r.strong > 0, false, true, None).0
  }

  /** binder_ref_update up to the deletion of an empty handle. */
  function RefCount(s: State, p: Pid, d: Desc, strong: bool, inc: bool, thr: Option<Caller>): (State, bool)
    requires p in s.tables && d in s.tables[p] && s.tables[p][d].node in s.nodes
  {
    var r := s.tables[p][d];
    if strong then
      if inc then
        if r.strong == 0 then
          var (s1, ok) := UpdateRefs(s, r.node, true, true, true, thr);
          if !ok then (s1, false) else (SetRef(s1, p, d, r.(strong := 1)), true)
        else (SetRef(s, p, d, r.(strong := r.strong + 1)), true)
      else if r.strong == 0 then (s, false)
      else if r.strong == 1 then UpdateRefs(SetRef(s, p, d, r.(strong := 0)), r.node, true, false, true, thr)
      else (SetRef(s, p, d, r.(strong := r.strong - 1)), true)
    else if inc then (SetRef(s, p, d, r.(weak := r.weak + 1)), true)
    else if r.weak == 0 then (s, false)
    else (SetRef(s, p, d, r.(weak := r.weak - 1)), true)
  }

  /** A refused decrement returns before the deletion; a refused release of the node does not. */
  function Refused(s: State, p: Pid, d: Desc, strong: bool, inc: bool): bool
    requires p in s.tables && d in s.tables[p]
  {
    !inc && (if strong then s.tables[p][d].strong == 0 else s.tables[p][d].weak == 0)
  }

  /** binder_ref_update. */
  function RefUpdate(s: State, p: Pid, d: Desc, strong: bool, inc: bool, thr: Option<Caller>): (State, bool)
    requires p in s.tables && d in s.tables[p] && s.tables[p][d].node in s.nodes
  {
    var (s1, ok) := RefCount(s, p, d, strong, inc, thr);
    if Refused(s, p, d, strong, inc) then (s1, false)
    else if p in s1.tables && d in s1.tables[p] && s1.tables[p][d].node in s1.nodes
         && s1.tables[p][d].strong == 0 && s1.tables[p][d].weak == 0
    then (RefDelete(s1, p, d), ok)
    else (s1, ok)
  }

  // ---------------------------------------------------------------- the invariant

  /** Table and node lists agree, a process has one handle per node, and no handle is empty. */
  ghost predicate Tables(s: State) {
    && (forall p, d, n | Holds(s, p, d, n) :: n in s.nodes && p in s.nodes[n].refs)
    && (forall p, d, e, n | Holds(s, p, d, n) && Holds(s, p, e, n) :: d == e)
    && (forall n, p | n in s.nodes && p in s.nodes[n].refs :: exists d :: Holds(s, p, d, n))
    && (forall n | n in s.nodes :: n < s.next)
  }

  ghost predicate Counting(s: State) {
    forall p, d | p in s.tables && d in s.tables[p] :: s.tables[p][d].strong + s.tables[p][d].weak > 0
  }

  ghost predicate StrongHolder(s: State, p: Pid, n: NodeId) {
    exists d :: Holds(s, p, d, n) && s.tables[p][d].strong > 0
  }

  /** The processes with a strong handle on `n`. */
  ghost function StrongHolders(s: State, n: NodeId): set<Pid> {
    set p | p in s.tables && StrongHolder(s, p, n)
  }

  /** A node's internal count is the number of its handles that are strong. */
  ghost predicate Counts(s: State) {
    forall n | n in s.nodes :: s.nodes[n].internal == |StrongHolders(s, n)|
  }

  /** Owners exist and know their nodes apart by address; the manager's node is owned. */
  ghost predicate Owners(s: State) {
    && (forall n | n in s.nodes && s.nodes[n].owner.Some? :: s.nodes[n].owner.value in s.tables)
    && (forall p, ptr, n, m | Owns(s, p, ptr, n) && Owns(s, p, ptr, m) :: n == m)
    && (s.mgr.Some? ==> s.mgr.value in s.nodes && s.nodes[s.mgr.value].owner.Some?)
  }

  /** No strong news is lost: a live owner who has been told something else has the node queued. */
  predicate NewsNode(nd: Node) { nd.owner.Some? && Strong(nd) != nd.hasStrong ==> nd.queue.Some? }

  /** An owner told to hold a strong reference was told to hold a weak one. */
  predicate FlagsNode(nd: Node) { nd.hasStrong ==> nd.hasWeak }

  /** What holds of a node; `lost` are those whose queued news an exiting thread took with it. */
  predicate NodeOk(n: NodeId, nd: Node, lost: set<NodeId>) {
    FlagsNode(nd) && (n in lost || NewsNode(nd))
  }

  ghost predicate News(s: State, lost: set<NodeId>) {
    forall n | n in s.nodes :: NodeOk(n, s.nodes[n], lost)
  }

  ghost predicate Inv(s: State, lost: set<NodeId>) {
    Tables(s) && Counting(s) && Counts(s) && Owners(s) && News(s, lost)
  }

  // ---------------------------------------------------------------- a change to one node

  /** Only counts that the owner holds, flags and queueing differ. */
  predicate SameHandles(nd: Node, nd': Node) {
    nd'.owner == nd.owner && nd'.ptr == nd.ptr && nd'.cookie == nd.cookie && nd'.refs == nd.refs
    && nd'.internal == nd.internal
  }

  lemma SetNodeInv(s: State, n: NodeId, nd: Node, lost: set<NodeId>)
    requires Inv(s, lost) && n in s.nodes && SameHandles(s.nodes[n], nd) && NodeOk(n, nd, lost)
    ensures Inv(s.(nodes := s.nodes[n := nd]), lost)
  {
    var s' := s.(nodes := s.nodes[n := nd]);
    SetNodeTables(s, n, nd);
    SameHolders(s, s');
    forall p, ptr, m ensures Owns(s', p, ptr, m) <==> Owns(s, p, ptr, m) {}
  }

  lemma SetNodeTables(s: State, n: NodeId, nd: Node)
    requires Tables(s) && n in s.nodes && nd.refs == s.nodes[n].refs
    ensures Tables(s.(nodes := s.nodes[n := nd]))
  {
    var s' := s.(nodes := s.nodes[n := nd]);
    forall p, d, m ensures Holds(s', p, d, m) <==> Holds(s, p, d, m) {}
  }

  lemma SameHolders(s: State, s': State)
    requires s'.tables == s.tables
    ensures forall n :: StrongHolders(s', n) == StrongHolders(s, n)
  {
    forall n ensures StrongHolders(s', n) == StrongHolders(s, n) {
      forall p ensures StrongHolder(s', p, n) <==> StrongHolder(s, p, n) {
        if StrongHolder(s, p, n) {
          var d :| Holds(s, p, d, n) && s.tables[p][d].strong > 0;
          assert Holds(s', p, d, n);
        }
        if StrongHolder(s', p, n) {
          var d :| Holds(s', p, d, n) && s'.tables[p][d].strong > 0;
          assert Holds(s, p, d, n);
        }
      }
    }
  }

  /** Nothing holds a node that is freed, so freeing it keeps everything else. */
  lemma MaybeFreeInv(s: State, n: NodeId, lost: set<NodeId>)
    requires Inv(s, lost) && n in s.nodes
    ensures Inv(MaybeFree(s, n), lost)
  {
    var s' := MaybeFree(s, n);
    if Freeable(s.nodes[n]) {
      forall p, d, m ensures Holds(s', p, d, m) <==> Holds(s, p, d, m) {}
      forall p, d ensures !Holds(s, p, d, n) {}
      SameHolders(s, s');
      forall p, ptr, m | Owns(s', p, ptr, m) ensures Owns(s, p, ptr, m) {}
    }
  }

  /** A count change tells the owner, or there is nothing new to tell. */
  lemma ToldNews(n: NodeId, was: Node, nd: Node, thr: Option<Caller>, lost: set<NodeId>)
    requires NodeOk(n, was, lost) && nd.owner == was.owner && nd.queue == was.queue
    requires nd.hasStrong == was.hasStrong && nd.hasWeak == was.hasWeak
    ensures NodeOk(n, Told(was, nd, thr), lost)
  {}

  /** The owner's own counts change by the rules of binder_node_update_refs. */
  lemma LocalUpdateInv(s: State, n: NodeId, strong: bool, inc: bool, thr: Option<Caller>, lost: set<NodeId>)
    requires Inv(s, lost) && n in s.nodes
    ensures Inv(UpdateRefs(s, n, strong, inc, false, thr).0, lost)
  {
    var nd := Counted(s.nodes[n], strong, inc, false);
    if nd.Some? {
      ToldNews(n, s.nodes[n], nd.value, thr, lost);
      SetNodeInv(s, n, Told(s.nodes[n], nd.value, thr), lost);
      MaybeFreeInv(s.(nodes := s.nodes[n := Told(s.nodes[n], nd.value, thr)]), n, lost);
    }
  }

  lemma NewNodeInv(s: State, p: Pid, ptr: U64, cookie: U64, lost: set<NodeId>)
    requires Inv(s, lost) && p in s.tables && FindNode(s, p, ptr).None?
    ensures Inv(NewNode(s, p, ptr, cookie), lost)
  {
    var s' := NewNode(s, p, ptr, cookie);
    forall q, d, m ensures Holds(s', q, d, m) <==> Holds(s, q, d, m) {}
    SameHolders(s, s');
    forall q ensures !StrongHolder(s, q, s.next) {}
    assert StrongHolders(s', s.next) == {};
    forall m ensures !Owns(s, p, ptr, m) {}
    forall q, a, m ensures Owns(s', q, a, m) <==> (Owns(s, q, a, m) || (q == p && a == ptr && m == s.next)) {}
  }
}
