/**
A process's handles as the driver keeps them: a list searched from its head, new handles put in front
(kext/binder_node.c:279-350). The list stands for the table of RefCounts as long as its descriptors are
distinct, and they stay distinct exactly as long as descriptor 0 is not handed out a second time.
*/
module HandleTable {
  import opened Common
  import opened RefCounts
  import opened Transfer

  datatype Entry = Entry(desc: Desc, ref: Ref)

  /** What a search from the head finds, descriptor by descriptor. */
  function TableOf(refs: seq<Entry>): Table {
    if refs == [] then map[] else Put(TableOf(refs[1..]), refs[0].desc, refs[0].ref)
  }

  ghost predicate Distinct(refs: seq<Entry>) {
    forall i, j | 0 <= i < j < |refs| :: refs[i].desc != refs[j].desc
  }

  /** At most one handle per node. */
  ghost predicate OnePerNode(refs: seq<Entry>) {
    forall i, j | 0 <= i < j < |refs| :: refs[i].ref.node != refs[j].ref.node
  }

  predicate NotIn(refs: seq<Entry>, d: Desc) { forall i | 0 <= i < |refs| :: refs[i].desc != d }

  /** The first entry with a descriptor is the one the table shows. */
  lemma {:induction false} FirstShows(refs: seq<Entry>, i: nat)
    requires i < |refs| && NotIn(refs[..i], refs[i].desc)
    ensures refs[i].desc in TableOf(refs) && TableOf(refs)[refs[i].desc] == refs[i].ref
    decreases |refs|
  {
    if i > 0 {
      assert refs[..i][0] == refs[0];
      assert refs[1..][..i - 1] == refs[..i][1..];
      FirstShows(refs[1..], i - 1);
    }
  }

  lemma {:induction false} NotShown(refs: seq<Entry>, d: Desc)
    ensures d in TableOf(refs) <==> !NotIn(refs, d)
    decreases |refs|
  {
    if refs != [] {
      NotShown(refs[1..], d);
      if refs[0].desc != d {
        assert NotIn(refs, d) <==> NotIn(refs[1..], d) by {
          if NotIn(refs[1..], d) {
            forall i | 0 <= i < |refs| ensures refs[i].desc != d {
              if i > 0 { assert refs[i] == refs[1..][i - 1]; }
            }
          }
        }
      }
    }
  }

  // ---------------------------------------------------------------- compactness

  lemma {:induction false} SubsetSize(a: set<nat>, b: set<nat>)
    requires a <= b
    ensures |a| <= |b|
    decreases a
  {
    if a != {} {
      var x :| x in a;
      SubsetSize(a - {x}, b - {x});
    }
  }

  /** The numbers from 1 to `m`. */
  function UpTo(m: nat): (r: set<nat>)
    ensures |r| == m && forall e :: e in r <==> 1 <= e <= m
  {
    if m == 0 then {} else UpTo(m - 1) + {m}
  }

  lemma {:induction false} TableSize(refs: seq<Entry>)
    ensures |TableOf(refs).Keys| <= |refs|
    decreases |refs|
  {
    if refs != [] {
      TableSize(refs[1..]);
      assert TableOf(refs).Keys == TableOf(refs[1..]).Keys + {refs[0].desc};
    }
  }

  /** A handle space is compact: the lowest free descriptor is at most one past the number of handles. */
  lemma Compact(refs: seq<Entry>)
    ensures LowestFree(TableOf(refs), 1) <= |refs| + 1
  {
    var d := LowestFree(TableOf(refs), 1);
    assert UpTo(d - 1) <= TableOf(refs).Keys;
    SubsetSize(UpTo(d - 1), TableOf(refs).Keys);
    TableSize(refs);
  }

  // ---------------------------------------------------------------- the list itself

  /** The descriptor a new handle gets: 0 for the manager, otherwise the lowest number not in use. */
  ghost function DescFor(refs: seq<Entry>, mgr: Option<NodeId>, n: NodeId): Desc {
    if mgr == Some(n) then 0 else LowestFree(TableOf(refs), 1)
  }

  ghost function WithHandle(refs: seq<Entry>, mgr: Option<NodeId>, n: NodeId): seq<Entry> {
    [Entry(DescFor(refs, mgr, n), Ref(n, 0, 0))] + refs
  }

  class Handles {
    var refs: seq<Entry>

    constructor ()
      ensures refs == []
    {
      refs := [];
    }

    ghost function Table(): RefCounts.Table
      reads this
    {
      TableOf(refs)
    }

    /** binder_ref_find_by_desc; -1 when there is none. */
    method FindByDesc(d: Desc) returns (i: int)
      ensures -1 <= i < |refs|
      ensures i == -1 <==> d !in Table()
      ensures i >= 0 ==> refs[i].desc == d && Table()[d] == refs[i].ref && NotIn(refs[..i], d)
    {
      i := 0;
      while i < |refs|
        invariant 0 <= i <= |refs| && NotIn(refs[..i], d)
      {
        if refs[i].desc == d {
          FirstShows(refs, i);
          return;
        }
        i := i + 1;
      }
      NotShown(refs, d);
      assert refs[..i] == refs;
      i := -1;
    }

    /** binder_ref_find_for_node; -1 when there is none. */
    method FindForNode(n: NodeId) returns (i: int)
      ensures -1 <= i < |refs|
      ensures i == -1 <==> forall j | 0 <= j < |refs| :: refs[j].ref.node != n
      ensures i >= 0 ==> refs[i].ref.node == n
    {
      i := 0;
      while i < |refs|
        invariant 0 <= i <= |refs| && forall j | 0 <= j < i :: refs[j].ref.node != n
      {
        if refs[i].ref.node == n { return; }
        i := i + 1;
      }
      i := -1;
    }

    /** binder_ref_next_desc. */
    method NextDesc(mgr: Option<NodeId>, n: NodeId) returns (d: Desc)
      ensures d == DescFor(refs, mgr, n)
      ensures mgr != Some(n) ==> 1 <= d <= |refs| + 1
    {
      Compact(refs);
      if mgr == Some(n) { return 0; }
      d := 1;
      ghost var bound := LowestFree(Table(), 1);
      while true
        invariant 1 <= d <= bound && forall e | 1 <= e < d :: e in Table()
        decreases bound - d
      {
        var i := FindByDesc(d);
        if i == -1 {
          assert !(d < bound);
          return;
        }
        d := d + 1;
      }
    }

    /** binder_ref_get_for_node: the index of the handle, which is in front if it is new. */
    method GetForNode(mgr: Option<NodeId>, n: NodeId, memory: bool) returns (i: int)
      modifies this
      ensures -1 <= i < |refs| && (i >= 0 ==> refs[i].ref.node == n)
      ensures i == -1 <==> !memory && forall j | 0 <= j < |old(refs)| :: old(refs)[j].ref.node != n
      ensures refs == old(refs)
        || (i == 0 && (forall j | 0 <= j < |old(refs)| :: old(refs)[j].ref.node != n)
            && refs == WithHandle(old(refs), mgr, n))
      ensures old(Distinct(refs)) && refs != old(refs) && !(mgr == Some(n) && 0 in old(Table())) ==>
        Distinct(refs) && Table() == Put(old(Table()), refs[0].desc, Ref(n, 0, 0))
      ensures old(OnePerNode(refs)) ==> OnePerNode(refs)
    {
      i := FindForNode(n);
      if i != -1 || !memory { return; }
      var d := NextDesc(mgr, n);
      NotShown(refs, d);
      refs := [Entry(d, Ref(n, 0, 0))] + refs;
      assert refs[1..] == old(refs);
      i := 0;
    }

    /** A handle's counts change where it stands. */
    method SetCounts(i: nat, r: Ref)
      requires i < |refs| && Distinct(refs)
      modifies this
      ensures refs == old(refs)[i := Entry(old(refs)[i].desc, r)] && Distinct(refs)
      ensures Table() == Put(old(Table()), refs[i].desc, r)
    {
      UpdateShows(refs, i, r);
      refs := refs[i := refs[i].(ref := r)];
    }

    /** binder_ref_delete takes the handle off the list. */
    method Remove(i: nat)
      requires i < |refs| && Distinct(refs)
      modifies this
      ensures refs == old(refs)[..i] + old(refs)[i + 1..] && Distinct(refs)
      ensures Table() == old(Table()) - {old(refs)[i].desc}
    {
      RemoveShows(refs, i);
      refs := refs[..i] + refs[i + 1..];
    }
  }

  lemma DistinctTail(refs: seq<Entry>)
    requires Distinct(refs) && refs != []
    ensures Distinct(refs[1..]) && refs[0].desc !in TableOf(refs[1..])
  {
    NotShown(refs[1..], refs[0].desc);
    forall i | 0 <= i < |refs[1..]| ensures refs[1..][i].desc != refs[0].desc { assert refs[1..][i] == refs[i + 1]; }
  }

  lemma {:induction false} UpdateShows(refs: seq<Entry>, i: nat, r: Ref)
    requires i < |refs| && Distinct(refs)
    ensures TableOf(refs[i := Entry(refs[i].desc, r)]) == Put(TableOf(refs), refs[i].desc, r)
    decreases |refs|
  {
    var refs' := refs[i := Entry(refs[i].desc, r)];
    DistinctTail(refs);
    if i == 0 {
      assert refs'[1..] == refs[1..];
    } else {
      assert refs'[1..] == refs[1..][i - 1 := Entry(refs[i].desc, r)];
      UpdateShows(refs[1..], i - 1, r);
    }
  }

  lemma {:induction false} RemoveShows(refs: seq<Entry>, i: nat)
    requires i < |refs| && Distinct(refs)
    ensures TableOf(refs[..i] + refs[i + 1..]) == TableOf(refs) - {refs[i].desc}
    decreases |refs|
  {
    DistinctTail(refs);
    var refs' := refs[..i] + refs[i + 1..];
    if i == 0 {
      assert refs' == refs[1..];
    } else {
      assert refs'[1..] == refs[1..][..i - 1] + refs[1..][i..];
      assert refs[1..][i..] == refs[i + 1..];
      RemoveShows(refs[1..], i - 1);
    }
  }

  // ---------------------------------------------------------------- when descriptors stay distinct

  /** A new handle keeps descriptors distinct if and only if it is not the manager's while 0 is in use. */
  lemma DistinctIff(refs: seq<Entry>, mgr: Option<NodeId>, n: NodeId)
    requires Distinct(refs)
    ensures Distinct(WithHandle(refs, mgr, n)) <==> !(mgr == Some(n) && 0 in TableOf(refs))
  {
    var d := DescFor(refs, mgr, n);
    var refs' := WithHandle(refs, mgr, n);
    NotShown(refs, d);
    if Distinct(refs') {
      forall i | 0 <= i < |refs| ensures refs[i].desc != d { assert refs'[0].desc != refs'[i + 1].desc; }
    }
  }

  /** A handle on a second manager hides any handle on the first: both have descriptor 0 and the search finds the
      second. */
  lemma SecondManagerHides(refs: seq<Entry>, i: nat, n: NodeId)
    requires Distinct(refs) && i < |refs| && refs[i].desc == 0
    ensures var refs' := WithHandle(refs, Some(n), n);
      && refs'[i + 1] == refs[i] && !Distinct(refs') && TableOf(refs') == Put(TableOf(refs), 0, Ref(n, 0, 0))
  {
    NotShown(refs, 0);
    DistinctIff(refs, Some(n), n);
    assert WithHandle(refs, Some(n), n)[1..] == refs;
  }

  /** Calls that get there: a handle on manager 1 is taken and counted, node 2 becomes the manager, and a handle on
      it is taken. */
  method TwoManagers() returns (h: Handles)
    ensures fresh(h) && h.refs == [Entry(0, Ref(2, 0, 0)), Entry(0, Ref(1, 1, 0))] && !Distinct(h.refs)
  {
    h := new Handles();
    var i := h.GetForNode(Some(1), 1, true);
    assert h.refs == [Entry(0, Ref(1, 0, 0))];
    h.SetCounts(0, Ref(1, 1, 0));
    assert h.refs == [Entry(0, Ref(1, 1, 0))];
    SecondManagerHides(h.refs, 0, 2);
    i := h.GetForNode(Some(2), 2, true);
  }

  /** With one manager the list always stands for the table: a handle taken in a state whose tables name
      0 for the manager alone leaves distinct descriptors and the table that GetRef leaves. */
  lemma ListRefinesTable(s: State, p: Pid, n: NodeId, ever: Option<NodeId>, refs: seq<Entry>)
    requires Tables(s) && Zero(s, ever) && p in s.tables && n in s.nodes
    requires Distinct(refs) && TableOf(refs) == s.tables[p] && FindDesc(s, p, n).None?
    ensures var d := NextDesc(s, p, n);
      var refs' := WithHandle(refs, s.mgr, n);
      refs'[0].desc == d && Distinct(refs') && TableOf(refs') == GetRef(s, p, n).0.tables[p] && OnePerNode(refs')
  {
    FreshDesc(s, p, n, ever);
    DistinctIff(refs, s.mgr, n);
    var refs' := WithHandle(refs, s.mgr, n);
    assert refs'[1..] == refs;
    forall i, j | 0 <= i < j < |refs'| ensures refs'[i].ref.node != refs'[j].ref.node {
      EntryHolds(s, p, refs, j - 1);
      if i > 0 { EntryHolds(s, p, refs, i - 1); }
    }
  }

  lemma EntryHolds(s: State, p: Pid, refs: seq<Entry>, i: nat)
    requires p in s.tables && Distinct(refs) && TableOf(refs) == s.tables[p] && i < |refs|
    ensures Holds(s, p, refs[i].desc, refs[i].ref.node)
  {
    FirstShows(refs, i);
  }
}
