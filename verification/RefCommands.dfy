/**
Asking for a handle (kext/binder_proc.c:452-473). A client may raise a count it has, and may ask for handle 0, which
stands for the manager whether or not the client has a handle on it yet. Registering makes a manager that everybody can
reach that way (kext/binder_node.c:449-504).
*/
module RefCommands {
  import opened Common
  import opened RefCounts
  import opened RefHandles
  import opened Transfer
  import opened ParcelRefusal
  import opened RefRuns

  /** The node an increment of descriptor `d` is for. */
  ghost function Asked(s: State, p: Pid, d: Desc): Option<NodeId>
    requires p in s.tables
  {
    if d in s.tables[p] then Some(s.tables[p][d].node) else if d == 0 then s.mgr else None
  }

  /** An increment is accepted if and only if the client has the handle, or asks for handle 0 while there is a manager
      that it has a handle on or can be given one. */
  lemma AcquireAcceptedIff(s: State, p: Pid, d: Desc, strong: bool, thr: Option<Caller>, memory: bool, lost: set<NodeId>)
    requires Inv(s, lost) && p in s.tables
    ensures var (s', d') := RefCmd(s, p, d, strong, true, thr, memory);
      && (d'.Some? <==> d in s.tables[p] || (d == 0 && s.mgr.Some? && (Has(s, p, s.mgr.value) || memory)))
      && (d'.None? ==> s' == s)
  {
    if d in s.tables[p] {
      assert Holds(s, p, d, s.tables[p][d].node);
      CountUpIs(s, p, d, strong, thr);
    } else if s.mgr.Some? {
      DescIff(s, p, s.mgr.value);
    }
  }

  /** An increment that is accepted leaves the client with the handle it is told on the node it asked for, and exactly
      that count one higher. The handle is the one it named, and 0 if it asked for a manager it had no handle on. */
  lemma AcquireGives(s: State, p: Pid, d: Desc, strong: bool, thr: Option<Caller>, memory: bool, lost: set<NodeId>,
                     ever: Option<NodeId>)
    requires Inv(s, lost) && Zero(s, ever) && p in s.tables && RefCmd(s, p, d, strong, true, thr, memory).1.Some?
    ensures var (s', d') := RefCmd(s, p, d, strong, true, thr, memory);
      && Asked(s, p, d).Some? && Holds(s', p, d'.value, Asked(s, p, d).value)
      && OneUp(s, s', RefKey(p, d'.value, strong))
      && (d in s.tables[p] ==> d'.value == d)
      && (d !in s.tables[p] && !Has(s, p, Asked(s, p, d).value) ==> d'.value == 0)
  {
    AcquireAcceptedIff(s, p, d, strong, thr, memory, lost);
    if d in s.tables[p] {
      var n := s.tables[p][d].node;
      assert Holds(s, p, d, n);
      TakeAsked(s, p, d, n, strong, thr, memory, lost, ever);
    } else {
      TakeManager(s, p, strong, thr, memory, lost, ever);
    }
  }

  lemma TakeManager(s: State, p: Pid, strong: bool, thr: Option<Caller>, memory: bool, lost: set<NodeId>,
                    ever: Option<NodeId>)
    requires Inv(s, lost) && Zero(s, ever) && p in s.tables && 0 !in s.tables[p]
    requires RefCmd(s, p, 0, strong, true, thr, memory).1.Some?
    ensures var (s', d') := RefCmd(s, p, 0, strong, true, thr, memory);
      && s.mgr.Some? && Holds(s', p, d'.value, s.mgr.value)
      && OneUp(s, s', RefKey(p, d'.value, strong)) && (!Has(s, p, s.mgr.value) ==> d'.value == 0)
  {
    var n := s.mgr.value;
    TakeRefCounts(s, p, n, strong, thr, lost, ever);
    ManagerTaken(s, p, n, strong, thr);
  }

  lemma ManagerTaken(s: State, p: Pid, n: NodeId, strong: bool, thr: Option<Caller>)
    requires Tables(s) && p in s.tables && n in s.nodes && s.mgr == Some(n)
    ensures var (s', d) := TakeRef(s, p, n, strong, thr);
      Holds(s', p, d, n) && (!Has(s, p, n) ==> d == 0)
  {
    DescIff(s, p, n);
    TakeRefIs(s, p, n, strong, thr);
  }

  lemma TakeAsked(s: State, p: Pid, d: Desc, n: NodeId, strong: bool, thr: Option<Caller>, memory: bool,
                  lost: set<NodeId>, ever: Option<NodeId>)
    requires Inv(s, lost) && Zero(s, ever) && Holds(s, p, d, n) && RefCmd(s, p, d, strong, true, thr, memory).1.Some?
    ensures var (s', d') := RefCmd(s, p, d, strong, true, thr, memory);
      d'.value == d && Holds(s', p, d, n) && OneUp(s, s', RefKey(p, d, strong))
  {
    var m := AcquireIs(s, p, d, strong, thr, memory);
    assert m in s.nodes && Holds(s, p, d, n);
    DescIff(s, p, n);
    assert FindDesc(s, p, n) == Some(d);
    CountUpIs(s, p, d, strong, thr);
    assert RefCmd(s, p, d, strong, true, thr, memory).0 == TakeRef(s, p, n, strong, thr).0;
    TakeRefCounts(s, p, n, strong, thr, lost, ever);
    TakeRefIs(s, p, n, strong, thr);
  }

  /** Once a manager has registered, every process without a handle on it that asks for handle 0 gets it, on the object
      the manager registered. */
  lemma ManagerIsReached(s: State, p: Pid, ptr: U64, cookie: U64, q: Pid, strong: bool, thr: Option<Caller>,
                         lost: set<NodeId>)
    requires Inv(s, lost) && Zero(s, None) && p in s.tables && q in s.tables && !Has(s, q, ManagerNode(s, p, ptr))
    ensures var s1 := Register(s, p, ptr, cookie);
      && s1.mgr.Some? && Owns(s1, p, ptr, s1.mgr.value) && q in s1.tables
      && var (s2, d) := RefCmd(s1, q, 0, strong, true, thr, true);
      d == Some(0) && Holds(s2, q, 0, s1.mgr.value)
  {
    var s1 := Register(s, p, ptr, cookie);
    ManagerIs(s, p, ptr, cookie, lost, None);
    RegisterInv(s, p, ptr, cookie, lost);
    NoZeroYet(s, q);
    assert s1.tables == s.tables;
    SameHas(s, s1, q);
    AcquireAcceptedIff(s1, q, 0, strong, thr, true, lost);
    AcquireGives(s1, q, 0, strong, thr, true, lost, s1.mgr);
  }

  lemma NoZeroYet(s: State, q: Pid)
    requires Zero(s, None) && q in s.tables
    ensures 0 !in s.tables[q]
  {}
}
