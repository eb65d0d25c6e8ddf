/**
What an owner has been told changes only when the owner reads: no count operation touches the flags,
and an object's identity is never used twice.
*/
module RefFlags {
  import opened Common
  import opened RefCounts
  import opened RefHandles
  import opened Transfer
  import opened Parcels
  import opened ParcelRelease
  import opened RefClose

  ghost predicate Bounded(s: State) { forall n | n in s.nodes :: n < s.next }

  /** Nodes that were there keep their flags, new ones have neither, and no manager appears. */
  ghost predicate FlagsKept(s: State, s': State) {
    && s.next <= s'.next && Bounded(s') && (s'.mgr == s.mgr || s'.mgr.None?)
    && forall n | n in s'.nodes ::
         if n in s.nodes then SameFlags(s.nodes[n], s'.nodes[n])
         else s.next <= n && !s'.nodes[n].hasStrong && !s'.nodes[n].hasWeak
  }

  lemma FlagsTrans(a: State, b: State, c: State)
    requires Bounded(a) && FlagsKept(a, b) && FlagsKept(b, c)
    ensures FlagsKept(a, c)
  {}

  lemma LeftFlags(s: State, s': State, p: Pid)
    requires Bounded(s) && Left(s, s', p)
    ensures FlagsKept(s, s')
  {}

  lemma UpdateFlags(s: State, n: NodeId, strong: bool, inc: bool, internal: bool, thr: Option<Caller>)
    requires Bounded(s) && n in s.nodes
    ensures FlagsKept(s, UpdateRefs(s, n, strong, inc, internal, thr).0)
  {}

  lemma DeleteFlags(s: State, p: Pid, d: Desc)
    requires Bounded(s) && p in s.tables && d in s.tables[p] && s.tables[p][d].node in s.nodes
    ensures FlagsKept(s, RefDelete(s, p, d))
  {
    var r := s.tables[p][d];
    var nd := s.nodes[r.node];
    var s1 := s.(tables := s.tables[p := s.tables[p] - {d}], nodes := s.nodes[r.node := nd.(refs := nd.refs - {p})]);
    UpdateFlags(s1, r.node, r.strong > 0, false, true, None);
    FlagsTrans(s, s1, RefDelete(s, p, d));
  }

  lemma CountFlags(s: State, p: Pid, d: Desc, strong: bool, inc: bool, thr: Option<Caller>)
    requires Bounded(s) && p in s.tables && d in s.tables[p] && s.tables[p][d].node in s.nodes
    ensures FlagsKept(s, RefCount(s, p, d, strong, inc, thr).0)
  {
    var r := s.tables[p][d];
    if strong && inc && r.strong == 0 {
      UpdateFlags(s, r.node, true, true, true, thr);
    } else if strong && !inc && r.strong == 1 {
      UpdateFlags(SetRef(s, p, d, r.(strong := 0)), r.node, true, false, true, thr);
    }
  }

  lemma RefUpdateFlags(s: State, p: Pid, d: Desc, strong: bool, inc: bool, thr: Option<Caller>)
    requires Bounded(s) && p in s.tables && d in s.tables[p] && s.tables[p][d].node in s.nodes
    ensures FlagsKept(s, RefUpdate(s, p, d, strong, inc, thr).0)
  {
    var s1 := RefCount(s, p, d, strong, inc, thr).0;
    CountFlags(s, p, d, strong, inc, thr);
    if p in s1.tables && d in s1.tables[p] && s1.tables[p][d].node in s1.nodes {
      DeleteFlags(s1, p, d);
      FlagsTrans(s, s1, RefDelete(s1, p, d));
    }
  }

  lemma TakeFlags(s: State, p: Pid, n: NodeId, strong: bool, thr: Option<Caller>)
    requires Bounded(s) && p in s.tables && n in s.nodes
    ensures FlagsKept(s, TakeRef(s, p, n, strong, thr).0)
  {
    var (s1, d) := GetRef(s, p, n);
    assert FlagsKept(s, s1);
    RefUpdateFlags(s1, p, d, strong, true, thr);
    FlagsTrans(s, s1, TakeRef(s, p, n, strong, thr).0);
  }

  lemma TakeIfFlags(s: State, p: Pid, n: NodeId, strong: bool, thr: Option<Caller>, mem: Memory)
    requires Bounded(s) && p in s.tables && n in s.nodes
    ensures FlagsKept(s, TakeRefIf(s, p, n, strong, thr, mem).0)
  {
    TakeFlags(s, p, n, strong, thr);
  }

  lemma TranslateFlags(s: State, from: Pid, to: Pid, o: Obj, thr: Option<Caller>, mem: Memory)
    requires Bounded(s) && to in s.tables
    ensures FlagsKept(s, Translate(s, from, to, o, thr, mem).0)
  {
    match o
    case Binder(ptr, cookie, strong) =>
      var found := FindNode(s, from, ptr);
      if found.Some? || mem.node {
        var s1 := if found.None? then NewNode(s, from, ptr, cookie) else s;
        var n := if found.None? then s.next else found.value;
        if n in s1.nodes && cookie == s1.nodes[n].cookie {
          TakeIfFlags(s1, to, n, strong, thr, mem);
          FlagsTrans(s, s1, TakeRefIf(s1, to, n, strong, thr, mem).0);
        }
      }
    case Handle(d, strong) =>
      if from in s.tables && d in s.tables[from] && s.tables[from][d].node in s.nodes {
        var n := s.tables[from][d].node;
        UpdateFlags(s, n, strong, true, false, thr);
        TakeIfFlags(s, to, n, strong, thr, mem);
      }
    case Other(_) =>
  }

  lemma {:induction false} TranslateAllFlags(s: State, from: Pid, to: Pid, os: seq<Obj>, thr: Option<Caller>,
                                             mems: seq<Memory>)
    requires Bounded(s) && to in s.tables && |mems| == |os|
    ensures FlagsKept(s, TranslateAll(s, from, to, os, thr, mems).0)
    decreases |os|
  {
    if os != [] {
      TranslateFlags(s, from, to, os[0], thr, mems[0]);
      var (s1, r) := Translate(s, from, to, os[0], thr, mems[0]);
      if r.Some? && to in s1.tables {
        TranslateAllFlags(s1, from, to, os[1..], thr, mems[1..]);
        FlagsTrans(s, s1, TranslateAll(s1, from, to, os[1..], thr, mems[1..]).0);
      }
    }
  }

  lemma ReleaseFlags(s: State, p: Pid, o: Obj)
    requires Bounded(s)
    ensures FlagsKept(s, Release(s, p, o))
  {
    match o
    case Binder(ptr, _, strong) =>
      var n := FindNode(s, p, ptr);
      if n.Some? && n.value in s.nodes { UpdateFlags(s, n.value, strong, false, false, None); }
    case Handle(d, strong) =>
      if p in s.tables && d in s.tables[p] && s.tables[p][d].node in s.nodes {
        RefUpdateFlags(s, p, d, strong, false, None);
      }
    case Other(_) =>
  }

  lemma {:induction false} ReleaseAllFlags(s: State, p: Pid, os: seq<Obj>)
    requires Bounded(s)
    ensures FlagsKept(s, ReleaseAll(s, p, os))
    decreases |os|
  {
    if os != [] {
      ReleaseFlags(s, p, os[0]);
      ReleaseAllFlags(Release(s, p, os[0]), p, os[1..]);
      FlagsTrans(s, Release(s, p, os[0]), ReleaseAll(s, p, os));
    }
  }
}
