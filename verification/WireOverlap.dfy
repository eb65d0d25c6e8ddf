/**
An offset given twice (kext/binder_txn.c:470-569). The driver does not refuse it: the second turn reads the bytes the
first one wrote, and takes the receiver's name for the object as the sender's.
*/
module WireOverlap {
  import opened Common
  import opened RefCounts
  import opened RefHandles
  import opened Transfer
  import opened Parcels
  import opened ParcelRefusal
  import opened Wire
  import opened WireDriver

  /** A turn that makes `r` of an object writes it, and the walk goes on from there. */
  lemma OneTurn(s: State, from: Pid, to: Pid, data: Bytes, offs: seq<nat>, accepts: seq<bool>, stamps: seq<U64>,
                thr: Option<Caller>, mems: seq<Memory>, i: nat, s1: State, r: Obj) returns (data1: Bytes)
    requires to in s.tables && to in s1.tables && |offs| == |accepts| == |stamps| == |mems| && i < |offs|
    requires (s1, Some(r)) == Translate(s, from, to, ObjAt(data, offs[i], accepts[i]), thr, mems[i])
    requires !r.Other? && Described([r])
    ensures ObjAt(data1, offs[i], accepts[i]) == r
    ensures WalkBytes(s, from, to, data, offs, accepts, stamps, thr, mems, i) ==
      WalkBytes(s1, from, to, data1, offs, accepts, stamps, thr, mems, i + 1)
  {
    TranslateShape(s, from, to, data, offs[i], accepts[i], thr, mems[i]);
    data1 := Rewrite(data, offs[i], r, stamps[i]);
    assert r in [r];
    RewriteIs(data, offs[i], r, stamps[i], accepts[i]);
  }

  /** An offset given twice: the second turn takes the name `r` that the first wrote for the receiver as the
      sender's, so the receiver is left with whatever the sender has under that name. That is what the sender meant if
      and only if the sender is the receiver, or both have the node under the same descriptor. */
  lemma RepeatedOffset(s: State, from: Pid, to: Pid, data: Bytes, offs: seq<nat>, accepts: seq<bool>, stamps: seq<U64>,
                       thr: Option<Caller>, mems: seq<Memory>, i: nat, s1: State, r: Obj, s2: State, r2: Obj,
                       lost: set<NodeId>, ever: Option<NodeId>) returns (data2: Bytes)
    requires Inv(s, lost) && Zero(s, ever) && from in s.tables && to in s.tables && to in s1.tables && to in s2.tables
    requires |offs| == |accepts| == |stamps| == |mems| && i + 1 < |offs|
    requires offs[i + 1] == offs[i] && accepts[i + 1] == accepts[i]
    requires (s1, Some(r)) == Translate(s, from, to, ObjAt(data, offs[i], accepts[i]), thr, mems[i])
    requires (s2, Some(r2)) == Translate(s1, from, to, r, thr, mems[i + 1])
    requires !r.Other? && Described([r]) && Described([r2])
    ensures WalkBytes(s, from, to, data, offs, accepts, stamps, thr, mems, i) ==
      WalkBytes(s2, from, to, data2, offs, accepts, stamps, thr, mems, i + 2)
    ensures ObjAt(data2, offs[i], accepts[i]) == r2
    ensures Denotes(s2, from, r).Some? && Denotes(s2, to, r2) == Denotes(s2, from, r)
    ensures var o := ObjAt(data, offs[i], accepts[i]);
      && Denotes(s2, from, o).Some?
      && (Denotes(s2, to, r2) == Denotes(s2, from, o) <==> from == to || SharesName(s, from, to, o))
  {
    var o := ObjAt(data, offs[i], accepts[i]);
    SecondMeaning(s, from, to, o, thr, mems[i], mems[i + 1], s1, r, s2, r2, lost, ever);
    RepeatAgreesIff(s, from, to, o, thr, mems[i], mems[i + 1], s1, r, s2, r2, lost, ever);
    var data1 := OneTurn(s, from, to, data, offs, accepts, stamps, thr, mems, i, s1, r);
    data2 := OneTurn(s1, from, to, data1, offs, accepts, stamps, thr, mems, i + 1, s2, r2);
  }

  lemma SecondMeaning(s: State, from: Pid, to: Pid, o: Obj, thr: Option<Caller>, mem: Memory, mem2: Memory, s1: State,
                      r: Obj, s2: State, r2: Obj, lost: set<NodeId>, ever: Option<NodeId>)
    requires Inv(s, lost) && Zero(s, ever) && from in s.tables && to in s.tables && to in s1.tables && !r.Other?
    requires (s1, Some(r)) == Translate(s, from, to, o, thr, mem) && (s2, Some(r2)) == Translate(s1, from, to, r, thr, mem2)
    ensures Denotes(s2, from, r).Some? && Denotes(s2, to, r2) == Denotes(s2, from, r) && !r2.Other?
  {
    TranslateIs(s, from, to, o, thr, mem, lost, ever);
    TranslateIs(s1, from, to, r, thr, mem2, lost, ever);
  }

  // ---------------------------------------------------------------- when the meaning is kept

  /** The descriptor by which a process has, or would get, a node. */
  ghost function DescAt(s: State, p: Pid, n: NodeId): Desc
    requires p in s.tables
  {
    if FindDesc(s, p, n).Some? then FindDesc(s, p, n).value else NextDesc(s, p, n)
  }

  /** The sender has the node under the receiver's descriptor as well, and does not send it home. */
  ghost predicate SharesName(s: State, from: Pid, to: Pid, o: Obj)
    requires to in s.tables
  {
    var name := Names(s, from, o);
    && name.Old? && name.n in s.nodes && !(o.Handle? && s.nodes[name.n].owner == Some(to))
    && Holds(s, from, DescAt(s, to, name.n), name.n)
  }

  /** Two turns at one offset leave the receiver with the sender's meaning if and only if the sender is the receiver,
      or both have the node under the same descriptor. */
  lemma RepeatAgreesIff(s: State, from: Pid, to: Pid, o: Obj, thr: Option<Caller>, mem: Memory, mem2: Memory, s1: State,
                        r: Obj, s2: State, r2: Obj, lost: set<NodeId>, ever: Option<NodeId>)
    requires Inv(s, lost) && Zero(s, ever) && from in s.tables && to in s.tables && to in s1.tables && !r.Other?
    requires (s1, Some(r)) == Translate(s, from, to, o, thr, mem) && (s2, Some(r2)) == Translate(s1, from, to, r, thr, mem2)
    ensures Denotes(s2, from, o).Some?
    ensures Denotes(s2, to, r2) == Denotes(s2, from, o) <==> from == to || SharesName(s, from, to, o)
  {
    SecondMeaning(s, from, to, o, thr, mem, mem2, s1, r, s2, r2, lost, ever);
    FirstMeaning(s, from, to, o, thr, mem, mem2, s1, r, s2, r2, lost, ever);
    if from != to {
      if r.Binder? {
        HomeDiffers(s, from, to, o, thr, mem, s1, r, s2);
      } else {
        NameDecides(s, from, to, o, thr, mem, mem2, s1, r, s2, r2, lost, ever);
      }
    }
  }

  /** What the sender meant it means to the end; and a process that sends to itself reads its own name back. */
  lemma FirstMeaning(s: State, from: Pid, to: Pid, o: Obj, thr: Option<Caller>, mem: Memory, mem2: Memory, s1: State,
                     r: Obj, s2: State, r2: Obj, lost: set<NodeId>, ever: Option<NodeId>)
    requires Inv(s, lost) && Zero(s, ever) && from in s.tables && to in s.tables && to in s1.tables && !r.Other?
    requires (s1, Some(r)) == Translate(s, from, to, o, thr, mem) && (s2, Some(r2)) == Translate(s1, from, to, r, thr, mem2)
    ensures Extends(s, s1) && Extends(s1, s2) && Owners(s2) && Inv(s1, lost) && Zero(s1, ever)
    ensures Denotes(s1, from, o).Some? && Denotes(s2, from, o) == Denotes(s1, from, o)
    ensures from == to ==> Denotes(s2, from, r) == Denotes(s2, from, o)
  {
    TranslateIs(s, from, to, o, thr, mem, lost, ever);
    TranslateIs(s1, from, to, r, thr, mem2, lost, ever);
    assert !o.Other?;
    ExtendsDenotes(s1, s2, from, o);
    if from == to { ExtendsDenotes(s1, s2, from, r); }
  }

  /** A handle that went home is then read as an object of the sender's own. */
  lemma HomeDiffers(s: State, from: Pid, to: Pid, o: Obj, thr: Option<Caller>, mem: Memory, s1: State, r: Obj, s2: State)
    requires from != to && to in s.tables && (s1, Some(r)) == Translate(s, from, to, o, thr, mem) && r.Binder?
    requires Extends(s, s1) && Extends(s1, s2) && Owners(s2)
    requires Denotes(s2, from, o) == Denotes(s1, from, o) && Denotes(s2, from, r).Some?
    ensures !SharesName(s, from, to, o) && Denotes(s2, from, r) != Denotes(s2, from, o)
  {
    var n := s.tables[from][o.desc].node;
    assert o.Handle? && s.nodes[n].owner == Some(to);
    assert Holds(s, from, o.desc, n) && Holds(s1, from, o.desc, n);
    var m := FindNode(s2, from, r.ptr).value;
    assert Owns(s2, from, r.ptr, m);
  }

  lemma NameDecides(s: State, from: Pid, to: Pid, o: Obj, thr: Option<Caller>, mem: Memory, mem2: Memory, s1: State,
                    r: Obj, s2: State, r2: Obj, lost: set<NodeId>, ever: Option<NodeId>)
    requires from != to && Inv(s, lost) && Zero(s, ever) && Inv(s1, lost) && Zero(s1, ever)
    requires from in s.tables && to in s.tables && from in s1.tables && to in s1.tables && r.Handle?
    requires (s1, Some(r)) == Translate(s, from, to, o, thr, mem) && (s2, Some(r2)) == Translate(s1, from, to, r, thr, mem2)
    requires Denotes(s1, from, o).Some? && Denotes(s2, from, o) == Denotes(s1, from, o)
    ensures Denotes(s2, from, r) == Denotes(s2, from, o) <==> SharesName(s, from, to, o)
  {
    SenderSame(s, from, to, o, thr, mem, lost, ever);
    SenderSame(s1, from, to, r, thr, mem2, lost, ever);
    NamedBy(s, from, to, o, thr, mem, s1, r);
    MeantNode(s, from, to, o, thr, mem, s1, lost, ever);
    NamesMeet(s, s2, from, to, o, r);
  }

  lemma SenderSame(s: State, from: Pid, to: Pid, o: Obj, thr: Option<Caller>, mem: Memory, lost: set<NodeId>,
                   ever: Option<NodeId>)
    requires from != to && Inv(s, lost) && Zero(s, ever) && from in s.tables && to in s.tables
    requires Translate(s, from, to, o, thr, mem).1.Some?
    ensures var s1 := Translate(s, from, to, o, thr, mem).0;
      from in s1.tables && s1.tables[from] == s.tables[from]
  {
    TranslateAfter(s, from, to, o, thr, mem, ever);
  }

  /** The node the sender means: the one it named, or the one made for its address. */
  lemma MeantNode(s: State, from: Pid, to: Pid, o: Obj, thr: Option<Caller>, mem: Memory, s1: State, lost: set<NodeId>,
                  ever: Option<NodeId>)
    requires from != to && Inv(s, lost) && Inv(s1, lost) && Zero(s, ever) && from in s.tables && to in s.tables
    requires Translate(s, from, to, o, thr, mem).1.Some? && s1 == Translate(s, from, to, o, thr, mem).0
    requires Denotes(s1, from, o).Some?
    ensures Denotes(s1, from, o).value.node == (if Names(s, from, o).Old? then Names(s, from, o).n else s.next)
  {
    TranslateAfter(s, from, to, o, thr, mem, ever);
    NamesAfter(s, s1, from, to, o, o);
  }

  lemma NamesMeet(s: State, s2: State, from: Pid, to: Pid, o: Obj, r: Obj)
    requires Tables(s) && from in s.tables && to in s.tables && from in s2.tables && s2.tables[from] == s.tables[from]
    requires r.Handle? && !o.Other? && r.strong == o.strong && r.desc in s.tables[from] && Denotes(s2, from, o).Some?
    requires Denotes(s2, from, o).value.node == (if Names(s, from, o).Old? then Names(s, from, o).n else s.next)
    requires Names(s, from, o).Old? ==> var n := Names(s, from, o).n;
      n in s.nodes && r.desc == DescAt(s, to, n) && !(o.Handle? && s.nodes[n].owner == Some(to))
    ensures Denotes(s2, from, r) == Denotes(s2, from, o) <==> SharesName(s, from, to, o)
  {
    if !Names(s, from, o).Old? { assert !Holds(s, from, r.desc, s.next); }
  }

  /** The descriptor the first turn writes. */
  lemma NamedBy(s: State, from: Pid, to: Pid, o: Obj, thr: Option<Caller>, mem: Memory, s1: State, r: Obj)
    requires Tables(s) && from in s.tables && to in s.tables && r.Handle?
    requires (s1, Some(r)) == Translate(s, from, to, o, thr, mem)
    ensures !Names(s, from, o).Nothing? && r.strong == o.strong && !o.Other?
    ensures Names(s, from, o).Old? ==> var n := Names(s, from, o).n;
      n in s.nodes && r.desc == DescAt(s, to, n) && !(o.Handle? && s.nodes[n].owner == Some(to))
  {
    var name := Names(s, from, o);
    if name.Old? && name.n in s.nodes { TakeRefIs(s, to, name.n, o.strong, thr); }
  }
}
