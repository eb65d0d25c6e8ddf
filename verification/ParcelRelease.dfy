/**
A parcel given back: releasing what a translation rewrote restores every count it took
(kext/binder_txn.c:272-324), and a send that fails half way restores them exactly when the objects it
never reached name nothing the receiver counts (kext/binder_txn.c:565-568, 650-653).
*/
module ParcelRelease {
  import opened Common
  import opened RefCounts
  import opened Transfer
  import opened Parcels
  import opened ParcelRefusal
  import opened ParcelSelf

  /** binder_transaction_buffer_release. */
  ghost function ReleaseAll(s: State, p: Pid, os: seq<Obj>): State
    decreases |os|
  {
    if os == [] then s else ReleaseAll(Release(s, p, os[0]), p, os[1..])
  }

  function Minus(a: nat, b: nat): nat { if b <= a then a - b else 0 }

  lemma ShrinksTrans(a: State, b: State, c: State)
    requires Shrinks(a, b) && Shrinks(b, c)
    ensures Shrinks(a, c)
  {}

  /** Each object of the parcel takes one count off what it names there, down to none. */
  lemma {:induction false} ReleaseAllIs(s: State, p: Pid, os: seq<Obj>, lost: set<NodeId>)
    requires Inv(s, lost)
    ensures Inv(ReleaseAll(s, p, os), lost) && Shrinks(s, ReleaseAll(s, p, os))
    ensures forall k :: Count(ReleaseAll(s, p, os), k) == Minus(Count(s, k), Keys(p, os)[k])
    decreases |os|
  {
    if os != [] {
      var s1 := Release(s, p, os[0]);
      ReleaseIs(s, p, os[0], lost);
      ReleaseAllIs(s1, p, os[1..], lost);
      ShrinksTrans(s, s1, ReleaseAll(s1, p, os[1..]));
    }
  }

  lemma {:induction false} KeysConcat(p: Pid, a: seq<Obj>, b: seq<Obj>)
    ensures Keys(p, a + b) == Keys(p, a) + Keys(p, b)
    decreases |a|
  {
    if a == [] {
      assert a + b == b;
    } else {
      assert (a + b)[1..] == a[1..] + b;
      KeysConcat(p, a[1..], b);
    }
  }

  lemma {:induction false} KeysCount(p: Pid, os: seq<Obj>, k: Key)
    ensures Keys(p, os)[k] > 0 <==> exists i :: 0 <= i < |os| && KeyOf(p, os[i]) == k
    decreases |os|
  {
    if os != [] {
      KeysCount(p, os[1..], k);
      if i :| 0 <= i < |os| && KeyOf(p, os[i]) == k {
        if i > 0 { assert os[1..][i - 1] == os[i]; }
      }
    }
  }

  /** The same counts on the same names: the handle tables are the same. */
  lemma SameTables(s: State, s1: State, s2: State)
    requires Tables(s) && Tables(s2) && Counting(s) && Counting(s2) && SameCounts(s, s2)
    requires Extends(s, s1) && Shrinks(s1, s2)
    ensures s2.tables == s.tables
  {
    forall p | p in s.tables ensures s2.tables[p] == s.tables[p] {
      forall d: Desc ensures d in s.tables[p] <==> d in s2.tables[p]
        ensures d in s.tables[p] ==> d in s2.tables[p] && s2.tables[p][d] == s.tables[p][d]
      {
        assert Count(s2, RefKey(p, d, true)) == Count(s, RefKey(p, d, true));
        assert Count(s2, RefKey(p, d, false)) == Count(s, RefKey(p, d, false));
        if d in s.tables[p] && d in s2.tables[p] {
          assert Holds(s, p, d, s.tables[p][d].node);
          assert Holds(s2, p, d, s2.tables[p][d].node);
        }
      }
    }
  }

  /** Nothing a translation did is left: counts by name, handle tables, and the internal counts of nodes. */
  ghost predicate Restored(s: State, s': State) {
    && SameCounts(s, s') && s'.tables == s.tables
    && (forall n | n in s.nodes && n in s'.nodes :: s'.nodes[n].internal == s.nodes[n].internal)
    && (forall n | n in s.nodes && s.nodes[n].refs != {} :: n in s'.nodes)
  }

  lemma IsRestored(s: State, s1: State, s2: State, lost: set<NodeId>)
    requires Inv(s, lost) && Inv(s2, lost) && SameCounts(s, s2) && Extends(s, s1) && Shrinks(s1, s2)
    ensures Restored(s, s2)
  {
    SameTables(s, s1, s2);
    SameHolders(s, s2);
    forall n | n in s.nodes && s.nodes[n].refs != {} ensures n in s2.nodes {
      var p :| p in s.nodes[n].refs;
      var d :| Holds(s, p, d, n);
      assert Holds(s2, p, d, n);
    }
  }

  /** What the release walk of a failed or freed send is given: the rewritten objects, then those never reached. */
  function Remains(os: seq<Obj>, rs: seq<Obj>): seq<Obj>
    requires |rs| <= |os|
  {
    rs + os[|rs|..]
  }

  /** The counts a send and the release of its remains leave behind. */
  lemma SendReleaseCounts(s: State, from: Pid, to: Pid, os: seq<Obj>, thr: Option<Caller>, mems: seq<Memory>,
                          lost: set<NodeId>, ever: Option<NodeId>)
    requires Inv(s, lost) && Zero(s, ever) && from in s.tables && to in s.tables && |mems| == |os|
    ensures var (s1, rs) := TranslateAll(s, from, to, os, thr, mems);
      && |rs| <= |os|
      && var s2 := ReleaseAll(s1, to, Remains(os, rs));
      && Inv(s2, lost) && Extends(s, s1) && Shrinks(s1, s2)
      && forall k :: Count(s2, k) == Minus(Count(s, k), Keys(to, os[|rs|..])[k])
  {
    var (s1, rs) := TranslateAll(s, from, to, os, thr, mems);
    TranslateAllIs(s, from, to, os, thr, mems, lost, ever);
    ReleaseAllIs(s1, to, Remains(os, rs), lost);
    KeysConcat(to, rs, os[|rs|..]);
  }

  /** Release is the exact inverse of a translation that went through. */
  lemma ReleaseUndoesTranslate(s: State, from: Pid, to: Pid, os: seq<Obj>, thr: Option<Caller>, mems: seq<Memory>,
                               lost: set<NodeId>, ever: Option<NodeId>)
    requires Inv(s, lost) && Zero(s, ever) && from in s.tables && to in s.tables && |mems| == |os|
    requires |TranslateAll(s, from, to, os, thr, mems).1| == |os|
    ensures var (s1, rs) := TranslateAll(s, from, to, os, thr, mems);
      Restored(s, ReleaseAll(s1, to, rs))
  {
    var (s1, rs) := TranslateAll(s, from, to, os, thr, mems);
    SendReleaseCounts(s, from, to, os, thr, mems, lost, ever);
    assert Remains(os, rs) == rs;
    IsRestored(s, s1, ReleaseAll(s1, to, rs), lost);
  }

  /** None of the objects from `i` on names anything `p` holds a count on. */
  ghost predicate NamesNothing(s: State, p: Pid, os: seq<Obj>, i: nat) {
    forall j | i <= j < |os| :: Count(s, KeyOf(p, os[j])) == 0
  }

  /** A send refused at object `k` leaves the receiver as it was if and only if the objects from there on, read as
      the receiver's own, name nothing the receiver holds. */
  lemma FailedSendRestores(s: State, from: Pid, to: Pid, os: seq<Obj>, thr: Option<Caller>, mems: seq<Memory>, k: nat,
                           lost: set<NodeId>, ever: Option<NodeId>)
    requires Inv(s, lost) && Zero(s, ever) && from in s.tables && to in s.tables && |mems| == |os|
    requires StopsAt(s, from, to, os, thr, mems, k)
    ensures var (s1, rs) := TranslateAll(s, from, to, os, thr, mems);
      && |rs| == k
      && (Restored(s, ReleaseAll(s1, to, Remains(os, rs))) <==> NamesNothing(s, to, os, k))
  {
    WalkStopsAt(s, from, to, os, thr, mems, lost, ever);
    OneStop(s, from, to, os, thr, mems, k, |TranslateAll(s, from, to, os, thr, mems).1|);
    StoppedSendRestores(s, from, to, os, thr, mems, lost, ever);
  }

  /** The condition is known before the send: `k` is the first object the state as it stands refuses. */
  lemma SendRestoresIff(s: State, from: Pid, to: Pid, os: seq<Obj>, thr: Option<Caller>, mems: seq<Memory>, k: nat,
                        lost: set<NodeId>, ever: Option<NodeId>)
    requires Inv(s, lost) && Zero(s, ever) && from in s.tables && to in s.tables && |mems| == |os|
    requires RefusedFirst(s, from, to, os, mems, k)
    ensures var (s1, rs) := TranslateAll(s, from, to, os, thr, mems);
      && |rs| == k
      && (Restored(s, ReleaseAll(s1, to, Remains(os, rs))) <==> NamesNothing(s, to, os, k))
  {
    StopIsKnown(s, from, to, os, thr, mems, k, lost, ever);
    StoppedSendRestores(s, from, to, os, thr, mems, lost, ever);
  }

  lemma StoppedSendRestores(s: State, from: Pid, to: Pid, os: seq<Obj>, thr: Option<Caller>, mems: seq<Memory>,
                            lost: set<NodeId>, ever: Option<NodeId>)
    requires Inv(s, lost) && Zero(s, ever) && from in s.tables && to in s.tables && |mems| == |os|
    ensures var (s1, rs) := TranslateAll(s, from, to, os, thr, mems);
      && |rs| <= |os|
      && (Restored(s, ReleaseAll(s1, to, Remains(os, rs))) <==> NamesNothing(s, to, os, |rs|))
  {
    var (s1, rs) := TranslateAll(s, from, to, os, thr, mems);
    SendReleaseCounts(s, from, to, os, thr, mems, lost, ever);
    var s2 := ReleaseAll(s1, to, Remains(os, rs));
    var tail := os[|rs|..];
    if NamesNothing(s, to, os, |rs|) {
      forall k ensures Count(s2, k) == Count(s, k) {
        KeysCount(to, tail, k);
        if i :| 0 <= i < |tail| && KeyOf(to, tail[i]) == k { assert tail[i] == os[|rs| + i]; }
      }
      IsRestored(s, s1, s2, lost);
    } else {
      var j :| |rs| <= j < |os| && Count(s, KeyOf(to, os[j])) != 0;
      assert tail[j - |rs|] == os[j];
      KeysCount(to, tail, KeyOf(to, os[j]));
    }
  }

  /** Process 1 holds handle 1 on an object of process 0, which has no handle 1 of its own. */
  function HandleOne(): State {
    State(map[0 := Node(Some(0), 16, 0, {1}, 1, 0, 0, 0, false, false, Some(ThreadQueue(7)))],
          map[0 := map[], 1 := map[1 := Ref(0, 1, 0)]], None, 1)
  }

  lemma HandleOneInv()
    ensures Inv(HandleOne(), {}) && Zero(HandleOne(), None)
  {
    var s := HandleOne();
    assert Holds(s, 1, 1, 0);
    assert StrongHolder(s, 1, 0);
    assert StrongHolders(s, 0) == {1};
  }

  /** The condition can fail: process 0 names a handle it does not have, and process 1 loses its own. */
  lemma FailedSendCanDisturb()
    ensures Inv(HandleOne(), {}) && Zero(HandleOne(), None)
    ensures var (s1, rs) := TranslateAll(HandleOne(), 0, 1, [Handle(1, true)], None, [Memory(true, true)]);
      rs == [] && !Restored(HandleOne(), ReleaseAll(s1, 1, Remains([Handle(1, true)], rs)))
  {
    var s := HandleOne();
    HandleOneInv();
    assert RefusedFirst(s, 0, 1, [Handle(1, true)], [Memory(true, true)], 0);
    SendRestoresIff(s, 0, 1, [Handle(1, true)], None, [Memory(true, true)], 0, {}, None);
    assert KeyOf(1, [Handle(1, true)][0]) == RefKey(1, 1, true);
  }
}
