/**
The translation loop of binder_transaction and the release walk on the bytes themselves
(kext/binder_txn.c:470-569, 272-324). Each turn reads the bytes the turns before it left. When the offsets name
disjoint objects, that is translating the objects one by one, and no byte outside them changes. WireOverlap.dfy has
an offset given twice.
*/
module WireDriver {
  import opened Common
  import opened RefCounts
  import opened Transfer
  import opened Parcels
  import opened ParcelRefusal
  import opened ParcelRelease
  import opened RefDriver
  import opened Wire

  /** The objects an array of offsets names. */
  function Objs(data: Bytes, offs: seq<nat>, accepts: seq<bool>): (os: seq<Obj>)
    requires |accepts| == |offs|
    ensures |os| == |offs| && forall i | 0 <= i < |offs| :: os[i] == ObjAt(data, offs[i], accepts[i])
  {
    seq(|offs|, i requires 0 <= i < |offs| => ObjAt(data, offs[i], accepts[i]))
  }

  predicate Apart(data: Bytes, a: nat, b: nat) {
    Headed(data, a) && Headed(data, b) ==> a + Extent(data, a) <= b || b + Extent(data, b) <= a
  }

  /** No two offsets name overlapping objects. */
  predicate Disjoint(data: Bytes, offs: seq<nat>) {
    forall i, j | 0 <= i < j < |offs| :: Apart(data, offs[i], offs[j])
  }

  /** Byte `k` belongs to no object the offsets name. */
  predicate Outside(data: Bytes, offs: seq<nat>, k: nat) {
    forall i | 0 <= i < |offs| && Headed(data, offs[i]) :: k < offs[i] || offs[i] + Extent(data, offs[i]) <= k
  }

  /** `data` was `was`: as long, with the same extents, and the same outside the objects. */
  ghost predicate SameOutside(was: Bytes, data: Bytes, offs: seq<nat>) {
    && |data| == |was|
    && (forall i | 0 <= i < |offs| :: Extent(data, offs[i]) == Extent(was, offs[i]))
    && (forall k | 0 <= k < |was| && Outside(was, offs, k) :: data[k] == was[k])
  }

  lemma ExtentFits(data: Bytes, off: nat)
    requires Headed(data, off)
    ensures off + Extent(data, off) <= |data|
  {}

  /** Rewriting one object leaves every other object, and every byte outside, as it was. */
  lemma RewriteKeepsOthers(data: Bytes, offs: seq<nat>, i: nat, r: Obj, stamp: U64, j: nat, accepts: bool)
    requires i < |offs| && j < |offs| && i != j && Disjoint(data, offs)
    requires KindAt(data, offs[i]).Some? && MayBecome(KindAt(data, offs[i]).value, r)
    ensures var data' := Rewrite(data, offs[i], r, stamp);
      ObjAt(data', offs[j], accepts) == ObjAt(data, offs[j], accepts) && Extent(data', offs[j]) == Extent(data, offs[j])
  {
    var data' := Rewrite(data, offs[i], r, stamp);
    assert Apart(data, offs[i], offs[j]) || Apart(data, offs[j], offs[i]) by {
      if i < j { assert Apart(data, offs[i], offs[j]); } else { assert Apart(data, offs[j], offs[i]); }
    }
    if Headed(data, offs[j]) {
      ExtentFits(data, offs[j]);
      RewriteElsewhere(data, offs[i], r, stamp, offs[j], offs[j] + Extent(data, offs[j]));
    }
    SameObject(data, data', offs[j], accepts);
  }

  lemma RewriteOutside(data: Bytes, off: nat, r: Obj, stamp: U64, k: nat)
    requires KindAt(data, off).Some? && MayBecome(KindAt(data, off).value, r) && k < |data|
    requires k < off || off + Extent(data, off) <= k
    ensures Rewrite(data, off, r, stamp)[k] == data[k]
  {
    RewriteElsewhere(data, off, r, stamp, k, k + 1);
    var data' := Rewrite(data, off, r, stamp);
    assert data'[k..k + 1][0] == data[k..k + 1][0];
  }

  /** One rewrite, seen by the whole array of offsets. */
  lemma RewriteStep(was: Bytes, data: Bytes, offs: seq<nat>, accepts: seq<bool>, i: nat, r: Obj, stamp: U64)
    requires |accepts| == |offs| && i < |offs| && Disjoint(was, offs) && SameOutside(was, data, offs)
    requires KindAt(data, offs[i]).Some? && MayBecome(KindAt(data, offs[i]).value, r)
    requires r.Handle? ==> r.desc <= U32_MAX
    requires r.Other? ==> r == ObjAt(data, offs[i], accepts[i])
    ensures var data' := Rewrite(data, offs[i], r, stamp);
      SameOutside(was, data', offs) && Objs(data', offs, accepts) == Objs(data, offs, accepts)[i := r]
  {
    var data' := Rewrite(data, offs[i], r, stamp);
    assert Disjoint(data, offs) by {
      forall x, y | 0 <= x < y < |offs| ensures Apart(data, offs[x], offs[y]) { assert Apart(was, offs[x], offs[y]); }
    }
    RewriteIs(data, offs[i], r, stamp, accepts[i]);
    forall j | 0 <= j < |offs|
      ensures Extent(data', offs[j]) == Extent(was, offs[j])
      ensures ObjAt(data', offs[j], accepts[j]) == Objs(data, offs, accepts)[i := r][j]
    {
      if j != i { RewriteKeepsOthers(data, offs, i, r, stamp, j, accepts[j]); }
    }
    forall k | 0 <= k < |was| && Outside(was, offs, k) ensures data'[k] == was[k] {
      RewriteOutside(data, offs[i], r, stamp, k);
    }
  }

  // ---------------------------------------------------------------- in place

  method StoreAt(data: array<Byte>, off: nat, bs: Bytes)
    requires off + |bs| <= data.Length
    modifies data
    ensures data[..] == Store(old(data[..]), off, bs)
  {
    var k := 0;
    while k < |bs|
      invariant k <= |bs|
      invariant forall j | 0 <= j < data.Length ::
        data[j] == if off <= j < off + k then bs[j - off] else old(data[j])
    {
      data[off + k] := bs[k];
      k := k + 1;
    }
  }

  /** The stores of binder_translate_binder, binder_translate_handle, binder_translate_fd and the pointer fix-up. */
  method RewriteAt(data: array<Byte>, off: nat, r: Obj, stamp: U64)
    requires KindAt(data[..], off).Some? && MayBecome(KindAt(data[..], off).value, r)
    modifies data
    ensures data[..] == Rewrite(old(data[..]), off, r, stamp)
  {
    match KindAt(data[..], off).value
    case BinderKind(_) =>
      StoreAt(data, off, Encode(TypeOf(r), 4));
      StoreAt(data, off + 8, Encode(0, 8));
      StoreAt(data, off + 8, Encode(r.desc, 4));
      StoreAt(data, off + 16, Encode(0, 8));
    case HandleKind(_) =>
      if r.Binder? {
        StoreAt(data, off, Encode(TypeOf(r), 4));
        StoreAt(data, off + 8, Encode(r.ptr, 8));
        StoreAt(data, off + 16, Encode(r.cookie, 8));
      } else {
        StoreAt(data, off + 8, Encode(r.desc, 4));
      }
    case FdKind => StoreAt(data, off + 16, Encode(stamp, 8));
    case PtrKind => StoreAt(data, off + 8, Encode(stamp, 8));
    case FdaKind =>
  }

  /** Translation keeps an object's strength and turns descriptors into nothing else. */
  lemma TranslateShape(s: State, from: Pid, to: Pid, data: Bytes, off: nat, accepts: bool, thr: Option<Caller>,
                       mem: Memory)
    requires to in s.tables
    ensures var o := ObjAt(data, off, accepts);
      var r := Translate(s, from, to, o, thr, mem).1;
      r.Some? ==> KindAt(data, off).Some? && MayBecome(KindAt(data, off).value, r.value) && (r.value.Other? ==> r.value == o)
  {}

  /** One turn of the loop: the object at `off` is translated, and its bytes rewritten unless that failed. */
  method TranslateAt(reg: Registry, from: Pid, to: Pid, data: array<Byte>, off: nat, accepts: bool, stamp: U64,
                     thr: Option<Caller>, mem: Memory, ghost lost: set<NodeId>, ghost ever: Option<NodeId>)
    returns (r: Option<Obj>)
    requires Inv(reg.Abs(), lost) && Zero(reg.Abs(), ever) && from in reg.tables && to in reg.tables
    modifies reg, data
    ensures Inv(reg.Abs(), lost) && Zero(reg.Abs(), ever) && from in reg.tables && to in reg.tables
    ensures var o := ObjAt(old(data[..]), off, accepts);
      && (reg.Abs(), r) == Translate(old(reg.Abs()), from, to, o, thr, mem)
      && (r.Some? && r.value.Other? ==> r.value == o)
    ensures r.None? ==> data[..] == old(data[..])
    ensures r.Some? ==> KindAt(old(data[..]), off).Some? && MayBecome(KindAt(old(data[..]), off).value, r.value)
    ensures r.Some? ==> data[..] == Rewrite(old(data[..]), off, r.value, stamp)
  {
    var o := ObjAt(data[..], off, accepts);
    TranslateShape(reg.Abs(), from, to, data[..], off, accepts, thr, mem);
    r := reg.TranslateObject(from, to, o, thr, mem, lost, ever);
    if r.Some? { RewriteAt(data, off, r.value, stamp); }
  }

  /** Every descriptor fits the field it is stored in. */
  predicate Described(rs: seq<Obj>) { forall o | o in rs :: o.Handle? ==> o.desc <= U32_MAX }

  /** The first |rs| objects have been rewritten into `rs`; the others, and all bytes outside, are as they came. */
  ghost predicate Rewritten(was: Bytes, data: Bytes, offs: seq<nat>, accepts: seq<bool>, rs: seq<Obj>)
    requires |accepts| == |offs|
  {
    && |rs| <= |offs| && SameOutside(was, data, offs)
    && Objs(data, offs, accepts) == Remains(Objs(was, offs, accepts), rs)
  }

  lemma RewrittenNone(was: Bytes, offs: seq<nat>, accepts: seq<bool>)
    requires |accepts| == |offs|
    ensures Rewritten(was, was, offs, accepts, [])
  {}

  lemma RewrittenNext(was: Bytes, data: Bytes, offs: seq<nat>, accepts: seq<bool>, rs: seq<Obj>, i: nat)
    requires |accepts| == |offs| && Rewritten(was, data, offs, accepts, rs) && |rs| == i < |offs|
    ensures ObjAt(data, offs[i], accepts[i]) == ObjAt(was, offs[i], accepts[i])
  {
    assert Objs(data, offs, accepts)[i] == Remains(Objs(was, offs, accepts), rs)[i];
  }

  lemma RewrittenStep(was: Bytes, data: Bytes, offs: seq<nat>, accepts: seq<bool>, rs: seq<Obj>, r: Obj,
                      stamp: U64, i: nat)
    requires |accepts| == |offs| && Rewritten(was, data, offs, accepts, rs) && |rs| == i < |offs| && Disjoint(was, offs)
    requires KindAt(data, offs[i]).Some? && MayBecome(KindAt(data, offs[i]).value, r)
    requires r.Handle? ==> r.desc <= U32_MAX
    requires r.Other? ==> r == ObjAt(data, offs[i], accepts[i])
    ensures Rewritten(was, Rewrite(data, offs[i], r, stamp), offs, accepts, rs + [r])
  {
    RewriteStep(was, data, offs, accepts, i, r, stamp);
    RemainsStep(Objs(was, offs, accepts), rs, r);
  }

  lemma RemainsStep(os: seq<Obj>, rs: seq<Obj>, r: Obj)
    requires |rs| < |os|
    ensures Remains(os, rs)[|rs| := r] == Remains(os, rs + [r])
  {}

  /** The loop after |rs| objects: the walk is that far, and so are the bytes. */
  ghost predicate Progress(all: (State, seq<Obj>), s: State, from: Pid, to: Pid, was: Bytes, data: Bytes,
                           offs: seq<nat>,
                           accepts: seq<bool>, thr: Option<Caller>, mems: seq<Memory>, rs: seq<Obj>)
    requires to in s.tables && |offs| == |accepts| == |mems|
  {
    Rewritten(was, data, offs, accepts, rs) && Walked(all, s, from, to, Objs(was, offs, accepts), thr, mems, rs)
  }

  lemma ProgressStep(all: (State, seq<Obj>), s: State, from: Pid, to: Pid, was: Bytes, data: Bytes, offs: seq<nat>,
                     accepts: seq<bool>, thr: Option<Caller>, mems: seq<Memory>, rs: seq<Obj>,
                     s1: State, data': Bytes, r: Option<Obj>, stamp: U64)
    requires to in s.tables && to in s1.tables && |offs| == |accepts| == |mems| && |rs| < |offs|
    requires Progress(all, s, from, to, was, data, offs, accepts, thr, mems, rs) && Disjoint(was, offs)
    requires Described(all.1)
    requires var o := ObjAt(data, offs[|rs|], accepts[|rs|]);
      (s1, r) == Translate(s, from, to, o, thr, mems[|rs|]) && (r.Some? && r.value.Other? ==> r.value == o)
    requires r.Some? ==> KindAt(data, offs[|rs|]).Some? && MayBecome(KindAt(data, offs[|rs|]).value, r.value)
    requires data' == if r.None? then data else Rewrite(data, offs[|rs|], r.value, stamp)
    ensures r.None? ==> all == (s1, rs) && Rewritten(was, data', offs, accepts, rs)
    ensures r.Some? ==> Progress(all, s1, from, to, was, data', offs, accepts, thr, mems, rs + [r.value])
  {
    RewrittenNext(was, data, offs, accepts, rs, |rs|);
    WalkOn(all, s, from, to, Objs(was, offs, accepts), thr, mems, rs, s1, r);
    if r.Some? { RewrittenStep(was, data, offs, accepts, rs, r.value, stamp, |rs|); }
  }

  /** The walk over the bytes from offset `i` on: the state, the bytes, and the offset it stopped at. */
  ghost function WalkBytes(s: State, from: Pid, to: Pid, data: Bytes, offs: seq<nat>, accepts: seq<bool>,
                           stamps: seq<U64>, thr: Option<Caller>, mems: seq<Memory>, i: nat): (State, Bytes, nat)
    requires to in s.tables && |offs| == |accepts| == |stamps| == |mems| && i <= |offs|
    decreases |offs| - i
  {
    if i == |offs| then (s, data, i)
    else
      var (s1, r) := Translate(s, from, to, ObjAt(data, offs[i], accepts[i]), thr, mems[i]);
      if r.None? || to !in s1.tables || KindAt(data, offs[i]).None? || !MayBecome(KindAt(data, offs[i]).value, r.value)
      then (s1, data, i)
      else WalkBytes(s1, from, to, Rewrite(data, offs[i], r.value, stamps[i]), offs, accepts, stamps, thr, mems, i + 1)
  }

  /** The translation loop, whatever the offsets name. */
  method TranslateData(reg: Registry, from: Pid, to: Pid, data: array<Byte>, offs: seq<nat>, accepts: seq<bool>,
                       stamps: seq<U64>, thr: Option<Caller>, mems: seq<Memory>,
                       ghost lost: set<NodeId>, ghost ever: Option<NodeId>) returns (done: nat)
    requires Inv(reg.Abs(), lost) && Zero(reg.Abs(), ever) && from in reg.tables && to in reg.tables
    requires |offs| == |accepts| == |stamps| == |mems|
    modifies reg, data
    ensures Inv(reg.Abs(), lost) && Zero(reg.Abs(), ever) && from in reg.tables && to in reg.tables
    ensures (reg.Abs(), data[..], done) ==
      WalkBytes(old(reg.Abs()), from, to, old(data[..]), offs, accepts, stamps, thr, mems, 0)
  {
    ghost var all := WalkBytes(reg.Abs(), from, to, data[..], offs, accepts, stamps, thr, mems, 0);
    done := 0;
    while done < |offs|
      invariant done <= |offs| && from in reg.tables && to in reg.tables
      invariant Inv(reg.Abs(), lost) && Zero(reg.Abs(), ever)
      invariant all == WalkBytes(reg.Abs(), from, to, data[..], offs, accepts, stamps, thr, mems, done)
    {
      var r := TranslateAt(reg, from, to, data, offs[done], accepts[done], stamps[done], thr, mems[done], lost, ever);
      if r.None? { return; }
      done := done + 1;
    }
  }

  /** Over disjoint objects the walk on the bytes is the walk over the objects. */
  lemma {:induction false} WalkGoesOn(all: (State, seq<Obj>), s: State, from: Pid, to: Pid, was: Bytes, data: Bytes,
                                   offs: seq<nat>, accepts: seq<bool>, stamps: seq<U64>, thr: Option<Caller>,
                                   mems: seq<Memory>, rs: seq<Obj>, lost: set<NodeId>, ever: Option<NodeId>)
    requires Inv(s, lost) && Zero(s, ever) && from in s.tables && to in s.tables
    requires |offs| == |accepts| == |stamps| == |mems| && |rs| <= |offs| && Disjoint(was, offs)
    requires Progress(all, s, from, to, was, data, offs, accepts, thr, mems, rs)
    requires Described(all.1)
    ensures var (s1, data1, n) := WalkBytes(s, from, to, data, offs, accepts, stamps, thr, mems, |rs|);
      s1 == all.0 && n == |all.1| && Rewritten(was, data1, offs, accepts, all.1)
    decreases |offs| - |rs|
  {
    if |rs| == |offs| {
      WalkEnds(all, s, from, to, Objs(was, offs, accepts), thr, mems, rs);
    } else {
      var i := |rs|;
      var o := ObjAt(data, offs[i], accepts[i]);
      var (s1, r) := Translate(s, from, to, o, thr, mems[i]);
      TranslateShape(s, from, to, data, offs[i], accepts[i], thr, mems[i]);
      TranslateIs(s, from, to, o, thr, mems[i], lost, ever);
      var data1 := if r.None? then data else Rewrite(data, offs[i], r.value, stamps[i]);
      ProgressStep(all, s, from, to, was, data, offs, accepts, thr, mems, rs, s1, data1, r, stamps[i]);
      if r.Some? {
        WalkGoesOn(all, s1, from, to, was, data1, offs, accepts, stamps, thr, mems, rs + [r.value], lost, ever);
      }
    }
  }

  lemma DisjointWalk(s: State, from: Pid, to: Pid, was: Bytes, offs: seq<nat>, accepts: seq<bool>, stamps: seq<U64>,
                     thr: Option<Caller>, mems: seq<Memory>, lost: set<NodeId>, ever: Option<NodeId>)
    requires Inv(s, lost) && Zero(s, ever) && from in s.tables && to in s.tables
    requires |offs| == |accepts| == |stamps| == |mems| && Disjoint(was, offs)
    requires Described(TranslateAll(s, from, to, Objs(was, offs, accepts), thr, mems).1)
    ensures var (s1, rs) := TranslateAll(s, from, to, Objs(was, offs, accepts), thr, mems);
      var (s2, data, n) := WalkBytes(s, from, to, was, offs, accepts, stamps, thr, mems, 0);
      s2 == s1 && n == |rs| && Rewritten(was, data, offs, accepts, rs)
  {
    var os := Objs(was, offs, accepts);
    WalkStarts(s, from, to, os, thr, mems);
    RewrittenNone(was, offs, accepts);
    WalkGoesOn(TranslateAll(s, from, to, os, thr, mems), s, from, to, was, was, offs, accepts, stamps, thr, mems, [], lost, ever);
  }

  /** binder_transaction_buffer_release on the bytes. */
  method ReleaseData(reg: Registry, p: Pid, data: array<Byte>, offs: seq<nat>, ghost accepts: seq<bool>,
                     ghost lost: set<NodeId>)
    requires Inv(reg.Abs(), lost) && |accepts| == |offs|
    modifies reg
    ensures reg.Abs() == ReleaseAll(old(reg.Abs()), p, Objs(data[..], offs, accepts))
  {
    ghost var s, os := reg.Abs(), Objs(data[..], offs, accepts);
    var i := 0;
    assert os[0..] == os;
    while i < |offs|
      invariant i <= |offs| && Inv(reg.Abs(), lost) && data[..] == old(data[..])
      invariant ReleaseAll(s, p, os) == ReleaseAll(reg.Abs(), p, os[i..])
    {
      ReleaseIs(reg.Abs(), p, os[i], lost);
      assert os[i..][0] == os[i] && os[i..][1..] == os[i + 1..];
      if KindAt(data[..], offs[i]).Some? {
        reg.ReleaseObject(p, ObjAt(data[..], offs[i], true), lost);
      }
      i := i + 1;
    }
    assert os[i..] == [];
  }

  /** From translation to the end of binder_transaction: a send that fails, in the walk or for want of memory after
      it, releases every object the offsets name as the bytes then stand. */
  method SendData(reg: Registry, from: Pid, to: Pid, data: array<Byte>, offs: seq<nat>, accepts: seq<bool>,
                  stamps: seq<U64>, thr: Option<Caller>, mems: seq<Memory>, memory: bool,
                  ghost lost: set<NodeId>, ghost ever: Option<NodeId>) returns (sent: bool)
    requires Inv(reg.Abs(), lost) && Zero(reg.Abs(), ever) && from in reg.tables && to in reg.tables
    requires |offs| == |accepts| == |stamps| == |mems|
    modifies reg, data
    ensures var (s1, data1, n) := WalkBytes(old(reg.Abs()), from, to, old(data[..]), offs, accepts, stamps, thr, mems, 0);
      && (sent <==> n == |offs| && memory) && data[..] == data1
      && reg.Abs() == if sent then s1 else ReleaseAll(s1, to, Objs(data1, offs, accepts))
  {
    var done := TranslateData(reg, from, to, data, offs, accepts, stamps, thr, mems, lost, ever);
    sent := done == |offs| && memory;
    if !sent { ReleaseData(reg, to, data, offs, accepts, lost); }
  }

  /** What a send of disjoint objects leaves: their translation if it went through, and otherwise the state before
      it if and only if the objects not reached name nothing of the receiver's. */
  lemma DisjointSend(s: State, from: Pid, to: Pid, was: Bytes, offs: seq<nat>, accepts: seq<bool>, stamps: seq<U64>,
                     thr: Option<Caller>, mems: seq<Memory>, k: nat, lost: set<NodeId>, ever: Option<NodeId>)
    requires Inv(s, lost) && Zero(s, ever) && from in s.tables && to in s.tables
    requires |offs| == |accepts| == |stamps| == |mems| && Disjoint(was, offs)
    requires Described(TranslateAll(s, from, to, Objs(was, offs, accepts), thr, mems).1)
    requires StopsAt(s, from, to, Objs(was, offs, accepts), thr, mems, k)
    ensures var (s1, data, n) := WalkBytes(s, from, to, was, offs, accepts, stamps, thr, mems, 0);
      && n == k && SameOutside(was, data, offs)
      && s1 == TranslateAll(s, from, to, Objs(was, offs, accepts), thr, mems).0
      && (Restored(s, ReleaseAll(s1, to, Objs(data, offs, accepts))) <==> NamesNothing(s, to, Objs(was, offs, accepts), k))
  {
    var os := Objs(was, offs, accepts);
    DisjointWalk(s, from, to, was, offs, accepts, stamps, thr, mems, lost, ever);
    FailedSendRestores(s, from, to, os, thr, mems, k, lost, ever);
  }

  /** What the loop leaves in the bytes means to the receiver what the sender put there, and each object rewritten
      costs one count: no count rises but by the objects that stand for it. */
  lemma BytesKeepMeaning(s: State, from: Pid, to: Pid, was: Bytes, data: Bytes, offs: seq<nat>, accepts: seq<bool>,
                         thr: Option<Caller>, mems: seq<Memory>, lost: set<NodeId>, ever: Option<NodeId>)
    requires Inv(s, lost) && Zero(s, ever) && from in s.tables && to in s.tables && |offs| == |accepts| == |mems|
    requires Rewritten(was, data, offs, accepts, TranslateAll(s, from, to, Objs(was, offs, accepts), thr, mems).1)
    ensures var (s1, rs) := TranslateAll(s, from, to, Objs(was, offs, accepts), thr, mems);
      && (forall i | 0 <= i < |rs| :: var o, r := ObjAt(was, offs[i], accepts[i]), ObjAt(data, offs[i], accepts[i]);
            if o.Other? then r == o else Denotes(s1, from, o).Some? && Denotes(s1, to, r) == Denotes(s1, from, o))
      && (forall k | k != NoKey :: Count(s1, k) == Count(s, k) + Keys(to, Objs(data, offs, accepts)[..|rs|])[k])
  {
    var os := Objs(was, offs, accepts);
    TranslateAllIs(s, from, to, os, thr, mems, lost, ever);
    var rs := TranslateAll(s, from, to, os, thr, mems).1;
    assert Remains(os, rs)[..|rs|] == rs;
    forall i | 0 <= i < |rs| ensures ObjAt(data, offs[i], accepts[i]) == rs[i] {
      assert Objs(data, offs, accepts)[i] == Remains(os, rs)[i];
    }
  }
}
