/**
Parcels as bytes: the objects an array of offsets names inside them (kext/binder_txn.c:73-118,
include/fs/devfs/binder.h:104-195), and what rewriting one of them in place does to the others.
*/
module Wire {
  import opened Common
  import opened RefCounts
  import opened Transfer

  type Byte = b: int | 0 <= b < 256
  type Bytes = seq<Byte>

  const U32_MAX: nat := 0xFFFF_FFFF

  // ---------------------------------------------------------------- little-endian numbers

  function Decode(b: Bytes): nat {
    if b == [] then 0 else b[0] + 256 * Decode(b[1..])
  }

  function Encode(v: nat, w: nat): (b: Bytes)
    ensures |b| == w
  {
    if w == 0 then [] else [v % 256] + Encode(v / 256, w - 1)
  }

  /** One past the largest number of `w` bytes. */
  function Limit(w: nat): nat { if w == 0 then 1 else 256 * Limit(w - 1) }

  lemma {:induction false} DecodeEncode(v: nat, w: nat)
    requires v < Limit(w)
    ensures Decode(Encode(v, w)) == v
    decreases w
  {
    if w > 0 {
      DecodeEncode(v / 256, w - 1);
      assert Encode(v, w)[1..] == Encode(v / 256, w - 1);
    }
  }

  lemma Limits()
    ensures Limit(4) == 0x1_0000_0000 && Limit(8) == 0x1_0000_0000_0000_0000
  {
    assert Limit(1) == 256 && Limit(2) == 0x1_0000 && Limit(3) == 0x100_0000;
    assert Limit(5) == 0x100_0000_0000 && Limit(6) == 0x1_0000_0000_0000 && Limit(7) == 0x100_0000_0000_0000;
  }

  lemma {:induction false} DecodeLimit(b: Bytes)
    ensures Decode(b) < Limit(|b|)
    decreases |b|
  {
    if b != [] { DecodeLimit(b[1..]); }
  }

  function U32At(data: Bytes, off: nat): nat
    requires off + 4 <= |data|
  {
    Decode(data[off..off + 4])
  }

  function U64At(data: Bytes, off: nat): (v: U64)
    requires off + 8 <= |data|
  {
    DecodeLimit(data[off..off + 8]);
    Limits();
    Decode(data[off..off + 8])
  }

  /** `bs` stored over what was at `off`. */
  function Store(data: Bytes, off: nat, bs: Bytes): (r: Bytes)
    requires off + |bs| <= |data|
    ensures |r| == |data|
  {
    data[..off] + bs + data[off + |bs|..]
  }

  lemma StoreReads(data: Bytes, off: nat, bs: Bytes)
    requires off + |bs| <= |data|
    ensures Store(data, off, bs)[off..off + |bs|] == bs
  {}

  lemma StoreElsewhere(data: Bytes, off: nat, bs: Bytes, lo: nat, hi: nat)
    requires off + |bs| <= |data| && lo <= hi <= |data| && (hi <= off || off + |bs| <= lo)
    ensures Store(data, off, bs)[lo..hi] == data[lo..hi]
  {}

  // ---------------------------------------------------------------- objects

  const TYPE_BINDER: nat := 0x73622a85
  const TYPE_WEAK_BINDER: nat := 0x77622a85
  const TYPE_HANDLE: nat := 0x73682a85
  const TYPE_WEAK_HANDLE: nat := 0x77682a85
  const TYPE_FD: nat := 0x66642a85
  const TYPE_FDA: nat := 0x66646185
  const TYPE_PTR: nat := 0x70742a85

  datatype Kind = BinderKind(strong: bool) | HandleKind(strong: bool) | FdKind | PtrKind | FdaKind

  function KindOf(t: nat): Option<Kind> {
    if t == TYPE_BINDER then Some(BinderKind(true))
    else if t == TYPE_WEAK_BINDER then Some(BinderKind(false))
    else if t == TYPE_HANDLE then Some(HandleKind(true))
    else if t == TYPE_WEAK_HANDLE then Some(HandleKind(false))
    else if t == TYPE_FD then Some(FdKind)
    else if t == TYPE_PTR then Some(PtrKind)
    else if t == TYPE_FDA then Some(FdaKind)
    else None
  }

  /** binder_object_size. */
  function SizeOf(k: Kind): nat {
    match k
    case BinderKind(_) => 24
    case HandleKind(_) => 24
    case FdKind => 24
    case PtrKind => 40
    case FdaKind => 32
  }

  /** There is room for a header, aligned, in the data. */
  predicate Headed(data: Bytes, off: nat) { off % 8 == 0 && off + 4 <= |data| }

  /** binder_object_at: the whole, aligned object an offset names. */
  function KindAt(data: Bytes, off: nat): (k: Option<Kind>)
    ensures k.Some? ==> Headed(data, off) && off + SizeOf(k.value) <= |data|
  {
    if off % 8 != 0 || off >= |data| then None
    else if |data| - off < 4 then None
    else
      var k := KindOf(U32At(data, off));
      if k.None? || |data| - off < SizeOf(k.value) then None else k
  }

  /** The bytes that decide what an offset names. */
  function Extent(data: Bytes, off: nat): (n: nat)
    ensures Headed(data, off) ==> 4 <= n
    ensures KindAt(data, off).Some? ==> n == SizeOf(KindAt(data, off).value)
  {
    if !Headed(data, off) then 0
    else
      var k := KindOf(U32At(data, off));
      if k.None? || |data| - off < SizeOf(k.value) then 4 else SizeOf(k.value)
  }

  /** What an offset names; `accepts` says whether a descriptor or scatter-gather buffer there is taken. */
  function ObjAt(data: Bytes, off: nat, accepts: bool): Obj {
    match KindAt(data, off)
    case None => Other(false)
    case Some(BinderKind(strong)) => Binder(U64At(data, off + 8), U64At(data, off + 16), strong)
    case Some(HandleKind(strong)) => Handle(U32At(data, off + 8), strong)
    case Some(FdKind) => Other(accepts)
    case Some(PtrKind) => Other(accepts)
    case Some(FdaKind) => Other(true)
  }

  function TypeOf(o: Obj): nat
    requires !o.Other?
  {
    match o
    case Binder(_, _, strong) => if strong then TYPE_BINDER else TYPE_WEAK_BINDER
    case Handle(_, strong) => if strong then TYPE_HANDLE else TYPE_WEAK_HANDLE
  }

  /** What translation can make of an object of this kind. */
  predicate MayBecome(k: Kind, r: Obj) {
    match k
    case BinderKind(strong) => r.Handle? && r.strong == strong
    case HandleKind(strong) => !r.Other? && r.strong == strong
    case _ => r.Other?
  }

  /** The fields translation stores over the object at `off`; `stamp` is the sender's pid or the receiver's address. */
  function Rewrite(data: Bytes, off: nat, r: Obj, stamp: U64): (d: Bytes)
    requires KindAt(data, off).Some? && MayBecome(KindAt(data, off).value, r)
    ensures |d| == |data|
  {
    match KindAt(data, off).value
    case BinderKind(_) =>
      var d1 := Store(data, off, Encode(TypeOf(r), 4));
      var d2 := Store(d1, off + 8, Encode(0, 8));
      var d3 := Store(d2, off + 8, Encode(r.desc, 4));
      Store(d3, off + 16, Encode(0, 8))
    case HandleKind(_) =>
      if r.Binder? then
        var d1 := Store(data, off, Encode(TypeOf(r), 4));
        var d2 := Store(d1, off + 8, Encode(r.ptr, 8));
        Store(d2, off + 16, Encode(r.cookie, 8))
      else Store(data, off + 8, Encode(r.desc, 4))
    case FdKind => Store(data, off + 16, Encode(stamp, 8))
    case PtrKind => Store(data, off + 8, Encode(stamp, 8))
    case FdaKind => data
  }

  // ---------------------------------------------------------------- rewriting one object

  /** Outside the object nothing changes. */
  lemma RewriteElsewhere(data: Bytes, off: nat, r: Obj, stamp: U64, lo: nat, hi: nat)
    requires KindAt(data, off).Some? && MayBecome(KindAt(data, off).value, r)
    requires lo <= hi <= |data| && (hi <= off || off + SizeOf(KindAt(data, off).value) <= lo)
    ensures Rewrite(data, off, r, stamp)[lo..hi] == data[lo..hi]
  {
    match KindAt(data, off).value
    case BinderKind(_) =>
      var d1 := Store(data, off, Encode(TypeOf(r), 4));
      var d2 := Store(d1, off + 8, Encode(0, 8));
      var d3 := Store(d2, off + 8, Encode(r.desc, 4));
      StoreElsewhere(data, off, Encode(TypeOf(r), 4), lo, hi);
      StoreElsewhere(d1, off + 8, Encode(0, 8), lo, hi);
      StoreElsewhere(d2, off + 8, Encode(r.desc, 4), lo, hi);
      StoreElsewhere(d3, off + 16, Encode(0, 8), lo, hi);
    case HandleKind(_) =>
      if r.Binder? {
        var d1 := Store(data, off, Encode(TypeOf(r), 4));
        var d2 := Store(d1, off + 8, Encode(r.ptr, 8));
        StoreElsewhere(data, off, Encode(TypeOf(r), 4), lo, hi);
        StoreElsewhere(d1, off + 8, Encode(r.ptr, 8), lo, hi);
        StoreElsewhere(d2, off + 16, Encode(r.cookie, 8), lo, hi);
      } else {
        StoreElsewhere(data, off + 8, Encode(r.desc, 4), lo, hi);
      }
    case FdKind => StoreElsewhere(data, off + 16, Encode(stamp, 8), lo, hi);
    case PtrKind => StoreElsewhere(data, off + 8, Encode(stamp, 8), lo, hi);
    case FdaKind =>
  }

  lemma StoreType(data: Bytes, off: nat, o: Obj)
    requires off + 4 <= |data| && !o.Other?
    ensures U32At(Store(data, off, Encode(TypeOf(o), 4)), off) == TypeOf(o)
  {
    Limits();
    StoreReads(data, off, Encode(TypeOf(o), 4));
    DecodeEncode(TypeOf(o), 4);
  }

  /** A handle rewritten into a handle keeps its type and reads back as the new descriptor. */
  lemma RewriteHandle(data: Bytes, off: nat, d: Desc, strong: bool, stamp: U64, accepts: bool)
    requires KindAt(data, off) == Some(HandleKind(strong)) && d <= U32_MAX
    ensures ObjAt(Rewrite(data, off, Handle(d, strong), stamp), off, accepts) == Handle(d, strong)
  {
    Limits();
    StoreElsewhere(data, off + 8, Encode(d, 4), off, off + 4);
    StoreReads(data, off + 8, Encode(d, 4));
    DecodeEncode(d, 4);
  }

  lemma RewriteToHandle(data: Bytes, off: nat, d: Desc, strong: bool, stamp: U64, accepts: bool)
    requires KindAt(data, off) == Some(BinderKind(strong)) && d <= U32_MAX
    ensures ObjAt(Rewrite(data, off, Handle(d, strong), stamp), off, accepts) == Handle(d, strong)
  {
    var r := Handle(d, strong);
    Limits();
    var d1 := Store(data, off, Encode(TypeOf(r), 4));
    StoreType(data, off, r);
    var d2 := Store(d1, off + 8, Encode(0, 8));
    StoreElsewhere(d1, off + 8, Encode(0, 8), off, off + 4);
    var d3 := Store(d2, off + 8, Encode(d, 4));
    StoreElsewhere(d2, off + 8, Encode(d, 4), off, off + 4);
    StoreReads(d2, off + 8, Encode(d, 4));
    DecodeEncode(d, 4);
    StoreElsewhere(d3, off + 16, Encode(0, 8), off, off + 4);
    StoreElsewhere(d3, off + 16, Encode(0, 8), off + 8, off + 12);
  }

  lemma RewriteToBinder(data: Bytes, off: nat, r: Obj, stamp: U64, accepts: bool)
    requires r.Binder? && KindAt(data, off) == Some(HandleKind(r.strong))
    ensures ObjAt(Rewrite(data, off, r, stamp), off, accepts) == r
  {
    Limits();
    var d1 := Store(data, off, Encode(TypeOf(r), 4));
    StoreType(data, off, r);
    var d2 := Store(d1, off + 8, Encode(r.ptr, 8));
    StoreElsewhere(d1, off + 8, Encode(r.ptr, 8), off, off + 4);
    StoreReads(d1, off + 8, Encode(r.ptr, 8));
    DecodeEncode(r.ptr, 8);
    StoreElsewhere(d2, off + 16, Encode(r.cookie, 8), off, off + 4);
    StoreElsewhere(d2, off + 16, Encode(r.cookie, 8), off + 8, off + 16);
    StoreReads(d2, off + 16, Encode(r.cookie, 8));
    DecodeEncode(r.cookie, 8);
  }

  /** Descriptors and scatter-gather buffers stay what they are. */
  lemma RewriteOther(data: Bytes, off: nat, r: Obj, stamp: U64)
    requires KindAt(data, off).Some? && r.Other?
    requires !KindAt(data, off).value.BinderKind? && !KindAt(data, off).value.HandleKind?
    ensures KindAt(Rewrite(data, off, r, stamp), off) == KindAt(data, off)
  {
    match KindAt(data, off).value
    case FdKind => StoreElsewhere(data, off + 16, Encode(stamp, 8), off, off + 4);
    case PtrKind => StoreElsewhere(data, off + 8, Encode(stamp, 8), off, off + 4);
    case FdaKind =>
  }

  /** The rewritten object reads back as what translation made of it, and is as long as it was. */
  lemma RewriteIs(data: Bytes, off: nat, r: Obj, stamp: U64, accepts: bool)
    requires KindAt(data, off).Some? && MayBecome(KindAt(data, off).value, r)
    requires r.Handle? ==> r.desc <= U32_MAX
    ensures var data' := Rewrite(data, off, r, stamp);
      && Extent(data', off) == Extent(data, off) && KindAt(data', off).Some?
      && ObjAt(data', off, accepts) == if r.Other? then ObjAt(data, off, accepts) else r
  {
    match KindAt(data, off).value
    case BinderKind(strong) => RewriteToHandle(data, off, r.desc, strong, stamp, accepts);
    case HandleKind(strong) =>
      if r.Binder? {
        RewriteToBinder(data, off, r, stamp, accepts);
      } else {
        RewriteHandle(data, off, r.desc, strong, stamp, accepts);
      }
    case _ => RewriteOther(data, off, r, stamp);
  }

  // ---------------------------------------------------------------- what decides an object

  /** Only the bytes of its extent decide what an offset names. */
  lemma SameObject(data: Bytes, data': Bytes, off: nat, accepts: bool)
    requires |data'| == |data|
    requires Headed(data, off) ==> off + Extent(data, off) <= |data|
    requires Headed(data, off) ==> data'[off..off + Extent(data, off)] == data[off..off + Extent(data, off)]
    ensures KindAt(data', off) == KindAt(data, off) && Extent(data', off) == Extent(data, off)
    ensures ObjAt(data', off, accepts) == ObjAt(data, off, accepts)
  {
    if Headed(data, off) {
      var e := Extent(data, off);
      SubSlice(data, data', off, off + e, off, off + 4);
      if KindAt(data, off).Some? && (KindAt(data, off).value.BinderKind? || KindAt(data, off).value.HandleKind?) {
        SubSlice(data, data', off, off + e, off + 8, off + 12);
        SubSlice(data, data', off, off + e, off + 8, off + 16);
        SubSlice(data, data', off, off + e, off + 16, off + 24);
      }
    }
  }

  lemma SubSlice(a: Bytes, b: Bytes, lo: nat, hi: nat, x: nat, y: nat)
    requires |a| == |b| && lo <= x <= y <= hi <= |a| && b[lo..hi] == a[lo..hi]
    ensures b[x..y] == a[x..y]
  {
    forall k | x <= k < y ensures b[k] == a[k] {
      assert a[lo..hi][k - lo] == a[k] && b[lo..hi][k - lo] == b[k];
    }
  }
}
