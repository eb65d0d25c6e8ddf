/**
The ledger of counts. Over the runs of RefRuns in which clients release only what they took and no failing send names
anything of the receiver's past the failure, every count of a handle or an object is the holder's own balance plus the
objects naming it in the holder's live buffers (kext/binder_txn.c:272-324, kext/binder_proc.c:452-472). Those are the
runs that keep the ledger: a step breaks it if and only if it is one of the two.
*/
module RefLedger {
  import opened Common
  import opened RefCounts
  import opened RefHandles
  import opened Transfer
  import opened Parcels
  import opened ParcelRefusal
  import opened ParcelRelease
  import opened RefClose
  import opened Reconcile
  import opened RefRuns

  /** The counts that live parcels stand for. */
  function Total(live: seq<Parcel>): multiset<Key> {
    if live == [] then multiset{} else Keys(live[0].p, live[0].os) + Total(live[1..])
  }

  ghost predicate Present(h: History, k: Key) { HolderOf(k).Some? && HolderOf(k).value in h.s.tables }

  /** The ledger: every count a process holds is accounted for. */
  ghost predicate Ledger(h: History) {
    forall k | Present(h, k) :: Count(h.s, k) == h.bal[k] + Total(h.live)[k]
  }

  ghost predicate Good(h: History) { Sound(h) && Ledger(h) }

  /** A client that gives back a count took it or is refused, and a send that is refused names nothing of the
      receiver's from there on. */
  ghost predicate Fair(h: History, op: Op)
    requires May(h, op)
  {
    match op
    case Send(from, to, os, thr, mems, _) =>
      forall k: nat | StopsAt(h.s, from, to, os, thr, mems, k) :: NamesNothing(h.s, to, os, k)
    case RefCommand(p, d, strong, inc, _, _) =>
      inc || RefKey(p, d, strong) in h.bal || Count(h.s, RefKey(p, d, strong)) == 0
    case _ => true
  }

  // ---------------------------------------------------------------- sends and frees

  lemma {:induction false} TotalMore(live: seq<Parcel>, x: Parcel)
    ensures Total(live + [x]) == Total(live) + Keys(x.p, x.os)
    decreases |live|
  {
    if live == [] {
      assert live + [x] == [x] && [x][1..] == [];
    } else {
      TotalMore(live[1..], x);
      assert (live + [x])[1..] == live[1..] + [x];
    }
  }

  lemma {:induction false} TotalWithout(live: seq<Parcel>, i: nat)
    requires i < |live|
    ensures Total(live) == Total(live[..i] + live[i + 1..]) + Keys(live[i].p, live[i].os)
    decreases |live|
  {
    var less := live[..i] + live[i + 1..];
    if i == 0 {
      assert less == live[1..];
    } else {
      TotalWithout(live[1..], i - 1);
      SplicedTail(live, i);
    }
  }

  lemma SplicedTail(live: seq<Parcel>, i: nat)
    requires 0 < i < |live|
    ensures var less := live[..i] + live[i + 1..];
      less[0] == live[0] && less[1..] == live[1..][..i - 1] + live[1..][i..]
  {}

  /** A send that is taken back leaves the ledger as it was if and only if it is fair. */
  lemma FailedLedger(h: History, from: Pid, to: Pid, os: seq<Obj>, thr: Option<Caller>, mems: seq<Memory>)
    requires Good(h) && from in h.s.tables && to in h.s.tables && |mems| == |os|
    ensures var (s1, rs) := TranslateAll(h.s, from, to, os, thr, mems);
      && |rs| <= |os|
      && (Ledger(h.(s := ReleaseAll(s1, to, Remains(os, rs)))) <==> NamesNothing(h.s, to, os, |rs|))
  {
    var (s1, rs) := TranslateAll(h.s, from, to, os, thr, mems);
    SendReleaseCounts(h.s, from, to, os, thr, mems, h.lost, h.ever);
    var s2 := ReleaseAll(s1, to, Remains(os, rs));
    if NamesNothing(h.s, to, os, |rs|) {
      StoppedSendRestores(h.s, from, to, os, thr, mems, h.lost, h.ever);
      SameLedger(h, h.(s := s2));
    } else {
      var j :| |rs| <= j < |os| && Count(h.s, KeyOf(to, os[j])) != 0;
      TailLedger(h, s2, to, os, |rs|, j);
    }
  }

  /** An object past the refusal that names a count of the receiver's costs it that count. */
  lemma TailLedger(h: History, s2: State, to: Pid, os: seq<Obj>, k: nat, j: nat)
    requires Ledger(h) && to in h.s.tables && s2.tables.Keys == h.s.tables.Keys && k <= j < |os|
    requires Count(h.s, KeyOf(to, os[j])) != 0
    requires forall x :: Count(s2, x) == Minus(Count(h.s, x), Keys(to, os[k..])[x])
    ensures !Ledger(h.(s := s2))
  {
    assert os[k..][j - k] == os[j];
    KeysCount(to, os[k..], KeyOf(to, os[j]));
    Unaccounted(h, h.(s := s2), KeyOf(to, os[j]));
  }

  /** A count that fell while nobody gave it back. */
  lemma Unaccounted(h: History, h': History, k: Key)
    requires Ledger(h) && Present(h, k) && Present(h', k) && h'.bal[k] == h.bal[k] && h'.live == h.live
    requires Count(h'.s, k) < Count(h.s, k)
    ensures !Ledger(h')
  {}

  lemma SendLedger(h: History, from: Pid, to: Pid, os: seq<Obj>, thr: Option<Caller>, mems: seq<Memory>, memory: bool)
    requires Good(h) && May(h, Send(from, to, os, thr, mems, memory))
    ensures Ledger(SendStep(h, from, to, os, thr, mems, memory)) <==> Fair(h, Send(from, to, os, thr, mems, memory))
  {
    var (s1, rs) := TranslateAll(h.s, from, to, os, thr, mems);
    FairSend(h, from, to, os, thr, mems, memory);
    TranslateAllIs(h.s, from, to, os, thr, mems, h.lost, h.ever);
    if |rs| == |os| && memory {
      SentLedger(h, h.(s := s1, live := h.live + [Parcel(to, rs)]), to, rs);
    } else {
      FailedLedger(h, from, to, os, thr, mems);
    }
  }

  lemma FairSend(h: History, from: Pid, to: Pid, os: seq<Obj>, thr: Option<Caller>, mems: seq<Memory>, memory: bool)
    requires Good(h) && May(h, Send(from, to, os, thr, mems, memory))
    ensures var rs := TranslateAll(h.s, from, to, os, thr, mems).1;
      |rs| <= |os| && (Fair(h, Send(from, to, os, thr, mems, memory)) <==> NamesNothing(h.s, to, os, |rs|))
  {
    var rs := TranslateAll(h.s, from, to, os, thr, mems).1;
    WalkStopsAt(h.s, from, to, os, thr, mems, h.lost, h.ever);
    forall k: nat | StopsAt(h.s, from, to, os, thr, mems, k) ensures k == |rs| {
      OneStop(h.s, from, to, os, thr, mems, k, |rs|);
    }
  }

  lemma SameLedger(h: History, h': History)
    requires Ledger(h) && h'.s.tables.Keys == h.s.tables.Keys && SameCounts(h.s, h'.s)
    requires h'.bal == h.bal && h'.live == h.live
    ensures Ledger(h')
  {}

  lemma SentLedger(h: History, h': History, to: Pid, rs: seq<Obj>)
    requires Ledger(h) && to in h.s.tables && h'.s.tables.Keys == h.s.tables.Keys
    requires forall k | k != NoKey :: Count(h'.s, k) == Count(h.s, k) + Keys(to, rs)[k]
    requires h'.bal == h.bal && h'.live == h.live + [Parcel(to, rs)]
    ensures Ledger(h')
  {
    TotalMore(h.live, Parcel(to, rs));
    MoreLedger(h, h', Keys(to, rs));
  }

  lemma MoreLedger(h: History, h': History, keys: multiset<Key>)
    requires Ledger(h) && h'.s.tables.Keys == h.s.tables.Keys && h'.bal == h.bal
    requires Total(h'.live) == Total(h.live) + keys
    requires forall k | k != NoKey :: Count(h'.s, k) == Count(h.s, k) + keys[k]
    ensures Ledger(h')
  {
    forall k | Present(h', k) ensures Count(h'.s, k) == h'.bal[k] + Total(h'.live)[k] { assert Present(h, k); }
  }

  lemma FreedLedger(h: History, h': History, i: nat)
    requires Ledger(h) && i < |h.live| && h'.s.tables.Keys == h.s.tables.Keys
    requires forall k :: Count(h'.s, k) == Minus(Count(h.s, k), Keys(h.live[i].p, h.live[i].os)[k])
    requires h'.bal == h.bal && h'.live == h.live[..i] + h.live[i + 1..]
    ensures Ledger(h')
  {
    TotalWithout(h.live, i);
    LessLedger(h, h', Keys(h.live[i].p, h.live[i].os));
  }

  lemma LessLedger(h: History, h': History, keys: multiset<Key>)
    requires Ledger(h) && h'.s.tables.Keys == h.s.tables.Keys && h'.bal == h.bal
    requires Total(h.live) == Total(h'.live) + keys
    requires forall k :: Count(h'.s, k) == Minus(Count(h.s, k), keys[k])
    ensures Ledger(h')
  {
    forall k | Present(h', k) ensures Count(h'.s, k) == h'.bal[k] + Total(h'.live)[k] { assert Present(h, k); }
  }

  // ---------------------------------------------------------------- client commands

  lemma AcquireLedger(h: History, p: Pid, d: Desc, strong: bool, thr: Option<Caller>, memory: bool)
    requires Good(h) && p in h.s.tables && Acts(h, thr, p)
    ensures Ledger(Step(h, RefCommand(p, d, strong, true, thr, memory)))
  {
    var (s', d') := RefCmd(h.s, p, d, strong, true, thr, memory);
    var n := AcquireIs(h.s, p, d, strong, thr, memory);
    if d'.Some? { TakeLedger(h, s', p, n, d'.value, strong, thr); }
  }

  lemma TakeLedger(h: History, s': State, p: Pid, n: NodeId, d: Desc, strong: bool, thr: Option<Caller>)
    requires Good(h) && p in h.s.tables && n in h.s.nodes && (s', d) == TakeRef(h.s, p, n, strong, thr)
    ensures Ledger(h.(s := s', bal := h.bal + multiset{RefKey(p, d, strong)}))
  {
    var k := RefKey(p, d, strong);
    TakeRefCounts(h.s, p, n, strong, thr, h.lost, h.ever);
    TakeRefExtends(h.s, p, n, strong, thr, h.ever);
    TakenLedger(h, h.(s := s', bal := h.bal + multiset{k}), k);
  }

  lemma TakenLedger(h: History, h': History, k: Key)
    requires Ledger(h) && Present(h, k) && OneUp(h.s, h'.s, k) && h'.s.tables.Keys == h.s.tables.Keys
    requires h'.bal == h.bal + multiset{k} && h'.live == h.live
    ensures Ledger(h')
  {}

  /** Giving back a count keeps the ledger if and only if it was taken, or is refused. */
  lemma DropLedger(h: History, p: Pid, d: Desc, strong: bool, thr: Option<Caller>, memory: bool)
    requires Good(h) && p in h.s.tables && Acts(h, thr, p)
    ensures var op := RefCommand(p, d, strong, false, thr, memory);
      Ledger(Step(h, op)) <==> Fair(h, op)
  {
    DropIs(h.s, p, d, strong, thr, memory, h.lost);
    DropAccepted(h.s, p, d, strong, thr, memory, h.lost);
    DropAccounts(h, Step(h, RefCommand(p, d, strong, false, thr, memory)), RefKey(p, d, strong));
  }

  /** One count less, and one less in the balance if there was one. */
  lemma DropAccounts(h: History, h': History, k: Key)
    requires Ledger(h) && Present(h, k) && OneDown(h.s, h'.s, k) && h'.s.tables.Keys == h.s.tables.Keys
    requires h'.live == h.live && h'.bal == if Count(h.s, k) > 0 then h.bal - multiset{k} else h.bal
    ensures Ledger(h') <==> k in h.bal || Count(h.s, k) == 0
  {
    if Count(h.s, k) == 0 {
      SameLedger(h, h');
    } else if k in h.bal {
      DroppedLedger(h, h', k);
    } else {
      Unaccounted(h, h', k);
    }
  }

  /** It is accepted if and only if there is a count to give back. */
  lemma DropAccepted(s: State, p: Pid, d: Desc, strong: bool, thr: Option<Caller>, memory: bool, lost: set<NodeId>)
    requires Inv(s, lost) && p in s.tables
    ensures RefCmd(s, p, d, strong, false, thr, memory).1.Some? <==> Count(s, RefKey(p, d, strong)) > 0
  {
    if d in s.tables[p] {
      assert Holds(s, p, d, s.tables[p][d].node);
      if Count(s, RefKey(p, d, strong)) > 0 { DropRefIs(s, p, d, strong, thr, lost); }
    }
  }

  lemma DroppedLedger(h: History, h': History, k: Key)
    requires Ledger(h) && k in h.bal && OneDown(h.s, h'.s, k) && Count(h.s, k) > 0
    requires h'.s.tables.Keys == h.s.tables.Keys
    requires h'.bal == h.bal - multiset{k} && h'.live == h.live
    ensures Ledger(h')
  {}

  // ---------------------------------------------------------------- the manager

  /** A manager's node gains one strong and one weak count of its owner's. */
  lemma RegisterCounts(s: State, s1: State, s': State, p: Pid, ptr: U64, n: NodeId, k: Key)
    requires Owners(s1) && Owners(s') && SameCounts(s, s1) && Owns(s1, p, ptr, n)
    requires s' == s1.(mgr := Some(n), nodes := s1.nodes[n := AsManager(s1.nodes[n])])
    ensures Count(s', k) == Count(s, k) + multiset{LocalKey(p, ptr, true), LocalKey(p, ptr, false)}[k]
  {
    if k.LocalKey? { LocalShift(s1, s', n, k.p, k.ptr, k.strong); }
  }

  lemma ManagerLedger(h: History, p: Pid, ptr: U64, cookie: U64, memory: bool)
    requires Good(h) && May(h, SetManager(p, ptr, cookie, memory))
    ensures Ledger(Step(h, SetManager(p, ptr, cookie, memory)))
  {
    if h.s.mgr.None? && (FindNode(h.s, p, ptr).Some? || memory) {
      var h' := Step(h, SetManager(p, ptr, cookie, memory));
      var s1 := if FindNode(h.s, p, ptr).Some? then h.s else NewNode(h.s, p, ptr, cookie);
      ManagerIs(h.s, p, ptr, cookie, h.lost, h.ever);
      RegisterInv(h.s, p, ptr, cookie, h.lost);
      forall k ensures Count(h'.s, k) == Count(h.s, k) + multiset{LocalKey(p, ptr, true), LocalKey(p, ptr, false)}[k] {
        RegisterCounts(h.s, s1, h'.s, p, ptr, ManagerNode(h.s, p, ptr), k);
      }
      RegisteredLedger(h, h', p, ptr);
    }
  }

  lemma RegisteredLedger(h: History, h': History, p: Pid, ptr: U64)
    requires Ledger(h) && p in h.s.tables && h'.s.tables == h.s.tables
    requires h'.bal == h.bal + multiset{LocalKey(p, ptr, true), LocalKey(p, ptr, false)}
    requires h'.live == h.live
    requires forall k :: Count(h'.s, k) == Count(h.s, k) + multiset{LocalKey(p, ptr, true), LocalKey(p, ptr, false)}[k]
    ensures Ledger(h')
  {}

  // ---------------------------------------------------------------- reading, coming and going

  lemma ReadNodeCounts(s: State, n: NodeId, room: nat)
    requires Owners(s) && n in s.nodes && Owners(ReadNode(s, n, room).0)
    ensures SameCounts(s, ReadNode(s, n, room).0)
  {
    var nd := s.nodes[n];
    if Fits(nd, room) {
      var s1 := s.(nodes := s.nodes[n := Known(nd)]);
      SameOwners(s, n, Known(nd), s1);
      assert SameLocals(s, s1);
      forall k ensures Count(s1, k) == Count(s, k) {
        if k.LocalKey? { LocalSame(s, s1, k.p, k.ptr, k.strong); }
      }
      if BrDecrefs in Commands(nd) { MaybeFreeCounts(s1, n); }
    }
  }

  /** A process that is not there holds nothing. */
  lemma AbsentHoldsNothing(s: State, k: Key)
    requires Owners(s) && HolderOf(k).Some? && HolderOf(k).value !in s.tables
    ensures Count(s, k) == 0
  {}

  lemma {:induction false} KeysOfOthers(p: Pid, os: seq<Obj>, k: Key)
    requires HolderOf(k).Some? && HolderOf(k).value != p
    ensures Keys(p, os)[k] == 0
    decreases |os|
  {
    if os != [] { KeysOfOthers(p, os[1..], k); }
  }

  lemma {:induction false} TotalBorn(live: seq<Parcel>, born: set<Pid>, k: Key)
    requires forall i | 0 <= i < |live| :: live[i].p in born
    requires HolderOf(k).Some? && HolderOf(k).value !in born
    ensures Total(live)[k] == 0
    decreases |live|
  {
    if live != [] {
      assert live[0].p in born;
      KeysOfOthers(live[0].p, live[0].os, k);
      TotalBorn(live[1..], born, k);
    }
  }

  lemma OpenLedger(h: History, p: Pid)
    requires Good(h) && p !in h.born
    ensures Ledger(Step(h, OpenProc(p)))
  {
    var h' := Step(h, OpenProc(p));
    OpenInv(h.s, p, h.lost);
    forall k | Present(h', k) ensures Count(h'.s, k) == h'.bal[k] + Total(h'.live)[k] {
      if HolderOf(k).value == p {
        AbsentHoldsNothing(h.s, k);
        TotalBorn(h.live, h.born, k);
      } else {
        assert Present(h, k);
      }
    }
  }

  lemma CloseLedger(h: History, p: Pid, nodes: seq<NodeId>, descs: seq<Desc>)
    requires Good(h) && Lists(h.s, p, nodes, descs)
    ensures Ledger(Step(h, CloseProc(p, nodes, descs)))
  {
    var h' := Step(h, CloseProc(p, nodes, descs));
    CloseInv(h.s, p, nodes, descs, h.lost);
    forall k | Present(h', k) ensures Count(h'.s, k) == h'.bal[k] + Total(h'.live)[k] {
      assert Present(h, k);
    }
  }

  lemma FreeLedger(h: History, i: nat)
    requires Good(h) && May(h, FreeBuffer(i))
    ensures Ledger(Step(h, FreeBuffer(i)))
  {
    ReleaseAllIs(h.s, h.live[i].p, h.live[i].os, h.lost);
    FreedLedger(h, Step(h, FreeBuffer(i)), i);
  }

  // ---------------------------------------------------------------- every run

  /** A step keeps the ledger if and only if it is fair. */
  lemma LedgerKeptIff(h: History, op: Op)
    requires Good(h) && May(h, op)
    ensures Ledger(Step(h, op)) <==> Fair(h, op)
  {
    match op
    case Send(from, to, os, thr, mems, memory) => SendLedger(h, from, to, os, thr, mems, memory);
    case FreeBuffer(i) => FreeLedger(h, i);
    case RefCommand(p, d, strong, inc, thr, memory) =>
      if inc {
        AcquireLedger(h, p, d, strong, thr, memory);
      } else {
        DropLedger(h, p, d, strong, thr, memory);
      }
    case SetManager(p, ptr, cookie, memory) => ManagerLedger(h, p, ptr, cookie, memory);
    case NewThread(tid, p) => SameLedger(h, Step(h, op));
    case Read(n, room, _) =>
      ReadNodeInv(h.s, n, room, h.lost);
      ReadNodeCounts(h.s, n, room);
      SameLedger(h, Step(h, op));
    case ExitThread(tid) =>
      ThreadExitInv(h.s, tid, h.lost);
      SameLedger(h, Step(h, op));
    case OpenProc(p) => OpenLedger(h, p);
    case CloseProc(p, nodes, descs) => CloseLedger(h, p, nodes, descs);
  }

  /** The first `i` steps of a run are fair. */
  ghost predicate FairTo(hs: seq<History>, ops: seq<Op>, i: nat)
    requires Run(hs, ops) && i < |hs|
  {
    forall j | 0 <= j < i :: StepsTo(hs[j], ops[j], hs[j + 1]) && Fair(hs[j], ops[j])
  }

  lemma {:induction false} EveryFairRun(hs: seq<History>, ops: seq<Op>, i: nat)
    requires Run(hs, ops) && i < |hs| && FairTo(hs, ops, i)
    ensures Good(hs[i])
  {
    EveryRun(hs, ops, i);
    if i > 0 {
      EveryFairRun(hs, ops, i - 1);
      assert StepsTo(hs[i - 1], ops[i - 1], hs[i - 1 + 1]);
      LedgerKeptIff(hs[i - 1], ops[i - 1]);
    }
  }

  /** The objects of a parcel that name descriptor `d` with that strength. */
  function NamingIn(os: seq<Obj>, d: Desc, strong: bool): nat {
    if os == [] then 0 else (if os[0] == Handle(d, strong) then 1 else 0) + NamingIn(os[1..], d, strong)
  }

  /** The objects in the live buffers of `p` that name its descriptor `d`. */
  function Naming(live: seq<Parcel>, p: Pid, d: Desc, strong: bool): nat {
    if live == [] then 0
    else (if live[0].p == p then NamingIn(live[0].os, d, strong) else 0) + Naming(live[1..], p, d, strong)
  }

  lemma {:induction false} KeysNaming(q: Pid, os: seq<Obj>, p: Pid, d: Desc, strong: bool)
    ensures Keys(q, os)[RefKey(p, d, strong)] == if q == p then NamingIn(os, d, strong) else 0
    decreases |os|
  {
    if os != [] { KeysNaming(q, os[1..], p, d, strong); }
  }

  lemma {:induction false} TotalNaming(live: seq<Parcel>, p: Pid, d: Desc, strong: bool)
    ensures Total(live)[RefKey(p, d, strong)] == Naming(live, p, d, strong)
    decreases |live|
  {
    if live != [] {
      KeysNaming(live[0].p, live[0].os, p, d, strong);
      TotalNaming(live[1..], p, d, strong);
    }
  }

  /** In every fair run, a handle counts what its process took itself and the objects naming it in its buffers. */
  lemma HandleAccount(hs: seq<History>, ops: seq<Op>, i: nat, p: Pid, d: Desc)
    requires Run(hs, ops) && i < |hs| && FairTo(hs, ops, i) && p in hs[i].s.tables && d in hs[i].s.tables[p]
    ensures var h := hs[i]; var r := h.s.tables[p][d];
      && r.strong == h.bal[RefKey(p, d, true)] + Naming(h.live, p, d, true)
      && r.weak == h.bal[RefKey(p, d, false)] + Naming(h.live, p, d, false)
      && r.strong + r.weak > 0
  {
    EveryFairRun(hs, ops, i);
    TotalNaming(hs[i].live, p, d, true);
    TotalNaming(hs[i].live, p, d, false);
    assert Present(hs[i], RefKey(p, d, true)) && Present(hs[i], RefKey(p, d, false));
  }
}
