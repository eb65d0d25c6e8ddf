/**
Runs of RefRuns that begin alike: process 0 sends process 1 an object of its own. In the first the sending thread
exits before it has read the news of the object (kext/binder_proc.c:247-267). In the second process 0 then sends a
handle it does not have, and process 1 loses the handle it was given (kext/binder_txn.c:565-568, 650-653). In the third
process 0 reads the news, both processes close, and the object is left (kext/binder_node.c:115-160). A last one sends the
object weakly, and its owner is not told (kext/binder_node.c:358-396).
*/
module RefWitness {
  import opened Common
  import opened RefCounts
  import opened RefHandles
  import opened Transfer
  import opened Parcels
  import opened ParcelRelease
  import opened RefRuns
  import opened RefLedger
  import RefFreeing
  import RefOrphans

  const OBJECT: Obj := Binder(16, 0, true)
  const SENDER: Option<Caller> := Some(Caller(7, 0))
  const ENOUGH: Memory := Memory(true, true)

  const BEGINNING: seq<Op> := [OpenProc(0), OpenProc(1), NewThread(7, 0), Send(0, 1, [OBJECT], SENDER, [ENOUGH], true)]
  const BAD_SEND: Op := Send(0, 1, [Handle(1, true)], None, [ENOUGH], true)

  const OPENED: History :=
    Start().(s := State(map[], map[0 := map[], 1 := map[]], None, 0), born := {0, 1}, threads := map[7 := 0])
  const SENT: History := OPENED.(s := HandleOne(), live := [Parcel(1, [Handle(1, true)])])

  // ---------------------------------------------------------------- the common beginning

  lemma Opens() returns (h: History, h': History)
    ensures StepsTo(Start(), BEGINNING[0], h) && StepsTo(h, BEGINNING[1], h') && StepsTo(h', BEGINNING[2], OPENED)
  {
    h := Step(Start(), OpenProc(0));
    h' := Step(h, OpenProc(1));
    assert h.s.tables[1 := map[]] == OPENED.s.tables;
  }

  /** The translation of the object: a new node, a handle on it, and the news for the sending thread. */
  lemma FirstSend()
    ensures TranslateAll(OPENED.s, 0, 1, [OBJECT], SENDER, [ENOUGH]) == (HandleOne(), [Handle(1, true)])
  {
    var s := OPENED.s;
    assert FindNode(s, 0, 16).None?;
    FirstTake(NewNode(s, 0, 16, 0));
    assert Translate(s, 0, 1, OBJECT, SENDER, ENOUGH) == (HandleOne(), Some(Handle(1, true)));
    OneObject(s, 0, 1, OBJECT, SENDER, ENOUGH);
  }

  lemma OneObject(s: State, from: Pid, to: Pid, o: Obj, thr: Option<Caller>, mem: Memory)
    requires to in s.tables
    ensures var (s1, r) := Translate(s, from, to, o, thr, mem);
      TranslateAll(s, from, to, [o], thr, [mem]) == (s1, if r.None? || to !in s1.tables then [] else [r.value])
  {
    var (s1, r) := Translate(s, from, to, o, thr, mem);
    if r.Some? && to in s1.tables {
      assert TranslateAll(s1, from, to, [o][1..], thr, [mem][1..]) == (s1, []);
      assert [r.value] + [] == [r.value];
    }
  }

  lemma FirstTake(s: State)
    requires s == NewNode(OPENED.s, 0, 16, 0)
    ensures FindDesc(s, 1, 0).None? && TakeRef(s, 1, 0, true, SENDER) == (HandleOne(), 1)
  {
    assert FindDesc(s, 1, 0).None?;
    assert Tables(s);
    TakeRefIs(s, 1, 0, true, SENDER);
    assert RefBefore(s, 1, 0) == Ref(0, 0, 0) && NextDesc(s, 1, 0) == 1;
    assert s.nodes[0].refs + {1} == {1};
    assert NodeAfter(s, 1, 0, true, SENDER) == HandleOne().nodes[0];
    var s' := TakeRef(s, 1, 0, true, SENDER).0;
    assert s'.tables == HandleOne().tables;
    assert s'.nodes == HandleOne().nodes;
  }

  lemma Sends()
    ensures StepsTo(OPENED, BEGINNING[3], SENT)
  {
    FirstSend();
  }

  lemma FiveSteps(h1: History, h2: History, h3: History, h4: History, h5: History, begin: seq<Op>, last: Op)
    returns (hs: seq<History>)
    requires |begin| == 4 && StepsTo(Start(), begin[0], h1) && StepsTo(h1, begin[1], h2) && StepsTo(h2, begin[2], h3)
    requires StepsTo(h3, begin[3], h4) && StepsTo(h4, last, h5)
    ensures Run(hs, begin + [last]) && hs == [Start(), h1, h2, h3, h4, h5]
  {
    hs := [Start(), h1, h2, h3, h4, h5];
  }

  // ---------------------------------------------------------------- news lost

  /** A thread that exits before reading takes the news of its own new object with it. */
  lemma ExitCanLoseNews() returns (hs: seq<History>)
    ensures Run(hs, BEGINNING + [ExitThread(7)]) && News(hs[4].s, {}) && !Quiet(hs[4].s, 7) && !News(hs[5].s, {})
  {
    var h1, h2 := Opens();
    Sends();
    var h5 := Exits();
    hs := FiveSteps(h1, h2, OPENED, SENT, h5, BEGINNING, ExitThread(7));
  }

  lemma Exits() returns (h: History)
    ensures StepsTo(SENT, ExitThread(7), h) && News(SENT.s, {}) && !Quiet(SENT.s, 7) && !News(h.s, {})
  {
    h := Step(SENT, ExitThread(7));
    assert News(HandleOne(), {});
    var nd := HandleOne().nodes[0];
    assert RefClose.QueuedOn(nd, 7) && Strong(nd) && !nd.hasStrong;
    ExitKeepsNewsIff(HandleOne(), 7);
  }

  // ---------------------------------------------------------------- a handle lost

  /** A send that fails costs its receiver a handle that is still in a live buffer, and the ledger no longer holds. */
  lemma FailedSendDisturbs() returns (hs: seq<History>)
    ensures Run(hs, BEGINNING + [BAD_SEND]) && hs[4].s == HandleOne()
    ensures hs[5].live == hs[4].live == [Parcel(1, [Handle(1, true)])]
    ensures Count(hs[4].s, RefKey(1, 1, true)) == 1 && Count(hs[5].s, RefKey(1, 1, true)) == 0
    ensures Ledger(hs[4]) && !Ledger(hs[5])
  {
    var h1, h2 := Opens();
    Sends();
    var h4 := Fails();
    hs := FiveSteps(h1, h2, OPENED, SENT, h4, BEGINNING, BAD_SEND);
    SentIsGood(hs);
    HandleMissing(hs[4], hs[5]);
  }

  lemma HandleMissing(h: History, h': History)
    requires Ledger(h) && 1 in h.s.tables && 1 in h'.s.tables && h'.bal == h.bal && h'.live == h.live
    requires Count(h.s, RefKey(1, 1, true)) == 1 && Count(h'.s, RefKey(1, 1, true)) == 0
    ensures !Ledger(h')
  {
    Unaccounted(h, h', RefKey(1, 1, true));
  }

  lemma SentIsGood(hs: seq<History>)
    requires Run(hs, BEGINNING + [BAD_SEND]) && hs[3] == OPENED
    ensures Ledger(hs[4])
  {
    BeginningIsFair(hs);
    EveryFairRun(hs, BEGINNING + [BAD_SEND], 4);
  }

  lemma BeginningIsFair(hs: seq<History>)
    requires Run(hs, BEGINNING + [BAD_SEND]) && hs[3] == OPENED
    ensures FairTo(hs, BEGINNING + [BAD_SEND], 4)
  {
    assert FindNode(OPENED.s, 1, 16).None?;
    var ops := BEGINNING + [BAD_SEND];
    forall j | 0 <= j < 4 ensures StepsTo(hs[j], ops[j], hs[j + 1]) && Fair(hs[j], ops[j]) {
      assert ops[j] == BEGINNING[j];
    }
  }

  lemma Fails() returns (h: History)
    ensures StepsTo(SENT, BAD_SEND, h) && h.live == SENT.live && h.bal == SENT.bal
    ensures h.s.tables.Keys == SENT.s.tables.Keys
    ensures Count(SENT.s, RefKey(1, 1, true)) == 1 && Count(h.s, RefKey(1, 1, true)) == 0
  {
    var s, os, k := HandleOne(), [Handle(1, true)], RefKey(1, 1, true);
    h := Step(SENT, BAD_SEND);
    HandleOneInv();
    var (s1, rs) := TranslateAll(s, 0, 1, os, None, [ENOUGH]);
    assert rs == [];
    SendReleaseCounts(s, 0, 1, os, None, [ENOUGH], {}, None);
    assert os[0..] == os && KeyOf(1, os[0]) == k;
    KeysCount(1, os, k);
  }

  // ---------------------------------------------------------------- an object left

  lemma Longer(hs: seq<History>, ops: seq<Op>, op: Op, h: History)
    requires Run(hs, ops) && StepsTo(hs[|ops|], op, h)
    ensures Run(hs + [h], ops + [op])
  {
    var hs', ops' := hs + [h], ops + [op];
    forall i | 0 <= i < |ops'| ensures StepsTo(hs'[i], ops'[i], hs'[i + 1]) {
      if i < |ops| { assert StepsTo(hs[i], ops[i], hs[i + 1]); }
    }
  }

  const READ: Op := Read(0, 40, 7)
  const ENDING: seq<Op> := [CloseProc(0, [0], []), CloseProc(1, [], [1])]

  /** An object whose owner was told of it is still there when there is no process left. */
  lemma ToldObjectIsLeft() returns (hs: seq<History>)
    ensures Run(hs, BEGINNING + [READ] + [ENDING[0]] + [ENDING[1]])
    ensures hs[7].s.tables == map[] && 0 in hs[7].s.nodes
  {
    var h1, h2 := Opens();
    Sends();
    var h5 := Reads();
    hs := FiveSteps(h1, h2, OPENED, SENT, h5, BEGINNING, READ);
    hs := BothClose(hs, BEGINNING + [READ]);
  }

  lemma BothClose(hs: seq<History>, ops: seq<Op>) returns (hs': seq<History>)
    requires Run(hs, ops) && |ops| == 5 && hs[5].s.nodes.Keys == {0}
    requires hs[5].s.nodes[0].owner == Some(0) && hs[5].s.nodes[0].hasWeak
    requires hs[5].s.tables == HandleOne().tables && hs[5].s.mgr.None?
    ensures Run(hs', ops + [ENDING[0]] + [ENDING[1]]) && hs'[7].s.tables == map[] && 0 in hs'[7].s.nodes
  {
    EveryRun(hs, ops, 5);
    var h6 := OwnerCloses(hs[5]);
    Longer(hs, ops, ENDING[0], h6);
    hs' := LastCloses(hs + [h6], ops + [ENDING[0]]);
  }

  lemma LastCloses(hs: seq<History>, ops: seq<Op>) returns (hs': seq<History>)
    requires Run(hs, ops) && |ops| == 6 && hs[6].s.nodes.Keys == {0}
    requires hs[6].s.nodes[0].owner.None? && hs[6].s.nodes[0].hasWeak && hs[6].s.tables == HandleOne().tables - {0}
    ensures Run(hs', ops + [ENDING[1]]) && hs'[7].s.tables == map[] && 0 in hs'[7].s.nodes
  {
    var h7 := HolderCloses(hs[6]);
    Longer(hs, ops, ENDING[1], h7);
    hs' := hs + [h7];
    EveryRun(hs, ops, 6);
    RefClose.CloseInv(hs[6].s, 1, [], [1], hs[6].lost);
    RefOrphans.OrphanLives(hs', ops + [ENDING[1]], 6, 7, 0);
  }

  lemma Reads() returns (h: History)
    ensures StepsTo(SENT, READ, h) && h.s.nodes.Keys == {0} && h.s.nodes[0].owner == Some(0) && h.s.nodes[0].hasWeak
    ensures h.s.tables == HandleOne().tables && h.s.mgr.None?
  {
    h := Step(SENT, READ);
  }

  lemma OwnerCloses(h: History) returns (h': History)
    requires Sound(h) && h.s.nodes.Keys == {0} && h.s.nodes[0].owner == Some(0) && h.s.nodes[0].hasWeak
    requires h.s.tables == HandleOne().tables && h.s.mgr.None?
    ensures StepsTo(h, ENDING[0], h') && h'.s.nodes.Keys == {0} && h'.s.nodes[0].owner.None? && h'.s.nodes[0].hasWeak
    ensures h'.s.tables == HandleOne().tables - {0}
  {
    assert RefClose.Lists(h.s, 0, [0], []);
    h' := Step(h, ENDING[0]);
    RefClose.CloseInv(h.s, 0, [0], [], h.lost);
    RefOrphans.CloseFreesIff(h.s, 0, [0], [], 0, h.lost);
  }

  lemma HolderCloses(h: History) returns (h': History)
    requires h.s.nodes.Keys == {0} && h.s.nodes[0].owner.None? && h.s.tables == HandleOne().tables - {0}
    ensures StepsTo(h, ENDING[1], h') && h'.s == RefClose.Close(h.s, 1, [], [1]) && RefClose.Lists(h.s, 1, [], [1])
  {
    assert RefClose.Lists(h.s, 1, [], [1]);
    h' := Step(h, ENDING[1]);
  }

  // ---------------------------------------------------------------- a weak hold

  const WEAK_SEND: Op := Send(0, 1, [Binder(16, 0, false)], SENDER, [ENOUGH], true)

  /** An object sent weakly is held, its owner is there and was told of nothing, and has no news of it. */
  lemma WeakHoldUnreported() returns (hs: seq<History>)
    ensures Run(hs, BEGINNING[..3] + [WEAK_SEND]) && 0 in hs[4].s.nodes
    ensures var nd := hs[4].s.nodes[0];
      nd.owner == Some(0) && Weak(nd) && !nd.hasWeak && nd.queue.None? && !RefFreeing.WeakNews(nd)
  {
    var h1, h2 := Opens();
    hs := [Start(), h1, h2, OPENED];
    assert Run(hs, BEGINNING[..3]);
    var h := SendsWeakly();
    Longer(hs, BEGINNING[..3], WEAK_SEND, h);
    hs := hs + [h];
  }

  lemma SendsWeakly() returns (h: History)
    ensures StepsTo(OPENED, WEAK_SEND, h) && 0 in h.s.nodes
    ensures h.s.nodes[0].owner == Some(0) && h.s.nodes[0].refs == {1} && !h.s.nodes[0].hasWeak && h.s.nodes[0].queue.None?
  {
    h := Step(OPENED, WEAK_SEND);
    var o: Obj := Binder(16, 0, false);
    assert FindNode(OPENED.s, 0, 16).None?;
    var s1 := NewNode(OPENED.s, 0, 16, 0);
    assert Tables(s1);
    TakeRefIs(s1, 1, 0, false, SENDER);
    OneObject(OPENED.s, 0, 1, o, SENDER, ENOUGH);
  }
}
