/**
An offset given twice that misleads (kext/binder_txn.c:470-569). Process 2 sends process 0 two objects, which process 0
has as handles 1 and 2. It sends process 1 handle 2, with the offset of it twice: the first turn makes it handle 1 of
process 1, the second reads that as handle 1 of process 0, and process 1 is left with the other object.
*/
module WireWitness {
  import opened Common
  import opened RefCounts
  import opened RefHandles
  import opened Transfer
  import opened Parcels
  import opened ParcelRefusal
  import opened RefRuns
  import RefWitness
  import opened Wire
  import opened WireDriver
  import opened WireOverlap

  const ENOUGH: Memory := RefWitness.ENOUGH

  const BEGINNING: seq<Op> := [OpenProc(0), OpenProc(1), OpenProc(2), NewThread(9, 2)]
  const SEND: Op := Send(2, 0, [Binder(16, 0, true), Binder(32, 0, true)], None, [ENOUGH, ENOUGH], true)

  /** An object of process 2 that process 0 has a strong handle on, with the news of it queued. */
  function Given(ptr: U64): Node { Node(Some(2), ptr, 0, {0}, 1, 0, 0, 0, false, false, Some(ProcQueue(2))) }

  const NOTHING: State := State(map[], map[0 := map[], 1 := map[], 2 := map[]], None, 0)
  const ONE: State := State(map[0 := Given(16)], map[0 := map[1 := Ref(0, 1, 0)], 1 := map[], 2 := map[]], None, 1)
  const TWO: State :=
    State(map[0 := Given(16), 1 := Given(32)], map[0 := map[1 := Ref(0, 1, 0), 2 := Ref(1, 1, 0)], 1 := map[], 2 := map[]],
          None, 2)

  // ---------------------------------------------------------------- two handles

  /** A new object sent to process 0 by process 2. */
  lemma SendsNew(s: State, ptr: U64, d: Desc)
    requires Tables(s) && 0 in s.tables && s.mgr.None? && FindNode(s, 2, ptr).None? && d == LowestFree(s.tables[0], 1)
    ensures Translate(s, 2, 0, Binder(ptr, 0, true), None, ENOUGH) ==
      (State(s.nodes[s.next := Given(ptr)], s.tables[0 := Put(s.tables[0], d, Ref(s.next, 1, 0))], None, s.next + 1),
       Some(Handle(d, true)))
  {
    var s0 := NewNode(s, 2, ptr, 0);
    NewNodeTables(s, 2, ptr, 0);
    forall e ensures !Holds(s0, 0, e, s.next) { assert !Holds(s, 0, e, s.next); }
    assert FindDesc(s0, 0, s.next).None?;
    TakeRefIs(s0, 0, s.next, true, None);
    assert s0.nodes[s.next].refs + {0} == {0};
    assert NodeAfter(s0, 0, s.next, true, None) == Given(ptr);
    assert s0.nodes[s.next := Given(ptr)] == s.nodes[s.next := Given(ptr)];
  }

  lemma SendsFirst()
    ensures Translate(NOTHING, 2, 0, Binder(16, 0, true), None, ENOUGH) == (ONE, Some(Handle(1, true)))
  {
    assert FindNode(NOTHING, 2, 16).None?;
    SendsNew(NOTHING, 16, 1);
    assert NOTHING.tables[0 := Put(NOTHING.tables[0], 1, Ref(0, 1, 0))] == ONE.tables;
  }

  lemma SendsSecond()
    ensures Translate(ONE, 2, 0, Binder(32, 0, true), None, ENOUGH) == (TWO, Some(Handle(2, true)))
  {
    assert FindNode(ONE, 2, 32).None?;
    OneTables();
    assert LowestFree(ONE.tables[0], 1) == 2;
    SendsNew(ONE, 32, 2);
    OneThenTwo();
  }

  lemma OneThenTwo()
    ensures ONE.tables[0 := Put(ONE.tables[0], 2, Ref(1, 1, 0))] == TWO.tables && ONE.nodes[1 := Given(32)] == TWO.nodes
  {
    assert Put(ONE.tables[0], 2, Ref(1, 1, 0)) == TWO.tables[0];
  }

  lemma OneTables()
    ensures Tables(ONE)
  {
    assert Holds(ONE, 0, 1, 0);
  }

  lemma TwoObjects(s: State, s1: State, s2: State, from: Pid, to: Pid, os: seq<Obj>, mems: seq<Memory>, r1: Obj, r2: Obj)
    requires |os| == |mems| == 2 && to in s.tables && to in s1.tables && to in s2.tables
    requires Translate(s, from, to, os[0], None, mems[0]) == (s1, Some(r1))
    requires Translate(s1, from, to, os[1], None, mems[1]) == (s2, Some(r2))
    ensures TranslateAll(s, from, to, os, None, mems) == (s2, [r1, r2])
  {
    assert os[1..][1..] == [] && mems[1..][1..] == [] && os[1..][0] == os[1] && mems[1..][0] == mems[1];
    assert TranslateAll(s2, from, to, os[1..][1..], None, mems[1..][1..]) == (s2, []);
    assert TranslateAll(s1, from, to, os[1..], None, mems[1..]) == (s2, [r2] + []);
    assert [r1] + ([r2] + []) == [r1, r2];
  }

  const OPENED: History := Start().(s := NOTHING, born := {0, 1, 2}, threads := map[9 := 2])
  const SENT: History := OPENED.(s := TWO, live := [Parcel(0, [Handle(1, true), Handle(2, true)])])

  lemma Opens() returns (h1: History, h2: History, h3: History)
    ensures StepsTo(Start(), BEGINNING[0], h1) && StepsTo(h1, BEGINNING[1], h2) && StepsTo(h2, BEGINNING[2], h3)
    ensures StepsTo(h3, BEGINNING[3], OPENED)
  {
    h1 := Step(Start(), OpenProc(0));
    h2 := Step(h1, OpenProc(1));
    h3 := Step(h2, OpenProc(2));
    assert h2.s.tables[2 := map[]] == NOTHING.tables;
  }

  lemma Sends()
    ensures StepsTo(OPENED, SEND, SENT)
  {
    SendsBoth();
  }

  lemma SendsBoth()
    ensures TranslateAll(NOTHING, 2, 0, [Binder(16, 0, true), Binder(32, 0, true)], None, [ENOUGH, ENOUGH]) ==
      (TWO, [Handle(1, true), Handle(2, true)])
  {
    SendsFirst();
    SendsSecond();
    TwoObjects(NOTHING, ONE, TWO, 2, 0, [Binder(16, 0, true), Binder(32, 0, true)], [ENOUGH, ENOUGH],
               Handle(1, true), Handle(2, true));
  }

  lemma TwoReached() returns (hs: seq<History>)
    ensures Run(hs, BEGINNING + [SEND]) && hs[5].s == TWO && Inv(TWO, {}) && Zero(TWO, None)
  {
    var h1, h2, h3 := Opens();
    Sends();
    hs := RefWitness.FiveSteps(h1, h2, h3, OPENED, SENT, BEGINNING, SEND);
    TwoInv(hs, BEGINNING + [SEND]);
  }

  lemma TwoInv(hs: seq<History>, ops: seq<Op>)
    requires Run(hs, ops) && |ops| == 5 && hs[5].s == TWO && hs[5].lost == {} && hs[5].ever == None
    ensures Inv(TWO, {}) && Zero(TWO, None)
  {
    EveryRun(hs, ops, 5);
  }

  // ---------------------------------------------------------------- one of them sent with its offset twice

  /** A strong handle object with descriptor 2. */
  const DATA: Bytes := Encode(TYPE_HANDLE, 4) + Encode(0, 4) + Encode(2, 4) + Encode(0, 12)

  lemma DataIs()
    ensures ObjAt(DATA, 0, true) == Handle(2, true)
  {
    Limits();
    assert DATA[0..4] == Encode(TYPE_HANDLE, 4) && DATA[8..12] == Encode(2, 4);
    DecodeEncode(TYPE_HANDLE, 4);
    DecodeEncode(2, 4);
  }

  /** The two turns at the level of objects: the receiver ends with its handle 2, which is the first object. */
  lemma BothTurns() returns (s1: State, s2: State)
    requires Inv(TWO, {}) && Zero(TWO, None)
    ensures 1 in s1.tables && 1 in s2.tables
    ensures (s1, Some(Handle(1, true))) == Translate(TWO, 0, 1, Handle(2, true), None, ENOUGH)
    ensures (s2, Some(Handle(2, true))) == Translate(s1, 0, 1, Handle(1, true), None, ENOUGH)
  {
    s1 := FirstTurn();
    TurnTables(TWO);
    s2 := SecondTurn(s1);
  }

  lemma FirstTurn() returns (s1: State)
    requires Tables(TWO)
    ensures s1 == TakeRef(TWO, 1, 1, true, None).0
    ensures (s1, Some(Handle(1, true))) == Translate(TWO, 0, 1, Handle(2, true), None, ENOUGH)
    ensures s1.mgr.None? && 0 in s1.tables && s1.tables[0] == TWO.tables[0] && 0 in s1.nodes
    ensures 1 in s1.tables && s1.tables[1] == map[1 := Ref(1, 1, 0)] && s1.nodes[0].owner == Some(2)
  {
    assert FindDesc(TWO, 1, 1).None?;
    TakeRefIs(TWO, 1, 1, true, None);
    s1 := TakeRef(TWO, 1, 1, true, None).0;
  }

  lemma TurnTables(s: State)
    requires Inv(s, {}) && Zero(s, None) && 1 in s.tables && 1 in s.nodes
    ensures Tables(TakeRef(s, 1, 1, true, None).0)
  {
    TakeRefCounts(s, 1, 1, true, None, {}, None);
  }

  lemma SecondTurn(s1: State) returns (s2: State)
    requires Tables(s1) && s1.mgr.None? && 0 in s1.tables && s1.tables[0] == TWO.tables[0] && 0 in s1.nodes
    requires 1 in s1.tables && s1.tables[1] == map[1 := Ref(1, 1, 0)] && s1.nodes[0].owner == Some(2)
    ensures (s2, Some(Handle(2, true))) == Translate(s1, 0, 1, Handle(1, true), None, ENOUGH) && 1 in s2.tables
  {
    assert FindDesc(s1, 1, 0).None?;
    TakeRefIs(s1, 1, 0, true, None);
    assert LowestFree(s1.tables[1], 1) == 2;
    s2 := TakeRef(s1, 1, 0, true, None).0;
  }

  /** From a state a run reaches: the walk goes through, and the receiver does not have what the sender sent. */
  lemma RepeatMisleads() returns (hs: seq<History>)
    ensures Run(hs, BEGINNING + [SEND]) && 1 in hs[5].s.tables
    ensures var (s2, data2, n) :=
        WalkBytes(hs[5].s, 0, 1, DATA, [0, 0], [true, true], [0, 0], None, [ENOUGH, ENOUGH], 0);
      && n == 2 && Denotes(s2, 0, ObjAt(DATA, 0, true)).Some? && Denotes(s2, 1, ObjAt(data2, 0, true)).Some?
      && Denotes(s2, 1, ObjAt(data2, 0, true)) != Denotes(s2, 0, ObjAt(DATA, 0, true))
  {
    hs := TwoReached();
    DataIs();
    var s1, s2 := BothTurns();
    NotShared();
    TwiceMisleads(hs[5].s, s1, s2, DATA);
  }

  lemma TwiceMisleads(s: State, s1: State, s2: State, data: Bytes)
    requires Inv(s, {}) && Zero(s, None) && 0 in s.tables && 1 in s.tables && 1 in s1.tables && 1 in s2.tables
    requires ObjAt(data, 0, true) == Handle(2, true) && !SharesName(s, 0, 1, Handle(2, true))
    requires (s1, Some(Handle(1, true))) == Translate(s, 0, 1, Handle(2, true), None, ENOUGH)
    requires (s2, Some(Handle(2, true))) == Translate(s1, 0, 1, Handle(1, true), None, ENOUGH)
    ensures var (s2, data2, n) := WalkBytes(s, 0, 1, data, [0, 0], [true, true], [0, 0], None, [ENOUGH, ENOUGH], 0);
      && n == 2 && Denotes(s2, 0, ObjAt(data, 0, true)).Some? && Denotes(s2, 1, ObjAt(data2, 0, true)).Some?
      && Denotes(s2, 1, ObjAt(data2, 0, true)) != Denotes(s2, 0, ObjAt(data, 0, true))
  {
    var data2 := RepeatedOffset(s, 0, 1, data, [0, 0], [true, true], [0, 0], None, [ENOUGH, ENOUGH], 0, s1,
                                Handle(1, true), s2, Handle(2, true), {}, None);
  }

  lemma NotShared()
    ensures !SharesName(TWO, 0, 1, Handle(2, true))
  {
    assert FindDesc(TWO, 1, 1).None?;
  }
}
