/**
A run that ends with a caller told nothing: thread 10 of process 0 calls process 1, thread 20 of process 1 takes the
call and calls back, and process 0 closes before thread 10 has read the call (kext/binder_proc.c:247-267).
*/
module CallBack {
  import opened Common
  import opened CallStacks
  import opened CallInvariant
  import opened CallTheorems

  const PROCS: set<Pid> := {0, 1}
  const OPS := [OpCall(10, 1), OpDeliver(20, 0), OpCall(20, 0), OpClose(0)]

  function Before(): State {
    State(PROCS, map[10 := Thread(0, None, None), 20 := Thread(1, None, None)], map[], 0)
  }

  function Called(): State {
    State(PROCS, map[10 := Thread(0, Some(0), None), 20 := Thread(1, None, None)],
          map[0 := Txn(Some(10), None, 1, None, None, true, Some(ProcQueue(1)))], 1)
  }

  function Taken(): State {
    State(PROCS, map[10 := Thread(0, Some(0), None), 20 := Thread(1, Some(0), None)],
          map[0 := Txn(Some(10), None, 1, Some(20), None, true, None)], 1)
  }

  function CalledBack(): State {
    State(PROCS, map[10 := Thread(0, Some(0), None), 20 := Thread(1, Some(1), None)],
          map[0 := Txn(Some(10), None, 1, Some(20), None, true, None),
              1 := Txn(Some(20), Some(0), 0, Some(10), None, true, Some(ThreadQueue(10)))], 2)
  }

  lemma CallIs()
    ensures Call(Before(), 10, 1) == Called()
  {
    assert Call(Before(), 10, 1).threads == Called().threads;
  }

  lemma DeliverIs()
    ensures Deliver(Called(), 20, 0) == Taken()
  {
    assert Deliver(Called(), 20, 0).threads == Taken().threads;
    assert Deliver(Called(), 20, 0).txns == Taken().txns;
  }

  lemma CallBackIs()
    ensures Linked(Taken().txns) && Call(Taken(), 20, 0) == CalledBack()
  {
    assert TargetThread(Taken(), Some(0), 0) == Some(10);
    assert Call(Taken(), 20, 0).threads == CalledBack().threads;
    assert Call(Taken(), 20, 0).txns == CalledBack().txns;
  }

  lemma FirstCall(h: History) returns (h': History)
    requires Good(h) && h.s == Before()
    ensures StepsTo(h, OPS[0], h') && Good(h') && h'.s == Called() && h'.answered == h.answered
  {
    h' := HStep(h, OPS[0]);
    StepGood(h, OPS[0]);
    CallIs();
  }

  lemma FirstDelivery(h: History) returns (h': History)
    requires Good(h) && h.s == Called()
    ensures StepsTo(h, OPS[1], h') && Good(h') && h'.s == Taken() && h'.answered == h.answered
  {
    h' := HStep(h, OPS[1]);
    StepGood(h, OPS[1]);
    DeliverIs();
  }

  lemma FirstCallBack(h: History) returns (h': History)
    requires Good(h) && h.s == Taken()
    ensures StepsTo(h, OPS[2], h') && Good(h') && h'.s == CalledBack() && h'.answered == h.answered
  {
    h' := HStep(h, OPS[2]);
    StepGood(h, OPS[2]);
    CallBackIs();
  }

  /** The caller ends with no error and no answer, and back on the call it was serving. */
  lemma CallBackUnanswered() returns (hs: seq<History>)
    ensures Run(hs, OPS) && hs[0].s == Before()
    ensures 1 !in hs[4].answered && 1 !in hs[4].s.txns
    ensures 20 in hs[4].s.threads && hs[4].s.threads[20] == Thread(1, Some(0), None)
  {
    var h0 := History(Before(), map[], map[], map[], {});
    IdleGood(h0);
    var h1 := FirstCall(h0);
    var h2 := FirstDelivery(h1);
    var h3 := FirstCallBack(h2);
    var h4 := LastClose(h3);
    hs := FourSteps(h0, h1, h2, h3, h4, OPS);
  }

  lemma FourSteps(h0: History, h1: History, h2: History, h3: History, h4: History, ops: seq<Op>)
    returns (hs: seq<History>)
    requires |ops| == 4 && Idle(h0) && StepsTo(h0, ops[0], h1) && StepsTo(h1, ops[1], h2)
    requires StepsTo(h2, ops[2], h3) && StepsTo(h3, ops[3], h4)
    ensures Run(hs, ops) && hs[0] == h0 && hs[4] == h4
  {
    hs := [h0, h1, h2, h3, h4];
  }

  lemma LastClose(h: History) returns (h': History)
    requires Good(h) && h.s == CalledBack() && h.answered == {}
    ensures StepsTo(h, OPS[3], h') && 1 !in h'.answered && 1 !in h'.s.txns
    ensures 20 in h'.s.threads && h'.s.threads[20] == Thread(1, Some(0), None)
  {
    h' := HStep(h, OPS[3]);
    CloseAnswersIff(h, 0, 1);
    ClosePops(h, 0, 1);
    NoOtherCall();
    CloseTellsIff(h, 0, 20);
  }

  lemma NoOtherCall()
    ensures !CallsOpenly(CalledBack(), 20, 0)
  {}
}
