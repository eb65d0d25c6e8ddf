/**
One object and the calls made to it (kext/binder_txn.c:618-633, kext/binder_proc.c:480-511). A oneway call
goes to the owner's queue when none is in flight and behind the object otherwise; freeing a buffer of the
object lets the next one through. In every run the calls of each kind are delivered in the order they were sent, and a
call's buffer is held from its delivery until it is freed; there is at most one oneway call in flight as long as no buffer
of an ordinary call is freed meanwhile.
*/
module Oneway {
  datatype Call = Call(id: nat, oneway: bool)

  /**
  What concerns the object: has_async_transaction, async_todo, its calls on the owner's queue, its delivered
  and not yet freed buffers; and, as history, the calls sent to it, delivered from the queue, delivered past it, freed,
  and dropped with the object.
  */
  datatype State = State(
    hasAsync: bool, asyncTodo: seq<Call>, queue: seq<Call>, held: seq<Call>,
    sent: seq<Call>, delivered: seq<Call>, nested: seq<Call>, freed: multiset<Call>, dropped: seq<Call>, alive: bool)

  function Start(): State { State(false, [], [], [], [], [], [], multiset{}, [], true) }

  /** A call is sent; a nested call reaches the waiting thread without passing the queue; the head of the
      queue is delivered; a buffer is freed; the object itself is freed. */
  datatype Op = Send(c: Call) | Nested(id: nat) | Deliver | FreeBuffer(i: nat) | FreeNode

  predicate May(s: State, op: Op) {
    match op
    case Send(_) => s.alive
    case Nested(_) => s.alive
    case Deliver => s.queue != []
    case FreeBuffer(i) => s.alive && i < |s.held|
    case FreeNode => s.alive
  }

  function SendStep(s: State, c: Call): State {
    if !c.oneway then s.(queue := s.queue + [c], sent := s.sent + [c])
    else if s.hasAsync then s.(asyncTodo := s.asyncTodo + [c], sent := s.sent + [c])
    else s.(hasAsync := true, queue := s.queue + [c], sent := s.sent + [c])
  }

  function DeliverStep(s: State): State
    requires s.queue != []
  {
    var c := s.queue[0];
    s.(queue := s.queue[1..], held := s.held + [c], delivered := s.delivered + [c])
  }

  /** The guard asks whether a oneway call is in flight, not whether this buffer was one. */
  function FreeStep(s: State, i: nat): State
    requires i < |s.held|
  {
    var t := s.(held := s.held[..i] + s.held[i + 1..], freed := s.freed + multiset{s.held[i]});
    if !s.hasAsync then t
    else if s.asyncTodo != [] then t.(asyncTodo := s.asyncTodo[1..], queue := s.queue + [s.asyncTodo[0]])
    else t.(hasAsync := false)
  }

  function NestedStep(s: State, c: Call): State { s.(held := s.held + [c], nested := s.nested + [c]) }

  function Step(s: State, op: Op): State
    requires May(s, op)
  {
    match op
    case Send(c) => SendStep(s, c)
    case Nested(id) => NestedStep(s, Call(id, false))
    case Deliver => DeliverStep(s)
    case FreeBuffer(i) => FreeStep(s, i)
    case FreeNode => s.(alive := false, asyncTodo := [], dropped := s.dropped + s.asyncTodo)
  }

  // ---------------------------------------------------------------- order

  /** The calls of one kind, in order. */
  function Of(cs: seq<Call>, oneway: bool): seq<Call> {
    if cs == [] then [] else (if cs[0].oneway == oneway then [cs[0]] else []) + Of(cs[1..], oneway)
  }

  lemma {:induction false} OfConcat(a: seq<Call>, b: seq<Call>, oneway: bool)
    ensures Of(a + b, oneway) == Of(a, oneway) + Of(b, oneway)
    decreases |a|
  {
    if a == [] {
      assert a + b == b;
    } else {
      assert (a + b)[1..] == a[1..] + b;
      OfConcat(a[1..], b, oneway);
    }
  }

  lemma OfOne(c: Call, oneway: bool)
    ensures Of([c], oneway) == if c.oneway == oneway then [c] else []
  {
    assert [c][1..] == [];
  }

  lemma OfSnoc(cs: seq<Call>, c: Call, oneway: bool)
    ensures Of(cs + [c], oneway) == if c.oneway == oneway then Of(cs, oneway) + [c] else Of(cs, oneway)
  {
    OfConcat(cs, [c], oneway);
    OfOne(c, oneway);
  }

  function Oneways(cs: seq<Call>): seq<Call> { Of(cs, true) }

  ghost predicate AllOneway(cs: seq<Call>) { forall c | c in cs :: c.oneway }

  /** Every oneway call sent is delivered, queued, waiting or dropped with the object, in the order sent; every ordinary
      one is delivered or queued, in the order sent. */
  ghost predicate InOrder(s: State) {
    && Of(s.sent, true) == Of(s.delivered, true) + Of(s.queue, true) + s.asyncTodo + s.dropped
    && Of(s.sent, false) == Of(s.delivered, false) + Of(s.queue, false)
    && (s.dropped != [] ==> !s.alive)
  }

  /** The buffers held are those of the calls delivered, without those freed. */
  predicate Buffers(s: State) { multiset(s.held) + s.freed == multiset(s.delivered) + multiset(s.nested) }

  /** Nothing waits behind the object without something in flight to let it through. */
  ghost predicate Waits(s: State) {
    (s.asyncTodo != [] ==> s.hasAsync) && AllOneway(s.asyncTodo) && (!s.alive ==> s.asyncTodo == [])
  }

  lemma SendOrder(s: State, c: Call)
    requires InOrder(s) && Waits(s) && s.alive
    ensures InOrder(SendStep(s, c)) && Waits(SendStep(s, c))
  {
    OfSnoc(s.sent, c, true);
    OfSnoc(s.sent, c, false);
    OfSnoc(s.queue, c, true);
    OfSnoc(s.queue, c, false);
    var a := Of(s.delivered, c.oneway);
    if c.oneway && s.hasAsync {
      LastOf(a + Of(s.queue, true), s.asyncTodo, c);
    } else {
      LastOf(a, Of(s.queue, c.oneway), c);
    }
  }

  lemma LastOf(a: seq<Call>, b: seq<Call>, c: Call)
    ensures a + b + [c] == a + (b + [c])
    ensures a + b + [] == a + b && a + b + [] + [] == a + b && a + b + [c] + [] + [] == a + b + [c]
  {}

  /** The head of the queue goes to the end of what was delivered, for either kind. */
  lemma MoveHead(delivered: seq<Call>, queue: seq<Call>, oneway: bool)
    requires queue != []
    ensures Of(delivered + [queue[0]], oneway) + Of(queue[1..], oneway) == Of(delivered, oneway) + Of(queue, oneway)
  {
    var c := queue[0];
    assert queue == [c] + queue[1..];
    OfSnoc(delivered, c, oneway);
    if c.oneway == oneway {
      assert Of(delivered, oneway) + ([c] + Of(queue[1..], oneway)) == (Of(delivered, oneway) + [c]) + Of(queue[1..], oneway);
    }
  }

  lemma DeliverOrder(s: State)
    requires InOrder(s) && Waits(s) && s.queue != []
    ensures InOrder(DeliverStep(s)) && Waits(DeliverStep(s))
  {
    MoveHead(s.delivered, s.queue, true);
    MoveHead(s.delivered, s.queue, false);
  }

  lemma FreeOrder(s: State, i: nat)
    requires InOrder(s) && Waits(s) && s.alive && i < |s.held|
    ensures InOrder(FreeStep(s, i)) && Waits(FreeStep(s, i))
  {
    if s.hasAsync && s.asyncTodo != [] {
      var c := s.asyncTodo[0];
      assert c in s.asyncTodo;
      assert s.asyncTodo == [c] + s.asyncTodo[1..];
      OfSnoc(s.queue, c, true);
      OfSnoc(s.queue, c, false);
      assert Of(s.delivered, true) + Of(s.queue, true) + ([c] + s.asyncTodo[1..])
        == Of(s.delivered, true) + (Of(s.queue, true) + [c]) + s.asyncTodo[1..];
    }
  }

  lemma StepOrder(s: State, op: Op)
    requires InOrder(s) && Waits(s) && May(s, op)
    ensures InOrder(Step(s, op)) && Waits(Step(s, op))
  {
    match op
    case Send(c) => SendOrder(s, c);
    case Nested(_) =>
    case Deliver => DeliverOrder(s);
    case FreeBuffer(i) => FreeOrder(s, i);
    case FreeNode =>
  }

  lemma StepBuffers(s: State, op: Op)
    requires Buffers(s) && May(s, op)
    ensures Buffers(Step(s, op))
  {
    match op
    case Send(_) =>
    case Nested(id) => NestedBuffers(s, Call(id, false));
    case Deliver => DeliverBuffers(s);
    case FreeBuffer(i) => FreeBuffers(s, i);
    case FreeNode =>
  }

  lemma NestedBuffers(s: State, c: Call)
    requires Buffers(s)
    ensures Buffers(NestedStep(s, c))
  {
    OneMore(multiset(s.held), s.freed, multiset(s.delivered), multiset(s.nested), c);
  }

  lemma DeliverBuffers(s: State)
    requires Buffers(s) && s.queue != []
    ensures Buffers(DeliverStep(s))
  {
    OneMore(multiset(s.held), s.freed, multiset(s.delivered), multiset(s.nested), s.queue[0]);
  }

  lemma FreeBuffers(s: State, i: nat)
    requires Buffers(s) && i < |s.held|
    ensures Buffers(FreeStep(s, i))
  {
    var x, rest := s.held[i], s.held[..i] + s.held[i + 1..];
    assert s.held == s.held[..i] + ([x] + s.held[i + 1..]);
    assert multiset(s.held) == multiset(rest) + multiset{x};
    assert multiset(rest) + (s.freed + multiset{x}) == multiset(s.held) + s.freed;
  }

  lemma OneMore(held: multiset<Call>, freed: multiset<Call>, delivered: multiset<Call>, nested: multiset<Call>, c: Call)
    requires held + freed == delivered + nested
    ensures held + multiset{c} + freed == delivered + multiset{c} + nested == delivered + (nested + multiset{c})
  {
    assert held + multiset{c} + freed == held + freed + multiset{c};
  }

  // ---------------------------------------------------------------- one at a time

  /** Oneway calls on the queue or delivered and not yet freed. */
  function InFlight(s: State): nat { |Oneways(s.queue)| + |Oneways(s.held)| }

  /** At most one oneway call is in flight, and has_async_transaction says whether one is. */
  predicate OneAtATime(s: State) { InFlight(s) == if s.hasAsync then 1 else 0 }

  lemma HeldWithout(held: seq<Call>, i: nat)
    requires i < |held|
    ensures |Oneways(held)| == |Oneways(held[..i] + held[i + 1..])| + (if held[i].oneway then 1 else 0)
  {
    assert held == held[..i] + ([held[i]] + held[i + 1..]);
    OfConcat(held[..i], [held[i]] + held[i + 1..], true);
    OfConcat([held[i]], held[i + 1..], true);
    OfConcat(held[..i], held[i + 1..], true);
    OfOne(held[i], true);
  }

  /** Freeing a buffer keeps oneway calls one at a time if and only if it was a oneway call's or none is in flight. */
  lemma FreeKeepsOneIff(s: State, i: nat)
    requires OneAtATime(s) && Waits(s) && i < |s.held|
    ensures OneAtATime(FreeStep(s, i)) <==> s.held[i].oneway || !s.hasAsync
  {
    HeldWithout(s.held, i);
    if s.hasAsync && s.asyncTodo != [] {
      assert s.asyncTodo[0] in s.asyncTodo;
      OfSnoc(s.queue, s.asyncTodo[0], true);
    }
  }

  /** A step that frees no buffer of an ordinary call while a oneway call is in flight. */
  predicate Careful(s: State, op: Op) { op.FreeBuffer? && op.i < |s.held| ==> s.held[op.i].oneway || !s.hasAsync }

  lemma StepKeepsOne(s: State, op: Op)
    requires OneAtATime(s) && Waits(s) && May(s, op) && Careful(s, op)
    ensures OneAtATime(Step(s, op))
  {
    match op
    case Send(c) => OfSnoc(s.queue, c, true);
    case Nested(id) => OfSnoc(s.held, Call(id, false), true);
    case Deliver =>
      var c := s.queue[0];
      assert s.queue == [c] + s.queue[1..];
      OfConcat([c], s.queue[1..], true);
      OfOne(c, true);
      OfSnoc(s.held, c, true);
    case FreeBuffer(i) => FreeKeepsOneIff(s, i);
    case FreeNode =>
  }

  // ---------------------------------------------------------------- every run

  ghost predicate Run(ss: seq<State>, ops: seq<Op>) {
    && |ss| == |ops| + 1 && ss[0] == Start()
    && forall i | 0 <= i < |ops| :: May(ss[i], ops[i]) && ss[i + 1] == Step(ss[i], ops[i])
  }

  /** In every run the calls of each kind are delivered in the order sent, none twice, and none lost while the object
      lives; and the buffers held are those delivered and not freed. */
  lemma {:induction false} EveryRunInOrder(ss: seq<State>, ops: seq<Op>, i: nat)
    requires Run(ss, ops) && i < |ss|
    ensures InOrder(ss[i]) && Waits(ss[i]) && Buffers(ss[i])
    ensures forall k :: Of(ss[i].delivered, k) <= Of(ss[i].sent, k)
  {
    if i > 0 {
      EveryRunInOrder(ss, ops, i - 1);
      assert May(ss[i - 1], ops[i - 1]) && ss[i - 1 + 1] == Step(ss[i - 1], ops[i - 1]);
      StepOrder(ss[i - 1], ops[i - 1]);
      StepBuffers(ss[i - 1], ops[i - 1]);
    }
    Prefixes(ss[i]);
  }

  lemma Prefixes(s: State)
    requires InOrder(s)
    ensures forall k :: Of(s.delivered, k) <= Of(s.sent, k)
  {
    assert Of(s.delivered, true) <= Of(s.sent, true) && Of(s.delivered, false) <= Of(s.sent, false);
  }

  /** In every careful run, oneway calls go one at a time. */
  lemma {:induction false} EveryRunOneAtATime(ss: seq<State>, ops: seq<Op>, i: nat)
    requires Run(ss, ops) && i < |ss| && forall j | 0 <= j < i :: Careful(ss[j], ops[j])
    ensures OneAtATime(ss[i])
  {
    if i > 0 {
      EveryRunOneAtATime(ss, ops, i - 1);
      EveryRunInOrder(ss, ops, i - 1);
      StepKeepsOne(ss[i - 1], ops[i - 1]);
      assert ss[i - 1 + 1] == Step(ss[i - 1], ops[i - 1]);
    }
  }

  lemma StepOnlyOneway(s: State, op: Op)
    requires May(s, op) && AllOneway(s.queue) && AllOneway(s.held) && AllOneway(s.asyncTodo)
    requires !op.Nested? && (op.Send? ==> op.c.oneway)
    ensures AllOneway(Step(s, op).queue) && AllOneway(Step(s, op).held)
  {
    if op.Deliver? { assert s.queue[0] in s.queue; }
    if op.FreeBuffer? && s.asyncTodo != [] { assert s.asyncTodo[0] in s.asyncTodo; }
  }

  /** An object that gets only oneway calls cannot but be handled carefully. */
  lemma {:induction false} OnlyOneway(ss: seq<State>, ops: seq<Op>, i: nat)
    requires Run(ss, ops) && i < |ss|
    requires forall j | 0 <= j < i :: !ops[j].Nested? && (ops[j].Send? ==> ops[j].c.oneway)
    ensures AllOneway(ss[i].queue) && AllOneway(ss[i].held) && OneAtATime(ss[i])
  {
    if i > 0 {
      OnlyOneway(ss, ops, i - 1);
      EveryRunInOrder(ss, ops, i - 1);
      assert May(ss[i - 1], ops[i - 1]) && ss[i - 1 + 1] == Step(ss[i - 1], ops[i - 1]);
      StepOnlyOne(ss[i - 1], ops[i - 1]);
    }
  }

  lemma StepOnlyOne(s: State, op: Op)
    requires May(s, op) && AllOneway(s.queue) && AllOneway(s.held) && OneAtATime(s) && Waits(s)
    requires !op.Nested? && (op.Send? ==> op.c.oneway)
    ensures AllOneway(Step(s, op).queue) && AllOneway(Step(s, op).held) && OneAtATime(Step(s, op))
  {
    StepOnlyOneway(s, op);
    if op.FreeBuffer? { assert s.held[op.i] in s.held; }
    StepKeepsOne(s, op);
  }

  /** Otherwise it can fail: freeing an ordinary call's buffer lets a second oneway call into flight. */
  lemma TwoInFlight()
    ensures exists ss: seq<State>, ops: seq<Op> :: Run(ss, ops) && InFlight(ss[|ss| - 1]) == 2
  {
    var a, b := Call(1, true), Call(2, true);
    var s0 := Start();
    var s1 := Step(s0, Nested(0));
    var s2 := Step(s1, Send(a));
    var s3 := Step(s2, Send(b));
    var s4 := Step(s3, FreeBuffer(0));
    assert s3.asyncTodo == [b] && s3.queue == [a] && s3.held == [Call(0, false)];
    assert s4.queue == [a] + [b] && s4.held == [];
    OfConcat([a], [b], true);
    OfOne(a, true);
    OfOne(b, true);
    var ss, ops := [s0, s1, s2, s3, s4], [Nested(0), Send(a), Send(b), FreeBuffer(0)];
    assert Run(ss, ops) && InFlight(ss[|ss| - 1]) == 2;
  }

  // ---------------------------------------------------------------- the code

  /** The object and its owner's queue, updated in place. */
  class Target {
    var hasAsync: bool
    var asyncTodo: seq<Call>
    var queue: seq<Call>
    var held: seq<Call>
    ghost var sent: seq<Call>
    ghost var delivered: seq<Call>
    ghost var nested: seq<Call>
    ghost var freed: multiset<Call>
    ghost var dropped: seq<Call>
    ghost var alive: bool

    ghost function Abs(): State
      reads this
    {
      State(hasAsync, asyncTodo, queue, held, sent, delivered, nested, freed, dropped, alive)
    }

    /** The end of binder_transaction for a call that is not nested. */
    method Enqueue(c: Call)
      modifies this
      ensures Abs() == SendStep(old(Abs()), c)
    {
      if c.oneway {
        if hasAsync {
          asyncTodo := asyncTodo + [c];
        } else {
          hasAsync := true;
          queue := queue + [c];
        }
      } else {
        queue := queue + [c];
      }
      sent := sent + [c];
    }

    /** binder_read_transaction for the first call on the owner's queue. */
    method Read() returns (c: Call)
      requires queue != []
      modifies this
      ensures c == old(queue)[0] && Abs() == DeliverStep(old(Abs()))
    {
      c := queue[0];
      queue := queue[1..];
      held := held + [c];
      delivered := delivered + [c];
    }

    /** binder_write_free_buffer. */
    method FreeBuffer(i: nat)
      requires i < |held|
      modifies this
      ensures Abs() == FreeStep(old(Abs()), i)
    {
      freed := freed + multiset{held[i]};
      held := held[..i] + held[i + 1..];
      if hasAsync {
        if asyncTodo != [] {
          var next := asyncTodo[0];
          asyncTodo := asyncTodo[1..];
          queue := queue + [next];
        } else {
          hasAsync := false;
        }
      }
    }
  }
}
