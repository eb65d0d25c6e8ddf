/**
Death notifications (kext/binder_node.c:249-268, 410-416, 514-579, kext/binder_proc.c:246-266, 357-384, 972-994). A
registration is a record hung on a handle; it is queued when the object dies, changes meaning when it is cleared,
and is freed when the clear has been read or the handle is deleted. A thread that exits, or a process that closes,
takes the records off its queue and does nothing else with them. Over every run what is emitted for a registration
is nothing, a death, a clear, or a death and then a clear, and a registration gets all it is owed if and only if no
exit took its record off a queue.
*/
module Death {
  import opened Common

  type RefId = nat
  type RegId = nat

  /** The work type of a record, and the queue it is on. */
  datatype Kind = Dead | DeadAndClear | Clear
  datatype Record = Record(kind: Kind, at: Option<Queue>)

  datatype Handle = Handle(node: NodeId, holder: Pid, death: Option<RegId>)

  datatype Event = DeadBinder | ClearDone

  /** What has become of a registration: its object and holder, whether it was cleared and whether that was after the
      object's death, what was emitted for it, and what was still to be emitted when an exit took its record off a queue. */
  datatype Story = Story(node: NodeId, holder: Pid, cleared: bool, diedFirst: bool, log: seq<Event>, lost: seq<Event>)

  /** Handles, records and threads are the driver's; stories cover every registration there has been. */
  datatype State = State(refs: map<RefId, Handle>, recs: map<RegId, Record>, threads: map<Tid, Pid>,
                         dead: set<NodeId>, stories: map<RegId, Story>)

  function Start(): State { State(map[], map[], map[], {}, map[]) }

  datatype Op =
    | NewThread(t: Tid, p: Pid)
    | NewRef(f: RefId, n: NodeId, p: Pid)
    | Request(f: RefId, r: RegId, t: Tid)
    | ClearIt(f: RefId, t: Tid)
    | Die(n: NodeId)
    | Read(r: RegId, t: Tid)
    | DeleteRef(f: RefId)
    | Exit(t: Tid)
    | Drain(p: Pid)

  /** A thread of the handle's holder. */
  predicate Holds(s: State, t: Tid, f: RefId) { f in s.refs && t in s.threads && s.threads[t] == s.refs[f].holder }

  /** The queues thread `t` reads from. */
  predicate Reads(s: State, t: Tid, q: Queue) { t in s.threads && (q == ThreadQueue(t) || q == ProcQueue(s.threads[t])) }

  ghost predicate May(s: State, op: Op) {
    match op
    case NewThread(t, _) => t !in s.threads
    case NewRef(f, _, _) => f !in s.refs
    case Request(f, r, t) => Holds(s, t, f) && s.refs[f].death.None? && r !in s.stories
    case ClearIt(f, t) => Holds(s, t, f) && s.refs[f].death.Some? && s.refs[f].death.value in s.recs
                          && s.refs[f].death.value in s.stories
    case Die(n) => n !in s.dead
    case Read(r, t) => r in s.recs && r in s.stories && s.recs[r].at.Some? && Reads(s, t, s.recs[r].at.value)
    case DeleteRef(f) => f in s.refs
    case Exit(t) => t in s.threads
    case Drain(_) => true
  }

  // ---------------------------------------------------------------- steps

  function RequestStep(s: State, f: RefId, r: RegId, t: Tid): State
    requires f in s.refs
  {
    var h := s.refs[f];
    s.(refs := s.refs[f := h.(death := Some(r))],
       recs := s.recs[r := Record(Dead, if h.node in s.dead then Some(ThreadQueue(t)) else None)],
       stories := s.stories[r := Story(h.node, h.holder, false, false, [], [])])
  }

  function ClearStep(s: State, f: RefId, t: Tid): State
    requires f in s.refs && s.refs[f].death.Some? && s.refs[f].death.value in s.recs && s.refs[f].death.value in s.stories
  {
    var r := s.refs[f].death.value;
    s.(refs := s.refs[f := s.refs[f].(death := None)],
       recs := s.recs[r := if s.recs[r].at.Some? then s.recs[r].(kind := DeadAndClear) else Record(Clear, Some(ThreadQueue(t)))],
       stories := s.stories[r := s.stories[r].(cleared := true, diedFirst := s.stories[r].node in s.dead)])
  }

  /** `r` is the notification of handle `f` on `n` and is not queued yet. */
  predicate Due(s: State, n: NodeId, r: RegId, f: RefId) {
    r in s.recs && s.recs[r].at.None? && f in s.refs && s.refs[f].node == n && s.refs[f].death == Some(r)
  }

  ghost function OnDeath(s: State, n: NodeId, r: RegId): Record
    requires r in s.recs
  {
    if exists f :: Due(s, n, r, f) then
      var f :| Due(s, n, r, f);
      Record(Dead, Some(ProcQueue(s.refs[f].holder)))
    else s.recs[r]
  }

  ghost function DieStep(s: State, n: NodeId): State {
    s.(dead := s.dead + {n}, recs := map r | r in s.recs :: OnDeath(s, n, r))
  }

  function ReadStep(s: State, r: RegId, t: Tid): State
    requires r in s.recs && r in s.stories
  {
    match s.recs[r].kind
    case Dead => s.(recs := s.recs[r := Record(Dead, None)], stories := Emit(s.stories, r, DeadBinder))
    case DeadAndClear =>
      s.(recs := s.recs[r := Record(Clear, Some(ThreadQueue(t)))], stories := Emit(s.stories, r, DeadBinder))
    case Clear => s.(recs := s.recs - {r}, stories := Emit(s.stories, r, ClearDone))
  }

  function Emit(stories: map<RegId, Story>, r: RegId, e: Event): map<RegId, Story>
    requires r in stories
  {
    stories[r := stories[r].(log := stories[r].log + [e])]
  }

  function DeleteStep(s: State, f: RefId): State
    requires f in s.refs
  {
    s.(refs := s.refs - {f}, recs := if s.refs[f].death.Some? then s.recs - {s.refs[f].death.value} else s.recs)
  }

  predicate On(s: State, q: Queue, r: RegId) { r in s.recs && s.recs[r].at == Some(q) }

  /** What is still to be read for a record. */
  function Pending(rec: Record): seq<Event> {
    if rec.at.None? then []
    else match rec.kind
      case Dead => [DeadBinder]
      case DeadAndClear => [DeadBinder, ClearDone]
      case Clear => [ClearDone]
  }

  function Loses(st: Story, rec: Record): Story { st.(lost := st.lost + Pending(rec)) }

  /** Every record on the queue is taken off it. */
  function Unqueue(s: State, q: Queue): State {
    s.(recs := map r | r in s.recs :: if On(s, q, r) then s.recs[r].(at := None) else s.recs[r],
       stories := map r | r in s.stories :: if On(s, q, r) then Loses(s.stories[r], s.recs[r]) else s.stories[r])
  }

  function ExitStep(s: State, t: Tid): State { Unqueue(s, ThreadQueue(t)).(threads := s.threads - {t}) }

  ghost function Step(s: State, op: Op): State
    requires May(s, op)
  {
    match op
    case NewThread(t, p) => s.(threads := s.threads[t := p])
    case NewRef(f, n, p) => s.(refs := s.refs[f := Handle(n, p, None)])
    case Request(f, r, t) => RequestStep(s, f, r, t)
    case ClearIt(f, t) => ClearStep(s, f, t)
    case Die(n) => DieStep(s, n)
    case Read(r, t) => ReadStep(s, r, t)
    case DeleteRef(f) => DeleteStep(s, f)
    case Exit(t) => ExitStep(s, t)
    case Drain(p) => Unqueue(s, ProcQueue(p))
  }

  // ---------------------------------------------------------------- what every state keeps

  /** A handle's record is its own, of its own object and holder, and not cleared. */
  ghost predicate Hung(s: State) {
    && (forall f | f in s.refs && s.refs[f].death.Some? ::
          var r := s.refs[f].death.value;
          r in s.recs && r in s.stories && !s.stories[r].cleared
          && s.stories[r].node == s.refs[f].node && s.stories[r].holder == s.refs[f].holder)
    && (forall f, g | f in s.refs && g in s.refs && s.refs[f].death.Some? && s.refs[f].death == s.refs[g].death :: f == g)
  }

  /** An uncleared record has a handle, and a queued one is where its holder reads. */
  ghost predicate Kept(s: State) {
    && (forall r | r in s.recs :: r in s.stories)
    && (forall r | r in s.recs && !s.stories[r].cleared :: exists f :: f in s.refs && s.refs[f].death == Some(r))
    && (forall r | r in s.recs && s.recs[r].at.Some? :: AtHome(s, s.recs[r].at.value, s.stories[r].holder))
  }

  predicate AtHome(s: State, q: Queue, holder: Pid) {
    match q
    case ProcQueue(p) => p == holder
    case ThreadQueue(t) => t in s.threads && s.threads[t] == holder
  }

  /** The object died before the registration was cleared, if it was. */
  predicate Died(st: Story, dead: set<NodeId>) { if st.cleared then st.diedFirst else st.node in dead }

  /** A registration that is not cleared: quiet while the object lives, then told of its death once, or not at all. */
  predicate Waiting(rec: Record, st: Story, dead: set<NodeId>) {
    && rec.kind == Dead
    && if !Died(st, dead) then rec.at.None? && st.log == [] && st.lost == []
       else if rec.at.Some? then st.log == [] && st.lost == []
       else (st.log == [DeadBinder] && st.lost == []) || (st.log == [] && st.lost == [DeadBinder])
  }

  function If(c: bool, e: Event): seq<Event> { if c then [e] else [] }

  /** A cleared one: the answer is on its way or was lost, after the death if that was on its way before. */
  predicate Answering(rec: Record, st: Story) {
    match rec.kind
    case Dead => false
    case DeadAndClear =>
      st.diedFirst && st.log == [] && st.lost == if rec.at.Some? then [] else [DeadBinder, ClearDone]
    case Clear =>
      || (st.log == If(st.diedFirst, DeadBinder) && st.lost == If(rec.at.None?, ClearDone))
      || (st.diedFirst && st.log == [] && st.lost == [DeadBinder] + If(rec.at.None?, ClearDone))
  }

  /** One whose record is gone: answered if it was cleared, and otherwise gone with its handle. */
  predicate Over(st: Story, dead: set<NodeId>) {
    if st.cleared then
      || (st.log == If(st.diedFirst, DeadBinder) + [ClearDone] && st.lost == [])
      || (st.diedFirst && st.log == [ClearDone] && st.lost == [DeadBinder])
    else
      || (st.log == [] && st.lost == [])
      || (Died(st, dead) && ((st.log == [DeadBinder] && st.lost == []) || (st.log == [] && st.lost == [DeadBinder])))
  }

  predicate Fits(s: State, r: RegId)
    requires r in s.stories
  {
    && (s.stories[r].diedFirst ==> s.stories[r].node in s.dead)
    && if r !in s.recs then Over(s.stories[r], s.dead)
       else if s.stories[r].cleared then Answering(s.recs[r], s.stories[r])
       else Waiting(s.recs[r], s.stories[r], s.dead)
  }

  ghost predicate Inv(s: State) { Hung(s) && Kept(s) && forall r | r in s.stories :: Fits(s, r) }

  lemma RequestInv(s: State, f: RefId, r: RegId, t: Tid)
    requires Inv(s) && May(s, Request(f, r, t))
    ensures Inv(RequestStep(s, f, r, t))
  {
    var s' := RequestStep(s, f, r, t);
    assert r !in s.recs;
    assert s'.refs[f].death == Some(r);
    forall q | q in s'.recs && !s'.stories[q].cleared ensures exists g :: g in s'.refs && s'.refs[g].death == Some(q) {
      if q != r {
        var g :| g in s.refs && s.refs[g].death == Some(q);
        assert s'.refs[g].death == Some(q);
      }
    }
    forall q | q in s'.stories ensures Fits(s', q) { if q != r { assert Fits(s, q); } }
  }

  lemma ClearInv(s: State, f: RefId, t: Tid)
    requires Inv(s) && May(s, ClearIt(f, t))
    ensures Inv(ClearStep(s, f, t))
  {
    var s' := ClearStep(s, f, t);
    forall q | q in s'.recs && !s'.stories[q].cleared ensures exists g :: g in s'.refs && s'.refs[g].death == Some(q) {
      var g :| g in s.refs && s.refs[g].death == Some(q);
      assert s'.refs[g].death == Some(q);
    }
    forall q | q in s'.stories ensures Fits(s', q) { assert Fits(s, q); }
  }

  /** A death queues the notice of every registration on the object that stands, for the process that holds the
      handle, and of no other. */
  lemma DeathQueuesEach(s: State, n: NodeId, r: RegId)
    requires Inv(s) && n !in s.dead && r in s.recs
    ensures var st := s.stories[r];
      if !st.cleared && st.node == n
      then s.recs[r] == Record(Dead, None) && DieStep(s, n).recs[r] == Record(Dead, Some(ProcQueue(st.holder)))
      else DieStep(s, n).recs[r] == s.recs[r]
  {
    assert Fits(s, r);
    if !s.stories[r].cleared && s.stories[r].node == n {
      var f :| f in s.refs && s.refs[f].death == Some(r);
      assert Due(s, n, r, f);
    }
  }

  lemma DieInv(s: State, n: NodeId)
    requires Inv(s) && n !in s.dead
    ensures Inv(DieStep(s, n))
  {
    var s' := DieStep(s, n);
    forall r | r in s.recs
      ensures s'.recs[r].at.Some? ==> AtHome(s', s'.recs[r].at.value, s'.stories[r].holder)
    {
      DeathQueuesEach(s, n, r);
    }
    forall r | r in s.stories ensures Fits(s', r) {
      assert Fits(s, r);
      if r in s.recs { DeathQueuesEach(s, n, r); }
    }
  }

  lemma ReadInv(s: State, r: RegId, t: Tid)
    requires Inv(s) && May(s, Read(r, t))
    ensures Inv(ReadStep(s, r, t))
  {
    var s' := ReadStep(s, r, t);
    assert Fits(s, r);
    assert s.recs[r].kind == Clear ==> s.stories[r].cleared;
    forall q | q in s'.stories ensures Fits(s', q) { assert Fits(s, q); }
  }

  lemma DeleteInv(s: State, f: RefId)
    requires Inv(s) && f in s.refs
    ensures Inv(DeleteStep(s, f))
  {
    var s' := DeleteStep(s, f);
    forall q | q in s'.recs && !s'.stories[q].cleared ensures exists g :: g in s'.refs && s'.refs[g].death == Some(q) {
      var g :| g in s.refs && s.refs[g].death == Some(q);
      assert g in s'.refs;
    }
    forall q | q in s'.stories ensures Fits(s', q) { assert Fits(s, q); }
  }

  lemma UnqueueInv(s: State, q: Queue)
    requires Inv(s)
    ensures Inv(Unqueue(s, q)) && forall r: RegId :: !On(Unqueue(s, q), q, r)
  {
    UnqueueHung(s, q);
    UnqueueKept(s, q);
    forall r | r in s.stories ensures Fits(Unqueue(s, q), r) { UnqueueFits(s, q, r); }
  }

  lemma UnqueueHung(s: State, q: Queue)
    requires Hung(s)
    ensures Hung(Unqueue(s, q))
  {}

  lemma UnqueueKept(s: State, q: Queue)
    requires Kept(s)
    ensures Kept(Unqueue(s, q))
  {
    var s' := Unqueue(s, q);
    forall r | r in s'.recs && !s'.stories[r].cleared ensures exists g :: g in s'.refs && s'.refs[g].death == Some(r) {
      var g :| g in s.refs && s.refs[g].death == Some(r);
      assert s'.refs[g].death == Some(r);
    }
  }

  lemma UnqueueFits(s: State, q: Queue, r: RegId)
    requires r in s.stories && Fits(s, r)
    ensures Fits(Unqueue(s, q), r)
  {
  }

  lemma NewRefInv(s: State, f: RefId, n: NodeId, p: Pid)
    requires Inv(s) && f !in s.refs
    ensures Inv(s.(refs := s.refs[f := Handle(n, p, None)]))
  {
    var s' := s.(refs := s.refs[f := Handle(n, p, None)]);
    forall q | q in s'.recs && !s'.stories[q].cleared ensures exists g :: g in s'.refs && s'.refs[g].death == Some(q) {
      var g :| g in s.refs && s.refs[g].death == Some(q);
      assert s'.refs[g].death == Some(q);
    }
    forall q | q in s'.stories ensures Fits(s', q) { assert Fits(s, q); }
  }

  /** The threads matter only to the records on their queues. */
  lemma ThreadsInv(s: State, threads: map<Tid, Pid>)
    requires Inv(s)
    requires forall r, t | On(s, ThreadQueue(t), r) && t in s.threads :: t in threads && threads[t] == s.threads[t]
    ensures Inv(s.(threads := threads))
  {
    var s' := s.(threads := threads);
    forall r | r in s'.recs && !s'.stories[r].cleared ensures exists g :: g in s'.refs && s'.refs[g].death == Some(r) {
      var g :| g in s.refs && s.refs[g].death == Some(r);
      assert s'.refs[g].death == Some(r);
    }
    forall r | r in s.recs && s.recs[r].at.Some? ensures AtHome(s', s.recs[r].at.value, s.stories[r].holder) {
      if s.recs[r].at.value.ThreadQueue? { assert On(s, ThreadQueue(s.recs[r].at.value.tid), r); }
    }
    forall r | r in s'.stories ensures Fits(s', r) { assert Fits(s, r); }
  }

  lemma StepInv(s: State, op: Op)
    requires Inv(s) && May(s, op)
    ensures Inv(Step(s, op))
  {
    match op
    case NewThread(t, p) => ThreadsInv(s, s.threads[t := p]);
    case NewRef(f, n, p) => NewRefInv(s, f, n, p);
    case Request(f, r, t) => RequestInv(s, f, r, t);
    case ClearIt(f, t) => ClearInv(s, f, t);
    case Die(n) => DieInv(s, n);
    case Read(r, t) => ReadInv(s, r, t);
    case DeleteRef(f) => DeleteInv(s, f);
    case Exit(t) =>
      UnqueueInv(s, ThreadQueue(t));
      ThreadsInv(Unqueue(s, ThreadQueue(t)), s.threads - {t});
    case Drain(p) => UnqueueInv(s, ProcQueue(p));
  }

  // ---------------------------------------------------------------- every run

  ghost predicate Run(ss: seq<State>, ops: seq<Op>) {
    |ss| == |ops| + 1 && ss[0] == Start() && forall i | 0 <= i < |ops| :: StepsTo(ss[i], ops[i], ss[i + 1])
  }

  ghost predicate StepsTo(s: State, op: Op, s': State) { May(s, op) && s' == Step(s, op) }

  lemma {:induction false} EveryRun(ss: seq<State>, ops: seq<Op>, i: nat)
    requires Run(ss, ops) && i < |ss|
    ensures Inv(ss[i])
  {
    if i > 0 {
      EveryRun(ss, ops, i - 1);
      assert StepsTo(ss[i - 1], ops[i - 1], ss[i - 1 + 1]);
      StepInv(ss[i - 1], ops[i - 1]);
    }
  }

  /** What an owner of a registration can have read, in every run: a death at most once and only of a dead object, a
      clear at most once and only of a cleared one, and nothing after it. */
  lemma LogsAre(ss: seq<State>, ops: seq<Op>, i: nat, r: RegId)
    requires Run(ss, ops) && i < |ss| && r in ss[i].stories
    ensures var st := ss[i].stories[r];
      && (st.log == [] || st.log == [DeadBinder] || st.log == [ClearDone] || st.log == [DeadBinder, ClearDone])
      && (DeadBinder in st.log ==> st.node in ss[i].dead)
      && (ClearDone in st.log ==> st.cleared)
  {
    EveryRun(ss, ops, i);
    assert Fits(ss[i], r);
  }

  // ---------------------------------------------------------------- what an exit can lose

  /** What a registration is owed: a death if the object died before a clear, and an answer if it was cleared. */
  function Owed(st: Story, dead: set<NodeId>): seq<Event> {
    If(Died(st, dead), DeadBinder) + If(st.cleared, ClearDone)
  }

  /** What was emitted for a registration and what is pending are all it is owed, each once and in this order. */
  predicate GetsAll(s: State, r: RegId)
    requires r in s.recs && r in s.stories
  {
    s.stories[r].log + Pending(s.recs[r]) == Owed(s.stories[r], s.dead)
  }

  /** In every run that is so of exactly the registrations that no exit has lost. */
  lemma GetsAllIff(ss: seq<State>, ops: seq<Op>, i: nat, r: RegId)
    requires Run(ss, ops) && i < |ss| && r in ss[i].recs
    ensures r in ss[i].stories && (GetsAll(ss[i], r) <==> ss[i].stories[r].lost == [])
  {
    EveryRun(ss, ops, i);
    LostIs(ss[i], r);
  }

  lemma LostIs(s: State, r: RegId)
    requires Inv(s) && r in s.recs
    ensures GetsAll(s, r) <==> s.stories[r].lost == []
  {
    assert Fits(s, r);
    Concatenations(s.stories[r].log, Pending(s.recs[r]));
  }

  lemma Concatenations(log: seq<Event>, rest: seq<Event>)
    ensures log + [] == log && [] + rest == rest && [DeadBinder] + [ClearDone] == [DeadBinder, ClearDone]
  {
  }

  /** Before the call: an exit keeps what a registration is owed if and only if the record is on another queue. */
  lemma ExitKeepsIff(s: State, q: Queue, r: RegId)
    requires Inv(s) && r in s.recs
    ensures GetsAll(Unqueue(s, q), r) <==> GetsAll(s, r) && !On(s, q, r)
  {
    UnqueueInv(s, q);
    LostIs(s, r);
    LostIs(Unqueue(s, q), r);
    assert Fits(s, r);
  }

  /** The answer is there once unless it was lost; the death is there if it came first, unless it was lost. */
  predicate Answered(st: Story, all: seq<Event>) {
    && (all == If(st.diedFirst, DeadBinder) + [ClearDone] <==> st.lost == [])
    && multiset(all)[ClearDone] == (if ClearDone in st.lost then 0 else 1)
    && multiset(all)[DeadBinder] == (if st.diedFirst && DeadBinder !in st.lost then 1 else 0)
  }

  lemma AnsweringIs(rec: Record, st: Story)
    requires Answering(rec, st)
    ensures Answered(st, st.log + Pending(rec))
  {
    Concatenations(st.log, Pending(rec));
  }

  lemma OverIs(st: Story, dead: set<NodeId>)
    requires Over(st, dead) && st.cleared
    ensures Answered(st, st.log)
  {}

  /** In every run a cleared registration is answered, once, unless an exit took the answer; and it hears of the object's
      death first if and only if that came before the clear, unless an exit took the notice. */
  lemma ClearIsAnswered(ss: seq<State>, ops: seq<Op>, i: nat, r: RegId)
    requires Run(ss, ops) && i < |ss| && r in ss[i].stories && ss[i].stories[r].cleared
    ensures var s := ss[i]; var st := s.stories[r];
      Answered(st, if r in s.recs then st.log + Pending(s.recs[r]) else st.log)
  {
    EveryRun(ss, ops, i);
    assert Fits(ss[i], r);
    if r in ss[i].recs { AnsweringIs(ss[i].recs[r], ss[i].stories[r]); } else { OverIs(ss[i].stories[r], ss[i].dead); }
  }

  lemma LostGrows(s: State, op: Op, r: RegId, e: Event)
    requires May(s, op) && r in s.stories && e in s.stories[r].lost
    ensures r in Step(s, op).stories && e in Step(s, op).stories[r].lost
  {}

  /** What an exit takes is never given, a death or an answer, whatever is called afterwards. */
  lemma {:induction false} LostIsNeverTold(ss: seq<State>, ops: seq<Op>, i: nat, j: nat, r: RegId, e: Event)
    requires Run(ss, ops) && i <= j < |ss| && r in ss[i].stories && e in ss[i].stories[r].lost
    ensures r in ss[j].stories && e in ss[j].stories[r].lost && e !in ss[j].stories[r].log
  {
    if i < j {
      LostIsNeverTold(ss, ops, i, j - 1, r, e);
      assert StepsTo(ss[j - 1], ops[j - 1], ss[j - 1 + 1]);
      LostGrows(ss[j - 1], ops[j - 1], r, e);
    }
    EveryRun(ss, ops, j);
    assert Fits(ss[j], r);
  }

  const LOSING_OPS: seq<Op> := [NewThread(3, 0), NewRef(1, 7, 0), Die(7), Request(1, 5, 3), Exit(3)]

  /** And such a run there is: a thread registers for an object already dead and exits before it reads. */
  lemma ExitCanLoseNotice() returns (ss: seq<State>)
    ensures Run(ss, LOSING_OPS) && 5 in ss[5].recs && 5 in ss[5].stories && ss[5].stories[5].log == []
    ensures GetsAll(ss[4], 5) && On(ss[4], ThreadQueue(3), 5) && !GetsAll(ss[5], 5)
  {
    var s1, s2, s3 := FirstThree();
    var s4, s5 := LastTwo(s3);
    ss := FiveSteps(s1, s2, s3, s4, s5, LOSING_OPS);
  }

  lemma FiveSteps(s1: State, s2: State, s3: State, s4: State, s5: State, ops: seq<Op>) returns (ss: seq<State>)
    requires |ops| == 5 && StepsTo(Start(), ops[0], s1) && StepsTo(s1, ops[1], s2) && StepsTo(s2, ops[2], s3)
    requires StepsTo(s3, ops[3], s4) && StepsTo(s4, ops[4], s5)
    ensures Run(ss, ops) && ss[4] == s4 && ss[5] == s5
  {
    ss := [Start(), s1, s2, s3, s4, s5];
  }

  lemma FirstThree() returns (s1: State, s2: State, s3: State)
    ensures StepsTo(Start(), LOSING_OPS[0], s1) && StepsTo(s1, LOSING_OPS[1], s2) && StepsTo(s2, LOSING_OPS[2], s3)
    ensures s3 == State(map[1 := Handle(7, 0, None)], map[], map[3 := 0], {7}, map[])
  {
    s1 := Start().(threads := map[3 := 0]);
    s2 := s1.(refs := map[1 := Handle(7, 0, None)]);
    s3 := s2.(dead := {7});
    assert s3 == DieStep(s2, 7);
  }

  lemma LastTwo(s: State) returns (s': State, s'': State)
    requires s == State(map[1 := Handle(7, 0, None)], map[], map[3 := 0], {7}, map[])
    ensures StepsTo(s, LOSING_OPS[3], s') && StepsTo(s', LOSING_OPS[4], s'')
    ensures 5 in s'.recs && 5 in s'.stories && GetsAll(s', 5) && On(s', ThreadQueue(3), 5)
    ensures 5 in s''.recs && 5 in s''.stories && s''.stories[5].log == [] && !GetsAll(s'', 5)
  {
    s' := RequestStep(s, 1, 5, 3);
    s'' := ExitStep(s', 3);
  }

  // ---------------------------------------------------------------- the code

  /** Handles and death records updated in place. */
  class Book {
    var refs: map<RefId, Handle>
    var recs: map<RegId, Record>
    var threads: map<Tid, Pid>
    ghost var dead: set<NodeId>
    ghost var stories: map<RegId, Story>

    ghost function Abs(): State
      reads this
    {
      State(refs, recs, threads, dead, stories)
    }

    /** binder_death_request; `isDead` is the object's own flag, `memory` whether a record can be had. */
    method Request(f: RefId, r: RegId, t: Tid, isDead: bool, memory: bool) returns (ok: bool)
      requires r !in stories && (f in refs ==> (isDead <==> refs[f].node in dead))
      modifies this
      ensures ok <==> f in old(refs) && old(refs)[f].death.None? && memory
      ensures Abs() == if ok then RequestStep(old(Abs()), f, r, t) else old(Abs())
    {
      if f !in refs || refs[f].death.Some? || !memory { return false; }
      recs := recs[r := Record(Dead, None)];
      refs := refs[f := refs[f].(death := Some(r))];
      stories := stories[r := Story(refs[f].node, refs[f].holder, false, false, [], [])];
      if isDead { recs := recs[r := recs[r].(at := Some(ThreadQueue(t)))]; }
      ok := true;
    }

    /** binder_death_clear; `cookieMatches` is the comparison with the record's cookie. */
    method ClearIt(f: RefId, t: Tid, cookieMatches: bool) returns (ok: bool)
      requires Inv(Abs())
      modifies this
      ensures ok <==> f in old(refs) && old(refs)[f].death.Some? && cookieMatches
      ensures f in old(refs) && old(refs)[f].death.Some? && Holds(old(Abs()), t, f) ==> May(old(Abs()), Op.ClearIt(f, t))
      ensures Abs() == if ok then ClearStep(old(Abs()), f, t) else old(Abs())
    {
      if f !in refs || refs[f].death.None? || !cookieMatches { return false; }
      var r := refs[f].death.value;
      if recs[r].at.None? {
        recs := recs[r := Record(Clear, Some(ThreadQueue(t)))];
      } else {
        recs := recs[r := recs[r].(kind := DeadAndClear)];
      }
      refs := refs[f := refs[f].(death := None)];
      stories := stories[r := stories[r].(cleared := true, diedFirst := stories[r].node in dead)];
      ok := true;
    }

    /** binder_node_died: the walk over the handles on the object. */
    method NodeDied(n: NodeId, handles: seq<RefId>)
      requires Inv(Abs()) && n !in dead
      requires forall f :: f in handles <==> f in refs && refs[f].node == n
      modifies this
      ensures Abs() == DieStep(old(Abs()), n)
    {
      ghost var s := Abs();
      var i := 0;
      while i < |handles|
        invariant i <= |handles| && refs == s.refs && threads == s.threads && dead == s.dead && stories == s.stories
        invariant recs.Keys == s.recs.Keys
        invariant forall r | r in s.recs :: recs[r] == if DueAmong(s, n, handles[..i], r) then OnDeath(s, n, r) else s.recs[r]
      {
        var f := handles[i];
        assert f in handles;
        DueNext(s, n, handles, i);
        if refs[f].death.Some? {
          var r := refs[f].death.value;
          if recs[r].at.None? {
            assert Due(s, n, r, f);
            recs := recs[r := Record(Dead, Some(ProcQueue(refs[f].holder)))];
          }
        }
        i := i + 1;
      }
      dead := dead + {n};
      assert handles[..i] == handles;
      forall r | r in s.recs ensures recs[r] == OnDeath(s, n, r) {
        if f :| Due(s, n, r, f) { assert f in handles; }
      }
      assert recs == DieStep(s, n).recs;
    }

    /** The read of a death record by binder_thread_read. */
    method ReadRecord(r: RegId, t: Tid) returns (e: Event)
      requires r in recs && r in stories && recs[r].at.Some?
      modifies this
      ensures Abs() == ReadStep(old(Abs()), r, t)
      ensures e == if old(recs)[r].kind == Clear then ClearDone else DeadBinder
    {
      var kind := recs[r].kind;
      recs := recs[r := recs[r].(at := None)];
      e := if kind == Clear then ClearDone else DeadBinder;
      stories := Emit(stories, r, e);
      if kind == DeadAndClear {
        recs := recs[r := Record(Clear, Some(ThreadQueue(t)))];
      } else if kind == Clear {
        recs := recs - {r};
      }
    }

    /** The death part of binder_ref_delete. */
    method DeleteRef(f: RefId)
      requires f in refs
      modifies this
      ensures Abs() == DeleteStep(old(Abs()), f)
    {
      if refs[f].death.Some? { recs := recs - {refs[f].death.value}; }
      refs := refs - {f};
    }

    /** The death records among the work that binder_thread_release or binder_proc_release takes off a queue. */
    method EmptyQueue(q: Queue, todo: seq<RegId>)
      requires forall r :: r in todo <==> On(Abs(), q, r)
      modifies this
      ensures Abs() == Unqueue(old(Abs()), q)
    {
      ghost var s := Abs();
      for i := 0 to |todo|
        invariant refs == s.refs && threads == s.threads && dead == s.dead && stories == s.stories && recs.Keys == s.recs.Keys
        invariant forall r | r in s.recs :: recs[r] == if r in todo[..i] then s.recs[r].(at := None) else s.recs[r]
      {
        assert todo[i] in todo;
        recs := recs[todo[i] := recs[todo[i]].(at := None)];
      }
      assert todo[..|todo|] == todo;
      stories := Unqueue(s, q).stories;
      assert recs == Unqueue(s, q).recs;
    }

    /** The death part of binder_thread_release. */
    method ThreadExit(t: Tid, todo: seq<RegId>)
      requires forall r :: r in todo <==> On(Abs(), ThreadQueue(t), r)
      modifies this
      ensures Abs() == ExitStep(old(Abs()), t)
    {
      EmptyQueue(ThreadQueue(t), todo);
      threads := threads - {t};
    }
  }

  /** `r` is due through one of these handles. */
  ghost predicate DueAmong(s: State, n: NodeId, handles: seq<RefId>, r: RegId) {
    exists f :: f in handles && Due(s, n, r, f)
  }

  lemma DueNext(s: State, n: NodeId, handles: seq<RefId>, i: nat)
    requires i < |handles|
    ensures forall r: RegId ::
      DueAmong(s, n, handles[..i + 1], r) <==> DueAmong(s, n, handles[..i], r) || Due(s, n, r, handles[i])
  {
    assert handles[..i + 1] == handles[..i] + [handles[i]];
    forall r: RegId | DueAmong(s, n, handles[..i], r) ensures DueAmong(s, n, handles[..i + 1], r) {
      var f :| f in handles[..i] && Due(s, n, r, f);
      assert f in handles[..i + 1];
    }
    forall r: RegId | Due(s, n, r, handles[i]) ensures DueAmong(s, n, handles[..i + 1], r) {
      assert handles[i] in handles[..i + 1];
    }
  }
}
