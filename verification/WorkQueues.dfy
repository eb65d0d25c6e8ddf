/**
Work items and the queues they wait on (kext/binder_proc.c:49-89). An item is embedded in the object it
describes, is on at most one queue, and its `queue` field is the only record of which. Every operation
that queues, moves or frees items is here as a method; freeing demands that the item is linked nowhere,
so that each method's proof is a proof that nothing is freed while linked.
*/
module WorkQueues {
  import opened Common

  /** What is queued: a transaction, a completion, a thread's own error, news of a node, a death record. */
  datatype Item = Txn(id: nat) | Completion(id: nat) | Error(tid: Tid) | NodeNews(node: NodeId) | Death(id: nat)

  /** The list heads: a thread's and a process's todo, and the oneway calls waiting behind a node. */
  datatype Head = ThreadTodo(tid: Tid) | ProcTodo(pid: Pid) | AsyncTodo(node: NodeId)

  /** The lists, and the `queue` field of every item there is. */
  datatype Work = Work(lists: map<Head, seq<Item>>, home: map<Item, Option<Head>>)

  ghost predicate NoRepeats(xs: seq<Item>) {
    forall i, j | 0 <= i < j < |xs| :: xs[i] != xs[j]
  }

  /** Each item's field names the one list it is on, and it is there once. */
  ghost predicate Linked(s: Work) {
    && (forall h, w | h in s.lists && w in s.lists[h] :: w in s.home && s.home[w] == Some(h))
    && (forall w | w in s.home && s.home[w].Some? :: s.home[w].value in s.lists && w in s.lists[s.home[w].value])
    && (forall h | h in s.lists :: NoRepeats(s.lists[h]))
  }

  /** Threads come with their error, nodes with their news; errors wait only on their own thread, and only
      transactions wait behind a node. */
  ghost predicate Embedded(s: Work) {
    && (forall t :: ThreadTodo(t) in s.lists <==> Error(t) in s.home)
    && (forall n :: AsyncTodo(n) in s.lists <==> NodeNews(n) in s.home)
    && (forall t | Error(t) in s.home && s.home[Error(t)].Some? :: s.home[Error(t)].value == ThreadTodo(t))
    && (forall n, w | AsyncTodo(n) in s.lists && w in s.lists[AsyncTodo(n)] :: w.Txn?)
  }

  ghost predicate Exact(s: Work) { Linked(s) && Embedded(s) }

  /** What may wait where. */
  predicate Fits(h: Head, w: Item) {
    (w.Error? ==> h == ThreadTodo(w.tid)) && (h.AsyncTodo? ==> w.Txn?)
  }

  // ---------------------------------------------------------------- the two primitives

  /** binder_queue_insert. */
  function Insert(s: Work, h: Head, w: Item, head: bool): Work
    requires h in s.lists && w in s.home
  {
    if s.home[w].Some? then s
    else Work(s.lists[h := if head then [w] + s.lists[h] else s.lists[h] + [w]], s.home[w := Some(h)])
  }

  function Without(xs: seq<Item>, w: Item): seq<Item> {
    if xs == [] then [] else if xs[0] == w then xs[1..] else [xs[0]] + Without(xs[1..], w)
  }

  /** binder_dequeue_work. */
  function Dequeue(s: Work, w: Item): Work
    requires Linked(s) && w in s.home
  {
    if s.home[w].None? then s
    else Work(s.lists[s.home[w].value := Without(s.lists[s.home[w].value], w)], s.home[w := None])
  }

  lemma InsertExact(s: Work, h: Head, w: Item, head: bool)
    requires Exact(s) && h in s.lists && w in s.home && Fits(h, w)
    ensures Exact(Insert(s, h, w, head))
  {
    var s' := Insert(s, h, w, head);
    if s.home[w].None? {
      forall g | g in s.lists ensures w !in s.lists[g] {}
      assert NoRepeats(s'.lists[h]);
    }
  }

  lemma {:induction false} WithoutIs(xs: seq<Item>, w: Item)
    requires NoRepeats(xs)
    ensures NoRepeats(Without(xs, w)) && forall x :: x in Without(xs, w) <==> x in xs && x != w
    decreases |xs|
  {
    if xs != [] {
      assert NoRepeats(xs[1..]) by {
        forall i, j | 0 <= i < j < |xs[1..]| ensures xs[1..][i] != xs[1..][j] { assert xs[i + 1] != xs[j + 1]; }
      }
      assert xs[0] !in xs[1..] by {
        forall i | 0 <= i < |xs[1..]| ensures xs[1..][i] != xs[0] { assert xs[0] != xs[i + 1]; }
      }
      assert xs == [xs[0]] + xs[1..];
      WithoutIs(xs[1..], w);
    }
  }

  lemma DequeueExact(s: Work, w: Item)
    requires Exact(s) && w in s.home
    ensures Exact(Dequeue(s, w)) && Dequeue(s, w).home[w].None?
  {
    if s.home[w].Some? {
      var h := s.home[w].value;
      WithoutIs(s.lists[h], w);
    }
  }

  /** An item that is linked nowhere can come and go. */
  predicate Separate(w: Item) { w.Txn? || w.Completion? || w.Death? }

  lemma UnlinkedIsNowhere(s: Work, w: Item)
    requires Linked(s) && (w in s.home ==> s.home[w].None?)
    ensures forall h | h in s.lists :: w !in s.lists[h]
  {}

  lemma OnlyTxnsBehind(s: Work, w: Item)
    requires Exact(s) && w in s.home && !w.Txn?
    ensures s.home[w].Some? ==> !s.home[w].value.AsyncTodo?
  {
    forall n | AsyncTodo(n) in s.lists ensures w !in s.lists[AsyncTodo(n)] {}
  }

  /** The transactions of a list, in order. */
  function Txns(xs: seq<Item>): seq<Item> {
    if xs == [] then []
    else
      var w := xs[|xs| - 1];
      Txns(xs[..|xs| - 1]) + if w.Txn? then [w] else []
  }

  /** A death record and the process it is for. */
  predicate Notice(s: Work, x: (Item, Pid)) { x.0 in s.home && x.0.Death? && ProcTodo(x.1) in s.lists }

  predicate Queued(s: Work, w: Item) { w in s.home && s.home[w].Some? }

  /** Nothing moved, but some death records that were nowhere are now on a process's queue. */
  ghost predicate DeathsQueued(s: Work, s': Work) {
    && s'.lists.Keys == s.lists.Keys && s'.home.Keys == s.home.Keys
    && (forall w | w in s.home ::
          s'.home[w] == s.home[w]
          || (s.home[w].None? && w.Death? && s'.home[w].Some? && s'.home[w].value.ProcTodo?))
  }

  /** The first `i` notices are queued. */
  ghost predicate Notified(s0: Work, s: Work, notices: seq<(Item, Pid)>, i: nat)
    requires i <= |notices|
  {
    DeathsQueued(s0, s) && forall j | 0 <= j < i :: Queued(s, notices[j].0)
  }

  lemma NotifiedNext(s0: Work, s: Work, notices: seq<(Item, Pid)>, i: nat)
    requires i < |notices| && Notified(s0, s, notices, i) && Notice(s0, notices[i])
    ensures Notice(s, notices[i])
    ensures Notified(s0, Insert(s, ProcTodo(notices[i].1), notices[i].0, false), notices, i + 1)
  {}

  /** Nothing was freed and no queue but those of `ts` changed. */
  ghost predicate ErrorsQueued(s: Work, s': Work, ts: seq<Tid>) {
    && s'.lists.Keys == s.lists.Keys && s'.home.Keys == s.home.Keys
    && (forall h | h in s.lists && !(h.ThreadTodo? && h.tid in ts) :: s'.lists[h] == s.lists[h])
    && (forall w | w in s.home && (!w.Error? || s.home[w].Some?) :: s'.home[w] == s.home[w])
  }

  /** The threads exist, and so do their error items. */
  ghost predicate AllThere(s: Work, ts: seq<Tid>) {
    forall i | 0 <= i < |ts| :: ThreadTodo(ts[i]) in s.lists && Error(ts[i]) in s.home
  }

  /** The errors of `ts` reported one after another. */
  ghost function Reported(s: Work, ts: seq<Tid>): Work {
    if ts == [] then s
    else
      var t, r := ts[|ts| - 1], Reported(s, ts[..|ts| - 1]);
      if ThreadTodo(t) in r.lists && Error(t) in r.home then Insert(r, ThreadTodo(t), Error(t), false) else r
  }

  lemma {:induction false} ReportedIs(s: Work, ts: seq<Tid>)
    requires AllThere(s, ts)
    ensures ErrorsQueued(s, Reported(s, ts), ts)
    ensures forall i | 0 <= i < |ts| :: Queued(Reported(s, ts), Error(ts[i]))
    decreases |ts|
  {
    if ts != [] {
      var k := |ts| - 1;
      ReportedIs(s, ts[..k]);
      assert ts == ts[..k] + [ts[k]];
      forall i | 0 <= i < |ts| ensures Queued(Reported(s, ts), Error(ts[i])) {
        if i < k { assert Queued(Reported(s, ts[..k]), Error(ts[..k][i])); }
      }
    }
  }

  lemma ReportedNext(s: Work, ts: seq<Tid>, i: nat)
    requires AllThere(s, ts) && i < |ts|
    ensures var r := Reported(s, ts[..i]);
      && ThreadTodo(ts[i]) in r.lists && Error(ts[i]) in r.home
      && Reported(s, ts[..i + 1]) == Insert(r, ThreadTodo(ts[i]), Error(ts[i]), false)
  {
    forall j | 0 <= j < |ts[..i]| ensures ThreadTodo(ts[..i][j]) in s.lists && Error(ts[..i][j]) in s.home {}
    ReportedIs(s, ts[..i]);
    assert ts[..i + 1][..i] == ts[..i];
  }

  /** The items of a list that go with it: completions, and transactions too if the process is going. */
  ghost function Freed(xs: seq<Item>, dead: bool): set<Item> {
    set w | w in xs && Goes(w, dead)
  }

  predicate Goes(w: Item, dead: bool) { w.Completion? || (w.Txn? && dead) }

  /** The lists when the first `i` items of a thread's queue have been passed on. */
  function Drained(lists: map<Head, seq<Item>>, t: Tid, p: Pid, dead: bool, i: nat): map<Head, seq<Item>>
    requires ThreadTodo(t) in lists && ProcTodo(p) in lists && i <= |lists[ThreadTodo(t)]|
  {
    var q := lists[ThreadTodo(t)];
    lists[ThreadTodo(t) := q[i..]][ProcTodo(p) := lists[ProcTodo(p)] + if dead then [] else Txns(q[..i])]
  }

  lemma DrainedNone(lists: map<Head, seq<Item>>, t: Tid, p: Pid, dead: bool)
    requires ThreadTodo(t) in lists && ProcTodo(p) in lists
    ensures Drained(lists, t, p, dead, 0) == lists
  {
    assert lists[ThreadTodo(t)][0..] == lists[ThreadTodo(t)];
    assert lists[ProcTodo(p)] + [] == lists[ProcTodo(p)];
  }

  lemma DrainedLast(lists: map<Head, seq<Item>>, t: Tid, p: Pid, dead: bool)
    requires ThreadTodo(t) in lists && ProcTodo(p) in lists
    ensures var q := lists[ThreadTodo(t)];
      var now := Drained(lists, t, p, dead, |q|);
      && now.Keys == lists.Keys && now[ThreadTodo(t)] == []
      && now[ProcTodo(p)] == lists[ProcTodo(p)] + if dead then [] else Txns(q)
  {
    var q := lists[ThreadTodo(t)];
    assert q[..|q|] == q;
  }

  lemma DrainedNext(lists: map<Head, seq<Item>>, t: Tid, p: Pid, dead: bool, i: nat)
    requires ThreadTodo(t) in lists && ProcTodo(p) in lists && i < |lists[ThreadTodo(t)]|
    ensures var w := lists[ThreadTodo(t)][i];
      var was := Drained(lists, t, p, dead, i);
      Drained(lists, t, p, dead, i + 1) ==
        was[ThreadTodo(t) := was[ThreadTodo(t)][1..]][ProcTodo(p) := was[ProcTodo(p)] + if w.Txn? && !dead then [w] else []]
  {
    var q := lists[ThreadTodo(t)];
    TxnsNext(q, i);
    assert q[i..][1..] == q[i + 1..];
    var now := Drained(lists, t, p, dead, i + 1);
    var was := Drained(lists, t, p, dead, i);
    assert now[ProcTodo(p)] == was[ProcTodo(p)] + if q[i].Txn? && !dead then [q[i]] else [];
  }

  lemma TxnsNext(q: seq<Item>, i: nat)
    requires i < |q|
    ensures Txns(q[..i + 1]) == Txns(q[..i]) + (if q[i].Txn? then [q[i]] else [])
  {
    assert q[..i + 1][..i] == q[..i];
  }

  lemma GoneNext(ts: seq<Tid>, i: nat)
    requires i < |ts|
    ensures (set t | t in ts[..i + 1] :: ThreadTodo(t)) == (set t | t in ts[..i] :: ThreadTodo(t)) + {ThreadTodo(ts[i])}
  {
    assert ts[..i + 1] == ts[..i] + [ts[i]];
  }

  // ---------------------------------------------------------------- what a teardown leaves

  type Homes = map<Item, Option<Head>>

  /** Each item of `taken` is freed if it goes with its queue, handed to the process if it is a call, and otherwise
      linked nowhere; every other item is where it was. Errors apart. */
  ghost predicate Passed(was: Homes, now: Homes, taken: set<Item>, p: Pid, dead: bool) {
    forall w: Item | !w.Error? ::
      && (w in now <==> w in was && !(w in taken && Goes(w, dead)))
      && (w in now ==> now[w] == if w !in taken then was[w] else if w.Txn? then Some(ProcTodo(p)) else None)
  }

  /** The error items are those of the threads still there, and one that was queued there still is. */
  ghost predicate ErrorsStay(was: Homes, now: Homes, gone: set<Tid>) {
    forall t: Tid ::
      && (Error(t) in now <==> Error(t) in was && t !in gone)
      && (Error(t) in now && was[Error(t)].Some? ==> now[Error(t)] == was[Error(t)])
  }

  /** What one item off the queue becomes. */
  function Passing(home: Homes, w: Item, p: Pid, dead: bool): Homes {
    if Goes(w, dead) then home - {w} else home[w := if w.Txn? then Some(ProcTodo(p)) else None]
  }

  lemma PassingIs(home: Homes, w: Item, p: Pid, dead: bool)
    requires w in home
    ensures Passed(home, Passing(home, w, p, dead), {w}, p, dead)
    ensures Passing(home, w, p, dead).Keys == home.Keys - if Goes(w, dead) then {w} else {}
  {}

  lemma PassedBoth(was: Homes, mid: Homes, now: Homes, a: set<Item>, b: set<Item>, p: Pid, dead: bool)
    requires Passed(was, mid, a, p, dead) && Passed(mid, now, b, p, dead)
    ensures Passed(was, now, a + b, p, dead)
  {}

  lemma StayBoth(was: Homes, mid: Homes, now: Homes, a: set<Tid>, b: set<Tid>)
    requires ErrorsStay(was, mid, a) && ErrorsStay(mid, now, b)
    ensures ErrorsStay(was, now, a + b)
  {}

  function Among(q: seq<Item>): set<Item> { set w | w in q }

  lemma AmongNext(q: seq<Item>, i: nat)
    requires i < |q|
    ensures Among(q[..i + 1]) == Among(q[..i]) + {q[i]}
  {
    assert q[..i + 1] == q[..i] + [q[i]];
  }

  /** What is there when the items of a queue have been passed on. */
  lemma PassedKeys(was: Homes, now: Homes, q: seq<Item>, p: Pid, dead: bool)
    requires Passed(was, now, Among(q), p, dead) && ErrorsStay(was, now, {})
    ensures now.Keys == was.Keys - Freed(q, dead)
  {
    forall w: Item ensures w in now <==> w in was && w !in Freed(q, dead) {
      if w.Error? { assert Error(w.tid) == w; }
    }
  }

  /** Reporting errors passes nothing on. */
  lemma ReportedThen(was: Work, mid: Work, now: Homes, ts: seq<Tid>, taken: set<Item>, p: Pid, dead: bool, t: Tid)
    requires ErrorsQueued(was, mid, ts) && Passed(mid.home, now, taken, p, dead) && ErrorsStay(mid.home, now, {t})
    ensures Passed(was.home, now, taken, p, dead) && ErrorsStay(was.home, now, {t})
  {}

  /** The items on the queue of a process and of some of its threads. */
  ghost function Carried(home: Homes, p: Pid, ts: seq<Tid>): set<Item> {
    set w | w in home && home[w].Some? && (home[w].value == ProcTodo(p) || (home[w].value.ThreadTodo? && home[w].value.tid in ts))
  }

  lemma CarriedFirst(s: Work, p: Pid)
    requires Linked(s) && ProcTodo(p) in s.lists
    ensures Among(s.lists[ProcTodo(p)]) == Carried(s.home, p, [])
  {}

  /** One more thread's queue passed on. */
  lemma CarriedNext(was: Homes, mid: Work, now: Homes, p: Pid, ts: seq<Tid>, i: nat)
    requires i < |ts| && Linked(mid) && ThreadTodo(ts[i]) in mid.lists
    requires Passed(was, mid.home, Carried(was, p, ts[..i]), p, true)
    requires Passed(mid.home, now, Among(mid.lists[ThreadTodo(ts[i])]), p, true)
    ensures Passed(was, now, Carried(was, p, ts[..i + 1]), p, true)
  {
    assert ts[..i + 1] == ts[..i] + [ts[i]];
    var a, b := Carried(was, p, ts[..i]), Among(mid.lists[ThreadTodo(ts[i])]);
    PassedBoth(was, mid.home, now, a, b, p, true);
    forall w: Item | !w.Error? && w in was && !(w in a && Goes(w, true))
      ensures w in a + b <==> w in Carried(was, p, ts[..i + 1])
    {}
    PassedSame(was, now, a + b, Carried(was, p, ts[..i + 1]), p);
  }

  lemma PassedSame(was: Homes, now: Homes, a: set<Item>, b: set<Item>, p: Pid)
    requires Passed(was, now, a, p, true) && forall w: Item | !w.Error? && w in was :: w in a <==> w in b
    ensures Passed(was, now, b, p, true)
  {}

  /** The first `done` items of a thread's queue have been passed on. */
  ghost predicate Draining(was: Work, now: Work, t: Tid, p: Pid, dead: bool, done: nat) {
    && ThreadTodo(t) in was.lists && ProcTodo(p) in was.lists && done <= |was.lists[ThreadTodo(t)]|
    && now.lists == Drained(was.lists, t, p, dead, done)
    && Passed(was.home, now.home, Among(was.lists[ThreadTodo(t)][..done]), p, dead)
    && OthersStay(was.home, now.home, t)
  }

  /** Every thread keeps its error item, and all but `t` keep it where it was. */
  ghost predicate OthersStay(was: Homes, now: Homes, t: Tid) {
    forall u: Tid :: (Error(u) in now <==> Error(u) in was) && (Error(u) in now && u != t ==> now[Error(u)] == was[Error(u)])
  }

  lemma DrainingNone(s: Work, t: Tid, p: Pid, dead: bool)
    requires ThreadTodo(t) in s.lists && ProcTodo(p) in s.lists
    ensures Draining(s, s, t, p, dead, 0)
  {
    DrainedNone(s.lists, t, p, dead);
  }

  lemma DrainingNext(was: Work, mid: Work, now: Work, t: Tid, p: Pid, dead: bool, done: nat, w: Item)
    requires Draining(was, mid, t, p, dead, done) && done < |was.lists[ThreadTodo(t)]|
    requires w == was.lists[ThreadTodo(t)][done] && w in mid.home && (w.Error? ==> w.tid == t)
    requires now.home == Passing(mid.home, w, p, dead)
    requires now.lists == mid.lists[ThreadTodo(t) := mid.lists[ThreadTodo(t)][1..]][ProcTodo(p) :=
      mid.lists[ProcTodo(p)] + if w.Txn? && !dead then [w] else []]
    ensures Draining(was, now, t, p, dead, done + 1)
  {
    var q := was.lists[ThreadTodo(t)];
    DrainedNext(was.lists, t, p, dead, done);
    AmongNext(q, done);
    PassingIs(mid.home, w, p, dead);
    PassedBoth(was.home, mid.home, now.home, Among(q[..done]), {w}, p, dead);
  }

  lemma DrainingEnd(was: Work, now: Work, t: Tid, p: Pid, dead: bool)
    requires ThreadTodo(t) in was.lists && Draining(was, now, t, p, dead, |was.lists[ThreadTodo(t)]|)
    ensures Passed(was.home, now.home, Among(was.lists[ThreadTodo(t)]), p, dead)
    ensures now.home.Keys == was.home.Keys - Freed(was.lists[ThreadTodo(t)], dead)
  {
    var q := was.lists[ThreadTodo(t)];
    assert q[..|q|] == q;
    forall w: Item ensures w in now.home <==> w in was.home && w !in Freed(q, dead) {
      if w.Error? { assert Error(w.tid) == w; }
    }
  }

  /** A thread's own error goes with it. */
  lemma ThreadGone(was: Homes, now: Homes, taken: set<Item>, p: Pid, dead: bool, t: Tid)
    requires Passed(was, now, taken, p, dead) && OthersStay(was, now, t)
    ensures Passed(was, now - {Error(t)}, taken, p, dead) && ErrorsStay(was, now - {Error(t)}, {t})
  {}

  /** The first `done` items of a process's queue have been freed and their senders told. */
  ghost predicate Emptying(was: Work, now: Work, p: Pid, callers: map<Item, Tid>, done: nat) {
    && ProcTodo(p) in was.lists && done <= |was.lists[ProcTodo(p)]|
    && Passed(was.home, now.home, Among(was.lists[ProcTodo(p)][..done]), p, true) && ErrorsStay(was.home, now.home, {})
    && forall w | w in Among(was.lists[ProcTodo(p)][..done]) && w.Txn? && w in callers :: Queued(now, Error(callers[w]))
  }

  lemma EmptyingNext(was: Work, mid: Work, now: Work, p: Pid, callers: map<Item, Tid>, done: nat, w: Item)
    requires Emptying(was, mid, p, callers, done) && done < |was.lists[ProcTodo(p)]| && w == was.lists[ProcTodo(p)][done]
    requires Passed(mid.home, now.home, {w}, p, true) && ErrorsStay(mid.home, now.home, {})
    requires w.Txn? && w in callers ==> Queued(now, Error(callers[w]))
    ensures Emptying(was, now, p, callers, done + 1)
  {
    var q := was.lists[ProcTodo(p)];
    AmongNext(q, done);
    PassedBoth(was.home, mid.home, now.home, Among(q[..done]), {w}, p, true);
    StayBoth(was.home, mid.home, now.home, {}, {});
  }

  function Tids(ts: seq<Tid>): set<Tid> { set t | t in ts }

  /** What closing a process asks: its threads are there, each once, and so is everybody who waits on one of them and
      is not gone before it. */
  ghost predicate MayClose(s: Work, p: Pid, callers: map<Item, Tid>, threads: seq<Tid>, waiting: seq<seq<Tid>>) {
    && ProcTodo(p) in s.lists && |waiting| == |threads|
    && (forall w | w in callers :: ThreadTodo(callers[w]) in s.lists)
    && (forall i | 0 <= i < |threads| :: ThreadTodo(threads[i]) in s.lists)
    && (forall i, j | 0 <= i < j < |threads| :: threads[i] != threads[j])
    && (forall i, t | 0 <= i < |threads| && t in waiting[i] :: ThreadTodo(t) in s.lists && t !in threads[..i + 1])
  }

  /** Everybody who waited on the process or one of its first `i` threads, and is not one of them, has been told. */
  ghost predicate AllTold(was: Work, now: Work, p: Pid, callers: map<Item, Tid>, threads: seq<Tid>,
                          waiting: seq<seq<Tid>>, i: nat)
    requires ProcTodo(p) in was.lists && i <= |waiting|
  {
    && (forall w | w in was.lists[ProcTodo(p)] && w.Txn? && w in callers && callers[w] !in threads ::
          Queued(now, Error(callers[w])))
    && (forall j, t | 0 <= j < i && t in waiting[j] && t !in threads :: Queued(now, Error(t)))
  }

  /** The process's queue and the first `i` threads have gone. */
  ghost predicate Closing(was: Work, now: Work, p: Pid, threads: seq<Tid>, i: nat)
    requires i <= |threads|
  {
    && now.lists.Keys == was.lists.Keys - (set t | t in threads[..i] :: ThreadTodo(t))
    && ProcTodo(p) in now.lists && now.lists[ProcTodo(p)] == []
    && Passed(was.home, now.home, Carried(was.home, p, threads[..i]), p, true)
    && ErrorsStay(was.home, now.home, Tids(threads[..i]))
  }

  lemma ClosingNext(was: Work, mid: Work, now: Work, p: Pid, threads: seq<Tid>, i: nat)
    requires i < |threads| && Closing(was, mid, p, threads, i) && Linked(mid) && ThreadTodo(threads[i]) in mid.lists
    requires now.lists.Keys == mid.lists.Keys - {ThreadTodo(threads[i])}
    requires ProcTodo(p) in now.lists && now.lists[ProcTodo(p)] == []
    requires Passed(mid.home, now.home, Among(mid.lists[ThreadTodo(threads[i])]), p, true)
    requires ErrorsStay(mid.home, now.home, {threads[i]})
    ensures Closing(was, now, p, threads, i + 1)
  {
    GoneNext(threads, i);
    CarriedNext(was.home, mid, now.home, p, threads, i);
    StayBoth(was.home, mid.home, now.home, Tids(threads[..i]), {threads[i]});
    assert threads[..i + 1] == threads[..i] + [threads[i]];
    assert Tids(threads[..i + 1]) == Tids(threads[..i]) + {threads[i]};
  }

  lemma AllToldNext(was: Work, mid: Work, now: Work, p: Pid, callers: map<Item, Tid>, threads: seq<Tid>,
                    waiting: seq<seq<Tid>>, i: nat)
    requires ProcTodo(p) in was.lists && i < |waiting| == |threads|
    requires AllTold(was, mid, p, callers, threads, waiting, i) && ErrorsStay(mid.home, now.home, {threads[i]})
    requires forall j | 0 <= j < |waiting[i]| :: Queued(now, Error(waiting[i][j]))
    ensures AllTold(was, now, p, callers, threads, waiting, i + 1)
  {}

  /** Those who wait on a thread are there when it goes. */
  lemma StillThere(was: Work, mid: Work, p: Pid, callers: map<Item, Tid>, threads: seq<Tid>, waiting: seq<seq<Tid>>, i: nat)
    requires MayClose(was, p, callers, threads, waiting) && i < |threads| && Embedded(mid) && Closing(was, mid, p, threads, i)
    ensures ThreadTodo(threads[i]) in mid.lists && threads[i] !in waiting[i] && AllThere(mid, waiting[i])
  {
    assert threads[i] !in threads[..i] && threads[i] in threads[..i + 1];
    forall j | 0 <= j < |waiting[i]| ensures ThreadTodo(waiting[i][j]) in mid.lists && Error(waiting[i][j]) in mid.home {
      assert waiting[i][j] in waiting[i];
      assert forall t | t in threads[..i] :: t in threads[..i + 1];
    }
  }

  /** So no call or completion on a queue of a process that goes is left, and whatever else was there is linked nowhere. */
  lemma NothingLeft(was: Homes, now: Homes, p: Pid, ts: seq<Tid>, w: Item)
    requires Passed(was, now, Carried(was, p, ts), p, true) && w in was && was[w].Some? && !w.Error?
    requires was[w].value == ProcTodo(p) || (was[w].value.ThreadTodo? && was[w].value.tid in ts)
    ensures if w.Txn? || w.Completion? then w !in now else w in now && now[w].None?
  {
    assert w in Carried(was, p, ts);
  }

  // ---------------------------------------------------------------- the driver's operations

  /** What reading an item does to the queues. */
  function Read(s: Work, t: Tid, h: Head, w: Item, outcome: Outcome): Work
    requires Linked(s) && h in s.lists && w in s.lists[h] && ThreadTodo(t) in s.lists
  {
    var rest := s.lists[h := Without(s.lists[h], w)];
    match outcome
    case Full => Work(rest[h := [w] + rest[h]], s.home)
    case Kept => Work(rest, s.home[w := None])
    case Finished => Work(rest, s.home - {w})
    case Again => Work(rest[ThreadTodo(t) := rest[ThreadTodo(t)] + [w]], s.home[w := Some(ThreadTodo(t))])
  }

  /** Reading is unlinking the item and then linking it again, or freeing it, or neither. */
  lemma ReadIs(s: Work, t: Tid, h: Head, w: Item, outcome: Outcome)
    requires Linked(s) && h in s.lists && w in s.lists[h] && ThreadTodo(t) in s.lists
    ensures w in s.home && s.home[w] == Some(h)
    ensures var d := Dequeue(s, w);
      Read(s, t, h, w, outcome) ==
        match outcome
        case Full => Insert(d, h, w, true)
        case Kept => d
        case Finished => Work(d.lists, d.home - {w})
        case Again => Insert(d, ThreadTodo(t), w, false)
  {
    assert s.home[w := None][w := Some(h)] == s.home;
    assert s.home[w := None] - {w} == s.home - {w};
    assert s.home[w := None][w := Some(ThreadTodo(t))] == s.home[w := Some(ThreadTodo(t))];
  }

  /** An item put back is where it was if it was the first. */
  lemma PutBackInPlace(s: Work, t: Tid, h: Head)
    requires Linked(s) && h in s.lists && s.lists[h] != [] && ThreadTodo(t) in s.lists
    ensures Read(s, t, h, s.lists[h][0], Full) == s
  {
    assert [s.lists[h][0]] + s.lists[h][1..] == s.lists[h];
  }

  class Queues {
    var lists: map<Head, seq<Item>>
    var home: map<Item, Option<Head>>
    /** The nodes with a oneway call in flight: has_async_transaction. */
    var busy: set<NodeId>

    ghost function Abs(): Work
      reads this
    {
      Work(lists, home)
    }

    ghost predicate Valid()
      reads this
    {
      Exact(Abs())
    }

    constructor ()
      ensures Valid() && lists == map[] && home == map[] && busy == {}
    {
      lists, home, busy := map[], map[], {};
    }

    // -------------------------------------------------------------- primitives

    method QueueInsert(h: Head, w: Item, head: bool)
      requires Valid() && h in lists && w in home && Fits(h, w)
      modifies this`lists, this`home
      ensures Valid() && Abs() == Insert(old(Abs()), h, w, head)
    {
      InsertExact(Abs(), h, w, head);
      if home[w].Some? { return; }
      if head {
        lists := lists[h := [w] + lists[h]];
      } else {
        lists := lists[h := lists[h] + [w]];
      }
      home := home[w := Some(h)];
    }

    method Unlink(w: Item)
      requires Valid() && w in home
      modifies this`lists, this`home
      ensures Valid() && Abs() == Dequeue(old(Abs()), w) && home[w].None?
    {
      DequeueExact(Abs(), w);
      if home[w].None? { return; }
      var h := home[w].value;
      lists := lists[h := Without(lists[h], w)];
      home := home[w := None];
    }

    /** The first item of a queue is unlinked. */
    method Pop(h: Head) returns (w: Item)
      requires Valid() && h in lists && lists[h] != []
      modifies this`lists, this`home
      ensures Valid() && w == old(lists)[h][0] && w in old(home) && Fits(h, w)
      ensures lists == old(lists)[h := old(lists)[h][1..]] && home == old(home)[w := None]
    {
      w := lists[h][0];
      assert w in lists[h];
      Unlink(w);
    }

    method New(w: Item)
      requires Valid() && w !in home && Separate(w)
      modifies this`lists, this`home
      ensures Valid() && lists == old(lists) && home == old(home)[w := None]
    {
      home := home[w := None];
    }

    /** A new item goes straight to the end of a queue. */
    method QueueNew(h: Head, w: Item)
      requires Valid() && h in lists && w !in home && Separate(w) && Fits(h, w)
      modifies this`lists, this`home
      ensures Valid() && lists == old(lists)[h := old(lists)[h] + [w]] && home == old(home)[w := Some(h)]
    {
      New(w);
      QueueInsert(h, w, false);
      assert old(home)[w := None][w := Some(h)] == old(home)[w := Some(h)];
    }

    /** Freeing an item demands that no list reaches it. */
    method Free(w: Item)
      requires Valid() && w in home && Separate(w) && home[w].None?
      modifies this`lists, this`home
      ensures Valid() && lists == old(lists) && home == old(home) - {w}
    {
      UnlinkedIsNowhere(Abs(), w);
      home := home - {w};
    }

    method OpenProc(p: Pid)
      requires Valid() && ProcTodo(p) !in lists
      modifies this`lists, this`home
      ensures Valid() && lists == old(lists)[ProcTodo(p) := []] && home == old(home)
    {
      lists := lists[ProcTodo(p) := []];
    }

    method NewThread(t: Tid)
      requires Valid() && ThreadTodo(t) !in lists
      modifies this`lists, this`home
      ensures Valid() && lists == old(lists)[ThreadTodo(t) := []] && home == old(home)[Error(t) := None]
    {
      lists := lists[ThreadTodo(t) := []];
      home := home[Error(t) := None];
    }

    method NewNode(n: NodeId)
      requires Valid() && AsyncTodo(n) !in lists
      modifies this
      ensures Valid() && lists == old(lists)[AsyncTodo(n) := []] && home == old(home)[NodeNews(n) := None]
      ensures busy == old(busy) - {n}
    {
      lists := lists[AsyncTodo(n) := []];
      busy := busy - {n};
      home := home[NodeNews(n) := None];
    }

    /** A thread goes with its error item; a list head goes only when empty. */
    method FreeThread(t: Tid)
      requires Valid() && ThreadTodo(t) in lists && lists[ThreadTodo(t)] == [] && home[Error(t)].None?
      modifies this`lists, this`home
      ensures Valid() && lists == old(lists) - {ThreadTodo(t)} && home == old(home) - {Error(t)}
    {
      UnlinkedIsNowhere(Abs(), Error(t));
      lists := lists - {ThreadTodo(t)};
      home := home - {Error(t)};
    }

    method FreeNode(n: NodeId)
      requires Valid() && AsyncTodo(n) in lists && lists[AsyncTodo(n)] == [] && home[NodeNews(n)].None?
      modifies this
      ensures Valid() && lists == old(lists) - {AsyncTodo(n)} && home == old(home) - {NodeNews(n)}
      ensures busy == old(busy) - {n}
    {
      UnlinkedIsNowhere(Abs(), NodeNews(n));
      lists := lists - {AsyncTodo(n)};
      busy := busy - {n};
      home := home - {NodeNews(n)};
    }

    method FreeProc(p: Pid)
      requires Valid() && ProcTodo(p) in lists && lists[ProcTodo(p)] == []
      modifies this`lists, this`home
      ensures Valid() && lists == old(lists) - {ProcTodo(p)} && home == old(home)
    {
      lists := lists - {ProcTodo(p)};
    }

    // -------------------------------------------------------------- transactions

    /** binder_free_transaction, and the end of a death record in binder_ref_delete: unlinked, then freed. */
    method Drop(w: Item)
      requires Valid() && w in home && Separate(w)
      modifies this`lists, this`home
      ensures Valid() && lists == Dequeue(old(Abs()), w).lists && home == Dequeue(old(Abs()), w).home - {w}
    {
      Unlink(w);
      Free(w);
    }

    method ReportError(t: Tid)
      requires Valid() && ThreadTodo(t) in lists
      modifies this`lists, this`home
      ensures Valid() && Abs() == Insert(old(Abs()), ThreadTodo(t), Error(t), false)
    {
      QueueInsert(ThreadTodo(t), Error(t), false);
    }

    /** A call or a reply: the transaction to its target, then the completion to its sender. */
    method Send(sender: Tid, target: Head, x: Item, y: Item)
      requires Valid() && ThreadTodo(sender) in lists && target in lists && !target.AsyncTodo?
      requires x.Txn? && y.Completion? && x !in home && y !in home
      modifies this`lists, this`home
      ensures Valid() && home == old(home)[x := Some(target)][y := Some(ThreadTodo(sender))]
      ensures var mid := old(lists)[target := old(lists)[target] + [x]];
        lists == mid[ThreadTodo(sender) := mid[ThreadTodo(sender)] + [y]]
    {
      QueueNew(target, x);
      QueueNew(ThreadTodo(sender), y);
    }

    /** A reply frees what it answers first, wherever that is. */
    method Reply(sender: Tid, target: Tid, answered: Item, x: Item, y: Item)
      requires Valid() && ThreadTodo(sender) in lists && ThreadTodo(target) in lists
      requires x.Txn? && y.Completion? && x !in home && y !in home && answered in home && answered.Txn?
      modifies this`lists, this`home
      ensures Valid() && answered !in home
      ensures var was := Dequeue(old(Abs()), answered);
        var mid := was.lists[ThreadTodo(target) := was.lists[ThreadTodo(target)] + [x]];
        && lists == mid[ThreadTodo(sender) := mid[ThreadTodo(sender)] + [y]]
        && home == (was.home - {answered})[x := Some(ThreadTodo(target))][y := Some(ThreadTodo(sender))]
    {
      Drop(answered);
      Send(sender, ThreadTodo(target), x, y);
    }

    /** A oneway call goes to the process, or behind the node while one is in flight. */
    method SendOneway(sender: Tid, owner: Pid, n: NodeId, x: Item, y: Item)
      requires Valid() && ThreadTodo(sender) in lists && ProcTodo(owner) in lists && AsyncTodo(n) in lists
      requires x.Txn? && y.Completion? && x !in home && y !in home
      modifies this
      ensures Valid() && busy == old(busy) + {n}
      ensures var h := if n in old(busy) then AsyncTodo(n) else ProcTodo(owner);
        && home == old(home)[x := Some(h)][y := Some(ThreadTodo(sender))]
        && lists == old(lists)[h := old(lists)[h] + [x]][ThreadTodo(sender) := old(lists)[ThreadTodo(sender)] + [y]]
    {
      if n in busy {
        QueueNew(AsyncTodo(n), x);
      } else {
        busy := busy + {n};
        QueueNew(ProcTodo(owner), x);
      }
      QueueNew(ThreadTodo(sender), y);
    }

    /** The tail of binder_write_free_buffer: the next oneway call behind the node goes to the process, or none is
        in flight any more. */
    method NextAsync(p: Pid, n: NodeId) returns (moved: bool)
      requires Valid() && ProcTodo(p) in lists && AsyncTodo(n) in lists
      modifies this
      ensures Valid() && (moved <==> n in old(busy) && old(lists)[AsyncTodo(n)] != [])
      ensures busy == old(busy) - if moved then {} else {n}
      ensures !moved ==> Abs() == old(Abs())
      ensures moved ==>
        var w := old(lists)[AsyncTodo(n)][0];
        && home == old(home)[w := Some(ProcTodo(p))]
        && lists == old(lists)[AsyncTodo(n) := old(lists)[AsyncTodo(n)][1..]][ProcTodo(p) := old(lists)[ProcTodo(p)] + [w]]
    {
      if n !in busy { return false; }
      if lists[AsyncTodo(n)] == [] {
        busy := busy - {n};
        return false;
      }
      var w := Pop(AsyncTodo(n));
      QueueInsert(ProcTodo(p), w, false);
      moved := true;
    }

    // -------------------------------------------------------------- nodes and deaths

    /** binder_node_notify_owner: the owner's queue, or that of the owner's own thread. */
    method Notify(n: NodeId, h: Head)
      requires Valid() && AsyncTodo(n) in lists && h in lists && !h.AsyncTodo?
      modifies this`lists, this`home
      ensures Valid() && Abs() == Insert(old(Abs()), h, NodeNews(n), false)
    {
      QueueInsert(h, NodeNews(n), false);
    }

    /** The first oneway call behind a node is unlinked and freed. */
    method DropAsync(n: NodeId) returns (w: Item)
      requires Valid() && AsyncTodo(n) in lists && lists[AsyncTodo(n)] != []
      modifies this`lists, this`home
      ensures Valid() && w == old(lists)[AsyncTodo(n)][0] && w in old(home) && w.Txn?
      ensures lists == old(lists)[AsyncTodo(n) := old(lists)[AsyncTodo(n)][1..]] && home == old(home) - {w}
    {
      w := Pop(AsyncTodo(n));
      Free(w);
    }

    /** The end of binder_node_maybe_free; `held` is every other reason to keep the node. A queued node stays. */
    method MaybeFreeNode(n: NodeId, held: bool) returns (freed: bool)
      requires Valid() && AsyncTodo(n) in lists
      modifies this
      ensures Valid() && (freed <==> !held && old(home)[NodeNews(n)].None?)
      ensures !freed ==> Abs() == old(Abs())
      ensures freed ==> lists == old(lists) - {AsyncTodo(n)}
      ensures freed ==> home.Keys == old(home.Keys) - {NodeNews(n)} - (set w | w in old(lists)[AsyncTodo(n)])
      ensures forall w | w in home :: home[w] == old(home)[w]
      ensures busy == old(busy) - if freed then {n} else {}
    {
      if held || home[NodeNews(n)].Some? { return false; }
      ghost var q := lists[AsyncTodo(n)];
      ghost var gone: set<Item> := {};
      while lists[AsyncTodo(n)] != []
        invariant Valid() && AsyncTodo(n) in lists && home[NodeNews(n)].None?
        invariant busy == old(busy)
        invariant lists == old(lists)[AsyncTodo(n) := lists[AsyncTodo(n)]]
        invariant gone + (set w | w in lists[AsyncTodo(n)]) == (set w | w in q)
        invariant home.Keys == old(home.Keys) - gone && forall w | w in home :: home[w] == old(home)[w]
        decreases |lists[AsyncTodo(n)]|
      {
        ghost var xs := lists[AsyncTodo(n)];
        assert xs == [xs[0]] + xs[1..];
        var w := DropAsync(n);
        gone := gone + {w};
      }
      FreeNode(n);
      freed := true;
    }

    /** binder_node_died: a notice that is not queued already goes to its holder's process. */
    method NodeDied(notices: seq<(Item, Pid)>)
      requires Valid() && forall i | 0 <= i < |notices| :: Notice(Abs(), notices[i])
      modifies this`lists, this`home
      ensures Valid() && DeathsQueued(old(Abs()), Abs())
      ensures forall i | 0 <= i < |notices| :: Queued(Abs(), notices[i].0)
    {
      ghost var s0 := Abs();
      var i := 0;
      while i < |notices|
        invariant i <= |notices| && Valid() && Notified(s0, Abs(), notices, i)
      {
        NotifiedNext(s0, Abs(), notices, i);
        QueueInsert(ProcTodo(notices[i].1), notices[i].0, false);
        i := i + 1;
      }
    }

    /** binder_death_request: a record for something already dead is queued at once. */
    method RequestDeath(t: Tid, d: Item, dead: bool)
      requires Valid() && ThreadTodo(t) in lists && d.Death? && d !in home
      modifies this`lists, this`home
      ensures Valid() && home == old(home)[d := if dead then Some(ThreadTodo(t)) else None]
      ensures lists == if dead then old(lists)[ThreadTodo(t) := old(lists)[ThreadTodo(t)] + [d]] else old(lists)
    {
      New(d);
      if dead { QueueInsert(ThreadTodo(t), d, false); }
    }

    /** binder_death_clear: a record already queued stays where it is and changes meaning. */
    method ClearDeath(t: Tid, d: Item)
      requires Valid() && ThreadTodo(t) in lists && d.Death? && d in home
      modifies this`lists, this`home
      ensures Valid() && Abs() == Insert(old(Abs()), ThreadTodo(t), d, false) && home[d].Some?
    {
      if home[d].None? { QueueInsert(ThreadTodo(t), d, false); }
    }

    // -------------------------------------------------------------- reading

    /** Thread `t` reads an item of its own queue or its process's: the item is kept by the object it
        describes, freed, queued again for `t`, or put back in front because it did not fit. */
    method ReadItem(t: Tid, h: Head, w: Item, outcome: Outcome)
      requires Valid() && h in lists && w in lists[h] && ThreadTodo(t) in lists && (h == ThreadTodo(t) || h.ProcTodo?)
      requires (outcome == Finished ==> Separate(w)) && (outcome == Again ==> w.Death?)
      modifies this`lists, this`home
      ensures Valid() && Abs() == Read(old(Abs()), t, h, w, outcome)
    {
      ReadIs(Abs(), t, h, w, outcome);
      Unlink(w);
      match outcome
      case Full => QueueInsert(h, w, true);
      case Kept =>
      case Finished => Free(w);
      case Again => QueueInsert(ThreadTodo(t), w, false);
    }

    // -------------------------------------------------------------- teardown

    /** The end of a death record: nothing behind any node is touched. */
    method DropDeath(d: Item)
      requires Valid() && d in home && d.Death?
      modifies this`lists, this`home
      ensures Valid() && lists.Keys == old(lists.Keys) && home == old(home) - {d}
      ensures forall h | h in lists && h.AsyncTodo? :: lists[h] == old(lists)[h]
    {
      OnlyTxnsBehind(Abs(), d);
      Drop(d);
      assert home == old(home) - {d};
    }

    /** binder_ref_delete: the death record goes, the node's owner may hear of it, the node may go. */
    method DeleteRef(death: Option<Item>, n: NodeId, news: Option<Head>, held: bool)
      requires Valid() && AsyncTodo(n) in lists
      requires death.Some? ==> death.value in home && death.value.Death?
      requires news.Some? ==> news.value in lists && !news.value.AsyncTodo?
      modifies this
      ensures Valid() && (death.Some? ==> death.value !in home)
      ensures AsyncTodo(n) !in lists ==> !held && old(home)[NodeNews(n)].None? && news.None?
      ensures forall w | w in old(home) && Some(w) != death && w != NodeNews(n) && w !in old(lists)[AsyncTodo(n)] ::
        w in home && home[w] == old(home)[w]
      ensures busy == old(busy) - if AsyncTodo(n) in lists then {} else {n}
    {
      if death.Some? { DropDeath(death.value); }
      if news.Some? { Notify(n, news.value); }
      assert lists[AsyncTodo(n)] == old(lists)[AsyncTodo(n)];
      var _ := MaybeFreeNode(n, held);
    }

    /** Threads waiting on something that will not be answered are told so. */
    method ReportAll(waiting: seq<Tid>)
      requires Valid() && AllThere(Abs(), waiting)
      modifies this`lists, this`home
      ensures Valid() && ErrorsQueued(old(Abs()), Abs(), waiting)
      ensures forall i | 0 <= i < |waiting| :: Queued(Abs(), Error(waiting[i]))
    {
      ghost var s := Abs();
      var i := 0;
      while i < |waiting|
        invariant i <= |waiting| && Valid() && Abs() == Reported(s, waiting[..i])
      {
        ReportedNext(s, waiting, i);
        ReportError(waiting[i]);
        i := i + 1;
      }
      assert waiting[..i] == waiting;
      ReportedIs(s, waiting);
    }

    /** One item off a dying thread's queue. */
    method PassOn(t: Tid, p: Pid, dead: bool) returns (w: Item)
      requires Valid() && ThreadTodo(t) in lists && lists[ThreadTodo(t)] != [] && ProcTodo(p) in lists
      modifies this`lists, this`home
      ensures Valid() && w == old(lists)[ThreadTodo(t)][0] && w in old(home) && Fits(ThreadTodo(t), w)
      ensures lists == old(lists)[ThreadTodo(t) := old(lists)[ThreadTodo(t)][1..]][ProcTodo(p) :=
        old(lists)[ProcTodo(p)] + if w.Txn? && !dead then [w] else []]
      ensures home == Passing(old(home), w, p, dead)
    {
      assert lists[ProcTodo(p)] + [] == lists[ProcTodo(p)];
      w := Pop(ThreadTodo(t));
      if w.Txn? {
        if dead {
          Free(w);
        } else {
          QueueInsert(ProcTodo(p), w, false);
        }
      } else if w.Completion? {
        Free(w);
      }
    }

    /** The todo loop of binder_thread_release: transactions go back to a living process, or are freed with it. */
    method DrainThread(t: Tid, p: Pid, dead: bool)
      requires Valid() && ThreadTodo(t) in lists && ProcTodo(p) in lists
      modifies this`lists, this`home
      ensures Valid() && lists == Drained(old(lists), t, p, dead, |old(lists)[ThreadTodo(t)]|)
      ensures home.Keys == old(home.Keys) - Freed(old(lists)[ThreadTodo(t)], dead)
      ensures Passed(old(home), home, Among(old(lists)[ThreadTodo(t)]), p, dead)
      ensures OthersStay(old(home), home, t)
    {
      ghost var was, done := Abs(), 0;
      DrainingNone(was, t, p, dead);
      while lists[ThreadTodo(t)] != []
        invariant Valid() && Draining(was, Abs(), t, p, dead, done)
        decreases |was.lists[ThreadTodo(t)]| - done
      {
        ghost var before := Abs();
        var w := PassOn(t, p, dead);
        DrainingNext(was, before, Abs(), t, p, dead, done, w);
        done := done + 1;
      }
      DrainingEnd(was, Abs(), t, p, dead);
    }

    /** binder_thread_release. Every item on the thread's own queue is unlinked before the thread is freed, and those
        who wait on it are told. */
    method ExitThread(t: Tid, p: Pid, dead: bool, waiting: seq<Tid>)
      requires Valid() && ThreadTodo(t) in lists && ProcTodo(p) in lists && t !in waiting && AllThere(Abs(), waiting)
      modifies this`lists, this`home
      ensures Valid() && lists.Keys == old(lists.Keys) - {ThreadTodo(t)} && Error(t) !in home
      ensures lists[ProcTodo(p)] == old(lists)[ProcTodo(p)] + if dead then [] else Txns(old(lists)[ThreadTodo(t)])
      ensures home.Keys == old(home.Keys) - Freed(old(lists)[ThreadTodo(t)], dead) - {Error(t)}
      ensures Passed(old(home), home, Among(old(lists)[ThreadTodo(t)]), p, dead) && ErrorsStay(old(home), home, {t})
      ensures forall i | 0 <= i < |waiting| :: Queued(Abs(), Error(waiting[i]))
    {
      ReportAll(waiting);
      assert lists[ThreadTodo(t)] == old(lists)[ThreadTodo(t)] && lists[ProcTodo(p)] == old(lists)[ProcTodo(p)];
      ghost var mid := Abs();
      DrainAndFree(t, p, dead);
      ReportedThen(old(Abs()), mid, home, waiting, Among(old(lists)[ThreadTodo(t)]), p, dead, t);
    }

    method DrainAndFree(t: Tid, p: Pid, dead: bool)
      requires Valid() && ThreadTodo(t) in lists && ProcTodo(p) in lists
      modifies this`lists, this`home
      ensures Valid() && lists.Keys == old(lists.Keys) - {ThreadTodo(t)}
      ensures home.Keys == old(home.Keys) - Freed(old(lists)[ThreadTodo(t)], dead) - {Error(t)}
      ensures lists[ProcTodo(p)] == old(lists)[ProcTodo(p)] + if dead then [] else Txns(old(lists)[ThreadTodo(t)])
      ensures Passed(old(home), home, Among(old(lists)[ThreadTodo(t)]), p, dead) && ErrorsStay(old(home), home, {t})
    {
      ghost var was := Abs();
      DrainThread(t, p, dead);
      DrainedLast(was.lists, t, p, dead);
      ThreadGone(was.home, home, Among(was.lists[ThreadTodo(t)]), p, dead, t);
      FreeThread(t);
    }

    /** An item off a dying process's queue is answered if it is a call whose sender is still there, and freed. */
    method Answer(w: Item, callers: map<Item, Tid>)
      requires Valid() && w in home && home[w].None? && !w.Error?
      requires w in callers ==> ThreadTodo(callers[w]) in lists
      modifies this`lists, this`home
      ensures Valid() && lists.Keys == old(lists.Keys)
      ensures forall h | h in lists && !h.ThreadTodo? :: lists[h] == old(lists)[h]
      ensures Passed(old(home), home, {w}, 0, true) && ErrorsStay(old(home), home, {})
      ensures w.Txn? && w in callers ==> Queued(Abs(), Error(callers[w]))
    {
      if w.Txn? {
        if w in callers { ReportError(callers[w]); }
        Free(w);
      } else if w.Completion? {
        Free(w);
      }
    }

    /** One item off a dying process's queue; a sender who is still there is told. */
    method Discard(p: Pid, callers: map<Item, Tid>) returns (w: Item)
      requires Valid() && ProcTodo(p) in lists && lists[ProcTodo(p)] != []
      requires forall w | w in callers :: ThreadTodo(callers[w]) in lists
      modifies this`lists, this`home
      ensures Valid() && w == old(lists)[ProcTodo(p)][0] && lists.Keys == old(lists.Keys)
      ensures lists[ProcTodo(p)] == old(lists)[ProcTodo(p)][1..]
      ensures Passed(old(home), home, {w}, p, true) && ErrorsStay(old(home), home, {})
      ensures w.Txn? && w in callers ==> Queued(Abs(), Error(callers[w]))
    {
      w := Pop(ProcTodo(p));
      Answer(w, callers);
    }

    /** The todo loop of binder_proc_release; `callers` are the senders who are still there, and each is told. */
    method DrainProc(p: Pid, callers: map<Item, Tid>)
      requires Valid() && ProcTodo(p) in lists && forall w | w in callers :: ThreadTodo(callers[w]) in lists
      modifies this`lists, this`home
      ensures Valid() && lists.Keys == old(lists.Keys) && lists[ProcTodo(p)] == []
      ensures home.Keys == old(home.Keys) - Freed(old(lists)[ProcTodo(p)], true)
      ensures Passed(old(home), home, Among(old(lists)[ProcTodo(p)]), p, true) && ErrorsStay(old(home), home, {})
      ensures forall w | w in old(lists)[ProcTodo(p)] && w.Txn? && w in callers :: Queued(Abs(), Error(callers[w]))
    {
      ghost var was, done := Abs(), 0;
      while lists[ProcTodo(p)] != []
        invariant Valid() && lists.Keys == was.lists.Keys && Emptying(was, Abs(), p, callers, done)
        invariant lists[ProcTodo(p)] == was.lists[ProcTodo(p)][done..]
        decreases |was.lists[ProcTodo(p)]| - done
      {
        ghost var before := Abs();
        var w := Discard(p, callers);
        EmptyingNext(was, before, Abs(), p, callers, done, w);
        done := done + 1;
      }
      assert was.lists[ProcTodo(p)][..done] == was.lists[ProcTodo(p)];
      PassedKeys(was.home, home, was.lists[ProcTodo(p)], p, true);
    }

    /** The end of binder_proc_release: what is queued is answered or freed, the threads go, and the process's
        own queue is empty when it is freed. Everybody else who waited on it has been told, and nothing that was
        queued elsewhere has moved. */
    method CloseQueues(p: Pid, callers: map<Item, Tid>, threads: seq<Tid>, waiting: seq<seq<Tid>>)
      requires Valid() && MayClose(Abs(), p, callers, threads, waiting)
      modifies this`lists, this`home
      ensures Valid() && lists.Keys == old(lists.Keys) - {ProcTodo(p)} - (set t | t in threads :: ThreadTodo(t))
      ensures Passed(old(home), home, Carried(old(home), p, threads), p, true)
      ensures ErrorsStay(old(home), home, Tids(threads))
      ensures AllTold(old(Abs()), Abs(), p, callers, threads, waiting, |threads|)
    {
      ghost var was := Abs();
      DrainProc(p, callers);
      CarriedFirst(was, p);
      CloseThreads(was, p, callers, threads, waiting);
      assert threads[..|threads|] == threads;
      FreeProc(p);
    }

    /** The thread loop of binder_proc_release. */
    method CloseThreads(ghost was: Work, p: Pid, ghost callers: map<Item, Tid>, threads: seq<Tid>, waiting: seq<seq<Tid>>)
      requires Valid() && MayClose(was, p, callers, threads, waiting)
      requires Closing(was, Abs(), p, threads, 0) && AllTold(was, Abs(), p, callers, threads, waiting, 0)
      modifies this`lists, this`home
      ensures Valid() && Closing(was, Abs(), p, threads, |threads|)
      ensures AllTold(was, Abs(), p, callers, threads, waiting, |threads|)
    {
      var i := 0;
      while i < |threads|
        invariant i <= |threads| && Valid() && Closing(was, Abs(), p, threads, i)
        invariant AllTold(was, Abs(), p, callers, threads, waiting, i)
      {
        ghost var before := Abs();
        StillThere(was, before, p, callers, threads, waiting, i);
        ExitThread(threads[i], p, true, waiting[i]);
        ClosingNext(was, before, Abs(), p, threads, i);
        AllToldNext(was, before, Abs(), p, callers, threads, waiting, i);
        i := i + 1;
      }
    }
  }

  datatype Outcome = Kept | Finished | Again | Full
}
