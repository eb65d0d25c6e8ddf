/**
Telling an owner what has become of its object: binder_read_node_work compares what the owner was
told with what is true and emits the commands that close the gap (kext/binder_proc.c:661-732).
*/
module Reconcile {
  import opened Common
  import opened RefCounts

  datatype Cmd = BrIncrefs | BrAcquire | BrRelease | BrDecrefs

  /** A command word and the object's address and cookie. */
  const NODE_CMD_SIZE := 20

  /** What the owner has to be told. */
  function Commands(nd: Node): (cs: seq<Cmd>)
    ensures |cs| <= 2
  {
    (if Weak(nd) && !nd.hasWeak then [BrIncrefs] else []) +
    (if Strong(nd) && !nd.hasStrong then [BrAcquire] else []) +
    (if !Strong(nd) && nd.hasStrong then [BrRelease] else []) +
    (if !Weak(nd) && nd.hasWeak then [BrDecrefs] else [])
  }

  /** The node once its owner knows. */
  function Known(nd: Node): Node {
    nd.(hasStrong := Strong(nd), hasWeak := Weak(nd), queue := None)
  }

  predicate Fits(nd: Node, room: nat) { |Commands(nd)| * NODE_CMD_SIZE <= room }

  /** The owner reads a queued node into `room` bytes. Without room the node goes back where it was. */
  function ReadNode(s: State, n: NodeId, room: nat): (State, seq<Cmd>)
    requires n in s.nodes
  {
    var nd := s.nodes[n];
    if !Fits(nd, room) then (s, [])
    else
      var s1 := s.(nodes := s.nodes[n := Known(nd)]);
      (if BrDecrefs in Commands(nd) then MaybeFree(s1, n) else s1, Commands(nd))
  }

  lemma ReadNodeInv(s: State, n: NodeId, room: nat, lost: set<NodeId>)
    requires Inv(s, lost) && n in s.nodes
    ensures Inv(ReadNode(s, n, room).0, lost)
    ensures Fits(s.nodes[n], room) ==> Inv(ReadNode(s, n, room).0, lost - {n})
  {
    var nd := s.nodes[n];
    if Fits(nd, room) {
      SetNodeInv(s, n, Known(nd), lost);
      var s1 := s.(nodes := s.nodes[n := Known(nd)]);
      assert Inv(s1, lost - {n}) by { assert forall m | m in s1.nodes :: NodeOk(m, s1.nodes[m], lost - {n}); }
      MaybeFreeInv(s1, n, lost);
      MaybeFreeInv(s1, n, lost - {n});
    }
  }

  // ---------------------------------------------------------------- the code

  /** The fields of a node that the reading thread compares and sets. */
  class NodeRecord {
    var internal: nat
    var localStrong: nat
    var localWeak: nat
    var refs: set<Pid>
    var hasStrong: bool
    var hasWeak: bool

    /** The node this record is, in a state where it has just been taken off its queue. */
    ghost function View(nd: Node): Node
      reads this
    {
      nd.(internal := internal, localStrong := localStrong, localWeak := localWeak, refs := refs,
          hasStrong := hasStrong, hasWeak := hasWeak, queue := None)
    }

    /** All or nothing: the commands are costed before any is emitted, and then none can run out of room.
        `freed` says whether binder_node_release is reached. */
    method ReadNodeWork(ghost nd: Node, size: nat, consumed: nat)
      returns (full: bool, out: seq<Cmd>, consumed': nat, freed: bool)
      requires consumed <= size
      modifies this
      ensures full <==> !Fits(old(View(nd)), size - consumed)
      ensures full ==> View(nd) == old(View(nd)) && out == [] && consumed' == consumed && !freed
      ensures !full ==> View(nd) == Known(old(View(nd))) && out == Commands(old(View(nd)))
      ensures consumed' == consumed + |out| * NODE_CMD_SIZE <= size
      ensures freed <==> BrDecrefs in out
    {
      var strong := internal != 0 || localStrong != 0;
      var weak := strong || localWeak != 0 || refs != {};
      var needed := 0;
      out, consumed', full, freed := [], consumed, false, false;
      if weak && !hasWeak { needed := needed + 1; }
      if strong && !hasStrong { needed := needed + 1; }
      if !strong && hasStrong { needed := needed + 1; }
      if !weak && hasWeak { needed := needed + 1; }
      if needed == 0 { return; }
      if size - consumed < needed * NODE_CMD_SIZE {
        full := true;
        return;
      }
      if weak && !hasWeak {
        hasWeak := true;
        out, consumed' := out + [BrIncrefs], consumed' + NODE_CMD_SIZE;
      }
      if strong && !hasStrong {
        hasStrong := true;
        out, consumed' := out + [BrAcquire], consumed' + NODE_CMD_SIZE;
      }
      if !strong && hasStrong {
        hasStrong := false;
        out, consumed' := out + [BrRelease], consumed' + NODE_CMD_SIZE;
      }
      if !weak && hasWeak {
        hasWeak := false;
        out, consumed' := out + [BrDecrefs], consumed' + NODE_CMD_SIZE;
        freed := true;
      }
    }
  }

  // ---------------------------------------------------------------- the grammar

  /** `k` rounds of acquire and release. */
  function Rounds(k: nat): seq<Cmd> {
    if k == 0 then [] else Rounds(k - 1) + [BrAcquire, BrRelease]
  }

  /** One life of the weak reference, with `k` lives of the strong one inside it. */
  function Life(k: nat): seq<Cmd> { [BrIncrefs] + Rounds(k) + [BrDecrefs] }

  /** (INCREFS (ACQUIRE RELEASE)* DECREFS)*, one number of rounds per life. */
  function Lives(ks: seq<nat>): seq<Cmd> {
    if ks == [] then [] else Lives(ks[..|ks| - 1]) + Life(ks[|ks| - 1])
  }

  /** The life in progress: not begun, or `k` rounds in and maybe in the middle of one more. */
  function Current(weak: bool, strong: bool, k: nat): seq<Cmd> {
    if !weak then [] else [BrIncrefs] + Rounds(k) + (if strong then [BrAcquire] else [])
  }

  /** What an owner has been told is complete lives and the one in progress, which its flags describe. */
  ghost predicate ToldBy(out: seq<Cmd>, weak: bool, strong: bool) {
    exists ks: seq<nat>, k: nat :: ToldWith(out, ks, k, weak, strong)
  }

  predicate ToldWith(out: seq<Cmd>, ks: seq<nat>, k: nat, weak: bool, strong: bool) {
    out == Lives(ks) + Current(weak, strong, k)
  }

  ghost predicate InGrammar(out: seq<Cmd>) {
    exists ks: seq<nat> :: out <= Lives(ks)
  }

  lemma LivesAppend(ks: seq<nat>, k: nat)
    ensures Lives(ks + [k]) == Lives(ks) + Life(k)
  {
    assert (ks + [k])[..|ks|] == ks;
  }

  /** What flags describe is a prefix of the grammar. */
  lemma ToldInGrammar(out: seq<Cmd>, weak: bool, strong: bool)
    requires ToldBy(out, weak, strong)
    ensures InGrammar(out)
  {
    var ks: seq<nat>, k: nat :| ToldWith(out, ks, k, weak, strong);
    if !weak {
      assert out == Lives(ks);
    } else {
      LivesAppend(ks, k + 1);
      assert Life(k + 1) == Current(true, true, k) + [BrRelease, BrDecrefs];
      assert out <= Lives(ks + [k + 1]);
    }
  }

  /** The rounds of the life in progress once the commands are out. */
  function RoundsAfter(nd: Node, k: nat): nat {
    if nd.hasStrong && !Strong(nd) then k + 1 else k
  }

  /** Commands that leave the weak reference held only move the life in progress on. */
  lemma LifeGoesOn(nd: Node, k: nat)
    requires FlagsNode(nd) && Weak(nd)
    ensures nd.hasWeak ==>
      Current(true, nd.hasStrong, k) + Commands(nd) == Current(true, Strong(nd), RoundsAfter(nd, k))
    ensures !nd.hasWeak ==> Commands(nd) == Current(true, Strong(nd), 0)
  {
    assert Current(true, false, k + 1) == Current(true, true, k) + [BrRelease];
  }

  lemma LifeEnds(nd: Node, k: nat)
    requires FlagsNode(nd) && !Weak(nd)
    ensures nd.hasWeak ==> Current(true, nd.hasStrong, k) + Commands(nd) == Life(RoundsAfter(nd, k))
    ensures !nd.hasWeak ==> Commands(nd) == []
  {
    assert Current(true, true, k) + [BrRelease, BrDecrefs] == Life(k + 1);
    assert Current(true, false, k) + [BrDecrefs] == Life(k);
    assert nd.hasStrong ==> Commands(nd) == [BrRelease, BrDecrefs];
    assert nd.hasWeak && !nd.hasStrong ==> Commands(nd) == [BrDecrefs];
  }

  lemma MovesOn(out: seq<Cmd>, cs: seq<Cmd>, ks: seq<nat>, k: nat, nd: Node, k': nat)
    requires ToldWith(out, ks, k, nd.hasWeak, nd.hasStrong)
    requires Current(nd.hasWeak, nd.hasStrong, k) + cs == Current(Weak(nd), Strong(nd), k')
    ensures ToldWith(out + cs, ks, k', Weak(nd), Strong(nd))
  {}

  lemma Ends(out: seq<Cmd>, cs: seq<Cmd>, ks: seq<nat>, k: nat, strong: bool, k': nat)
    requires ToldWith(out, ks, k, true, strong) && Current(true, strong, k) + cs == Life(k')
    ensures ToldWith(out + cs, ks + [k'], 0, false, false)
  {
    LivesAppend(ks, k');
  }

  /** A reconciliation continues the stream by the rules, and its flags describe the result. */
  lemma CommandsContinue(out: seq<Cmd>, nd: Node)
    requires FlagsNode(nd) && ToldBy(out, nd.hasWeak, nd.hasStrong)
    ensures ToldBy(out + Commands(nd), Weak(nd), Strong(nd))
  {
    var ks: seq<nat>, k: nat :| ToldWith(out, ks, k, nd.hasWeak, nd.hasStrong);
    if Weak(nd) {
      LifeGoesOn(nd, k);
      MovesOn(out, Commands(nd), ks, k, nd, if nd.hasWeak then RoundsAfter(nd, k) else 0);
    } else {
      LifeEnds(nd, k);
      if nd.hasWeak {
        Ends(out, Commands(nd), ks, k, nd.hasStrong, RoundsAfter(nd, k));
      } else {
        MovesOn(out, Commands(nd), ks, k, nd, k);
      }
    }
  }
}
