/**
 The per-checkout serializer of the boundary-sync lane: a promise chain per key, where an operation
 is linked under the realpath and under the literal path of its checkout.

 An operation passes through five phases.  `queue` registers it in one synchronous step; its body
 starts once every promise it was chained on has settled; the body returns or throws; the stored
 promise (which swallows the failure) settles one step later; and the `finally` handler drops the
 chain entries that still point at it.  Every interleaving of these steps is a trace.
 */
module LaneQueue {
  import opened Wrappers

  type Key = string

  datatype Phase = Waiting | Running | Returned(ok: bool) | Settled | Cleaned

  datatype Op = Op(keys: seq<Key>, priors: seq<nat>, phase: Phase)

  /** `ops` is every operation in queue order; `chains` maps a key to the operation whose stored
      promise is the tail of that key's chain. */
  datatype LaneState = LaneState(ops: seq<Op>, chains: map<Key, nat>)

  datatype Action =
    | Enqueue(keys: seq<Key>)
    | Start(i: nat)
    | Return(i: nat, ok: bool)
    | Settle(i: nat)
    | Cleanup(i: nat)

  const EMPTY := LaneState([], map[])

  /** The keys of one call: realpath and literal path, or the literal path alone when they agree or
      when the realpath cannot be resolved. */
  function KeysFor(resolved: Key, realPath: Option<Key>): seq<Key> {
    match realPath
    case None => [resolved]
    case Some(r) => if r == resolved then [resolved] else [r, resolved]
  }

  function PhaseRank(p: Phase): nat {
    match p
    case Waiting => 4
    case Running => 3
    case Returned(_) => 2
    case Settled => 1
    case Cleaned => 0
  }

  predicate HasStarted(o: Op) {
    PhaseRank(o.phase) < 4
  }

  /** The stored promise has settled, whether or not the body failed. */
  predicate HasSettled(o: Op) {
    PhaseRank(o.phase) <= 1
  }

  predicate Shares(a: Op, b: Op) {
    exists k :: k in a.keys && k in b.keys
  }

  /** The stored promises found under `keys`, in key order. */
  function Priors(chains: map<Key, nat>, keys: seq<Key>): seq<nat> {
    if keys == [] then []
    else (if keys[0] in chains then [chains[keys[0]]] else []) + Priors(chains, keys[1..])
  }

  /** Every key now points at operation `id`. */
  function Link(chains: map<Key, nat>, keys: seq<Key>, id: nat): map<Key, nat>
    decreases |keys|
  {
    if keys == [] then chains else Link(chains[keys[0] := id], keys[1..], id)
  }

  /** Drops the keys that still point at operation `id`. */
  function Unlink(chains: map<Key, nat>, keys: seq<Key>, id: nat): map<Key, nat>
    decreases |keys|
  {
    if keys == [] then chains
    else
      var rest := if keys[0] in chains && chains[keys[0]] == id then chains - {keys[0]} else chains;
      Unlink(rest, keys[1..], id)
  }

  ghost predicate Enabled(s: LaneState, a: Action) {
    match a
    case Enqueue(_) => true
    case Start(i) =>
      && i < |s.ops|
      && s.ops[i].phase == Waiting
      && forall p :: p in s.ops[i].priors && p < |s.ops| ==> HasSettled(s.ops[p])
    case Return(i, _) => i < |s.ops| && s.ops[i].phase == Running
    case Settle(i) => i < |s.ops| && s.ops[i].phase.Returned?
    case Cleanup(i) => i < |s.ops| && s.ops[i].phase == Settled
  }

  function SetPhase(s: LaneState, i: nat, p: Phase): LaneState
    requires i < |s.ops|
  {
    s.(ops := s.ops[i := s.ops[i].(phase := p)])
  }

  function Apply(s: LaneState, a: Action): LaneState
    requires a.Enqueue? || a.i < |s.ops|
  {
    match a
    case Enqueue(keys) =>
      LaneState(s.ops + [Op(keys, Priors(s.chains, keys), Waiting)], Link(s.chains, keys, |s.ops|))
    case Start(i) => SetPhase(s, i, Running)
    case Return(i, ok) => SetPhase(s, i, Returned(ok))
    case Settle(i) => SetPhase(s, i, Settled)
    case Cleanup(i) => SetPhase(s, i, Cleaned).(chains := Unlink(s.chains, s.ops[i].keys, i))
  }

  ghost predicate Reaches(s: LaneState, trace: seq<Action>, t: LaneState)
    decreases |trace|
  {
    if trace == [] then s == t
    else Enabled(s, trace[0]) && Reaches(Apply(s, trace[0]), trace[1..], t)
  }

  // ---------------------------------------------------------------------------------------------
  // The invariant of every interleaving

  /** A chain entry points at the last operation queued under its key. */
  ghost predicate TailsAreLast(s: LaneState) {
    forall k :: k in s.chains ==>
      && s.chains[k] < |s.ops|
      && k in s.ops[s.chains[k]].keys
      && s.ops[s.chains[k]].phase != Cleaned
      && forall j :: s.chains[k] < j < |s.ops| ==> k !in s.ops[j].keys
  }

  /** A key without a chain entry has only settled operations. */
  ghost predicate AbsentIsSettled(s: LaneState) {
    forall k, i :: 0 <= i < |s.ops| && k in s.ops[i].keys && k !in s.chains ==> HasSettled(s.ops[i])
  }

  ghost predicate PriorsAreEarlier(s: LaneState) {
    forall i, p :: 0 <= i < |s.ops| && p in s.ops[i].priors ==> p < i
  }

  /** An earlier operation under a shared key is settled, or this one waits for it or for a later one
      under the same key. */
  ghost predicate Covered(s: LaneState, j: nat, i: nat, k: Key)
    requires j < i < |s.ops|
  {
    HasSettled(s.ops[j]) || exists p :: p in s.ops[i].priors && j <= p < i && k in s.ops[p].keys
  }

  ghost predicate PriorsCover(s: LaneState) {
    forall j: nat, i: nat, k :: j < i < |s.ops| && k in s.ops[j].keys && k in s.ops[i].keys ==> Covered(s, j, i, k)
  }

  ghost predicate StartedInOrder(s: LaneState) {
    forall j: nat, i: nat, k :: j < i < |s.ops| && k in s.ops[j].keys && k in s.ops[i].keys && HasStarted(s.ops[i])
                                ==> HasSettled(s.ops[j])
  }

  ghost predicate Inv(s: LaneState) {
    TailsAreLast(s) && AbsentIsSettled(s) && PriorsAreEarlier(s) && PriorsCover(s) && StartedInOrder(s)
  }

  lemma {:induction false} PriorsMember(chains: map<Key, nat>, keys: seq<Key>)
    ensures forall k :: k in keys && k in chains ==> chains[k] in Priors(chains, keys)
    ensures forall p :: p in Priors(chains, keys) ==> exists k :: k in keys && k in chains && chains[k] == p
  {
    if keys != [] {
      PriorsMember(chains, keys[1..]);
      assert keys == [keys[0]] + keys[1..];
    }
  }

  lemma {:induction false} LinkMember(chains: map<Key, nat>, keys: seq<Key>, id: nat)
    ensures forall k :: k in Link(chains, keys, id) <==> k in chains || k in keys
    ensures forall k :: k in Link(chains, keys, id) ==> Link(chains, keys, id)[k] == if k in keys then id else chains[k]
    decreases |keys|
  {
    if keys != [] {
      LinkMember(chains[keys[0] := id], keys[1..], id);
      assert keys == [keys[0]] + keys[1..];
    }
  }

  lemma {:induction false} UnlinkMember(chains: map<Key, nat>, keys: seq<Key>, id: nat)
    ensures forall k :: k in Unlink(chains, keys, id) <==> k in chains && !(k in keys && chains[k] == id)
    ensures forall k :: k in Unlink(chains, keys, id) ==> Unlink(chains, keys, id)[k] == chains[k]
    decreases |keys|
  {
    if keys != [] {
      var rest := if keys[0] in chains && chains[keys[0]] == id then chains - {keys[0]} else chains;
      UnlinkMember(rest, keys[1..], id);
      assert keys == [keys[0]] + keys[1..];
    }
  }

  lemma EnqueueKeepsCover(s: LaneState, keys: seq<Key>)
    requires Inv(s)
    ensures PriorsCover(Apply(s, Enqueue(keys)))
  {
    var t := Apply(s, Enqueue(keys));
    PriorsMember(s.chains, keys);
    forall j: nat, i: nat, k | j < i < |t.ops| && k in t.ops[j].keys && k in t.ops[i].keys
      ensures Covered(t, j, i, k)
    {
      if i < |s.ops| {
        assert t.ops[i] == s.ops[i] && t.ops[j] == s.ops[j] && Covered(s, j, i, k);
        if !HasSettled(t.ops[j]) {
          var p :| p in s.ops[i].priors && j <= p < i && k in s.ops[p].keys;
          assert t.ops[p] == s.ops[p];
        }
      } else if k in s.chains {
        var p := s.chains[k];
        assert p in t.ops[i].priors && j <= p && k in t.ops[p].keys;
      } else {
        assert HasSettled(s.ops[j]);
      }
    }
  }

  lemma EnqueueKeepsChains(s: LaneState, keys: seq<Key>)
    requires TailsAreLast(s) && AbsentIsSettled(s)
    ensures TailsAreLast(Apply(s, Enqueue(keys))) && AbsentIsSettled(Apply(s, Enqueue(keys)))
  {
    LinkMember(s.chains, keys, |s.ops|);
    var t := Apply(s, Enqueue(keys));
    assert forall i :: 0 <= i < |s.ops| ==> t.ops[i] == s.ops[i];
  }

  lemma EnqueueKeepsOrder(s: LaneState, keys: seq<Key>)
    requires TailsAreLast(s) && PriorsAreEarlier(s) && StartedInOrder(s)
    ensures PriorsAreEarlier(Apply(s, Enqueue(keys))) && StartedInOrder(Apply(s, Enqueue(keys)))
  {
    PriorsMember(s.chains, keys);
    var t := Apply(s, Enqueue(keys));
    assert forall i :: 0 <= i < |s.ops| ==> t.ops[i] == s.ops[i];
  }

  lemma EnqueueKeepsInv(s: LaneState, keys: seq<Key>)
    requires Inv(s)
    ensures Inv(Apply(s, Enqueue(keys)))
  {
    EnqueueKeepsCover(s, keys);
    EnqueueKeepsChains(s, keys);
    EnqueueKeepsOrder(s, keys);
  }

  /** Once its priors have settled, everything earlier under a shared key has settled. */
  lemma StartKeepsInv(s: LaneState, i: nat)
    requires Inv(s) && Enabled(s, Start(i))
    ensures Inv(Apply(s, Start(i)))
  {
    var t := Apply(s, Start(i));
    forall j: nat, k | j < i && k in s.ops[j].keys && k in s.ops[i].keys
      ensures HasSettled(s.ops[j])
    {
      assert Covered(s, j, i, k);
      if p :| p in s.ops[i].priors && j <= p < i && k in s.ops[p].keys {
        assert HasSettled(s.ops[p]) && HasStarted(s.ops[p]);
      }
    }
    PhaseStepKeepsCover(s, t);
  }

  /** Steps that change phases only forward keep the parts of the invariant that mention settling. */
  lemma PhaseStepKeepsCover(s: LaneState, t: LaneState)
    requires PriorsCover(s)
    requires |s.ops| == |t.ops|
    requires forall i :: 0 <= i < |s.ops| ==> t.ops[i].keys == s.ops[i].keys && t.ops[i].priors == s.ops[i].priors
    requires forall i :: 0 <= i < |s.ops| ==> HasSettled(s.ops[i]) ==> HasSettled(t.ops[i])
    ensures PriorsCover(t)
  {
    forall j: nat, i: nat, k | j < i < |t.ops| && k in t.ops[j].keys && k in t.ops[i].keys
      ensures Covered(t, j, i, k)
    {
      assert k in s.ops[j].keys && k in s.ops[i].keys;
      assert Covered(s, j, i, k);
      if !HasSettled(t.ops[j]) {
        var p :| p in s.ops[i].priors && j <= p < i && k in s.ops[p].keys;
        assert p in t.ops[i].priors && k in t.ops[p].keys;
      }
    }
  }

  lemma AdvanceKeepsInv(s: LaneState, a: Action)
    requires Inv(s) && Enabled(s, a) && (a.Return? || a.Settle?)
    ensures Inv(Apply(s, a))
  {
    PhaseStepKeepsCover(s, Apply(s, a));
  }

  lemma CleanupKeepsChains(s: LaneState, i: nat)
    requires TailsAreLast(s) && AbsentIsSettled(s) && StartedInOrder(s) && Enabled(s, Cleanup(i))
    ensures TailsAreLast(Apply(s, Cleanup(i))) && AbsentIsSettled(Apply(s, Cleanup(i)))
  {
    var t := Apply(s, Cleanup(i));
    UnlinkMember(s.chains, s.ops[i].keys, i);
    forall k, j | 0 <= j < |t.ops| && k in t.ops[j].keys && k !in t.chains
      ensures HasSettled(t.ops[j])
    {
      if k in s.chains && j < i {
        assert s.chains[k] == i && HasStarted(s.ops[i]) && k in s.ops[j].keys;
      }
    }
  }

  lemma CleanupKeepsInv(s: LaneState, i: nat)
    requires Inv(s) && Enabled(s, Cleanup(i))
    ensures Inv(Apply(s, Cleanup(i)))
  {
    PhaseStepKeepsCover(s, Apply(s, Cleanup(i)));
    CleanupKeepsChains(s, i);
  }

  lemma StepKeepsInv(s: LaneState, a: Action)
    requires Inv(s) && Enabled(s, a)
    ensures Inv(Apply(s, a))
  {
    match a
    case Enqueue(keys) => EnqueueKeepsInv(s, keys);
    case Start(i) => StartKeepsInv(s, i);
    case Cleanup(i) => CleanupKeepsInv(s, i);
    case _ => AdvanceKeepsInv(s, a);
  }

  lemma {:induction false} RunKeepsInv(s: LaneState, trace: seq<Action>, t: LaneState)
    requires Inv(s) && Reaches(s, trace, t)
    ensures Inv(t)
    decreases |trace|
  {
    if trace != [] {
      StepKeepsInv(s, trace[0]);
      RunKeepsInv(Apply(s, trace[0]), trace[1..], t);
    }
  }

  // ---------------------------------------------------------------------------------------------
  // What the lane promises

  /** In every interleaving, an operation starts only after everything queued before it under a shared
      key has settled, it waits on nothing queued later, and a key without a chain entry has no
      unsettled operation. */
  lemma SerializedInQueueOrder(trace: seq<Action>, t: LaneState, i: nat, j: nat)
    requires Reaches(EMPTY, trace, t) && j < i < |t.ops|
    ensures Shares(t.ops[j], t.ops[i]) && HasStarted(t.ops[i]) ==> HasSettled(t.ops[j])
    ensures Shares(t.ops[j], t.ops[i]) ==> !(t.ops[i].phase == Running && t.ops[j].phase == Running)
    ensures forall p :: p in t.ops[i].priors ==> p < i
    ensures forall k :: k in t.ops[i].keys && k !in t.chains ==> HasSettled(t.ops[i])
  {
    RunKeepsInv(EMPTY, trace, t);
  }

  function TotalRank(ops: seq<Op>): nat {
    if ops == [] then 0 else PhaseRank(ops[0].phase) + TotalRank(ops[1..])
  }

  lemma {:induction false} RankAfterUpdate(ops: seq<Op>, i: nat, o: Op)
    requires i < |ops|
    ensures TotalRank(ops[i := o]) + PhaseRank(ops[i].phase) == TotalRank(ops) + PhaseRank(o.phase)
  {
    if i > 0 {
      RankAfterUpdate(ops[1..], i - 1, o);
      assert ops[i := o][1..] == ops[1..][i - 1 := o];
    } else {
      assert ops[i := o][1..] == ops[1..];
    }
  }

  /** Every step other than a new enqueue brings the lane one step nearer to drained, so no run can
      go on forever without new work, whether operations fail or not. */
  lemma {:induction false} RunsDrain(s: LaneState, trace: seq<Action>, t: LaneState)
    requires Reaches(s, trace, t)
    requires forall a :: a in trace ==> !a.Enqueue?
    ensures TotalRank(t.ops) + |trace| == TotalRank(s.ops)
    decreases |trace|
  {
    if trace != [] {
      var a := trace[0];
      assert a in trace;
      var u := Apply(s, a);
      RankAfterUpdate(s.ops, a.i, u.ops[a.i]);
      RunsDrain(u, trace[1..], t);
    }
  }

  /** No deadlock: in every reachable state some operation can move on unless all are cleaned up, and
      then no chain entry is left. */
  lemma NoDeadlock(trace: seq<Action>, t: LaneState)
    requires Reaches(EMPTY, trace, t)
    requires forall a :: Enabled(t, a) ==> a.Enqueue?
    ensures forall i :: 0 <= i < |t.ops| ==> t.ops[i].phase == Cleaned
    ensures t.chains == map[]
  {
    RunKeepsInv(EMPTY, trace, t);
    forall i: nat | i < |t.ops|
      ensures t.ops[i].phase == Cleaned
    {
      StuckIsCleaned(t, i);
    }
    assert t.chains.Keys == {};
  }

  lemma {:induction false} StuckIsCleaned(t: LaneState, i: nat)
    requires Inv(t) && i < |t.ops|
    requires forall a :: Enabled(t, a) ==> a.Enqueue?
    ensures t.ops[i].phase == Cleaned
  {
    forall j: nat | j < i
      ensures t.ops[j].phase == Cleaned
    {
      StuckIsCleaned(t, j);
    }
    assert !Enabled(t, Start(i)) && !Enabled(t, Return(i, true)) && !Enabled(t, Settle(i)) && !Enabled(t, Cleanup(i));
  }

  /** Two calls name one checkout as far as the lane can tell: some path of one, literal or real, is a path
      of the other. */
  predicate OnePlace(a: Key, realA: Option<Key>, b: Key, realB: Option<Key>) {
    a == b || realA == Some(b) || realB == Some(a) || (realA.Some? && realA == realB)
  }

  lemma SharesIffOnePlace(a: Key, realA: Option<Key>, b: Key, realB: Option<Key>)
    ensures (exists k :: k in KeysFor(a, realA) && k in KeysFor(b, realB)) <==> OnePlace(a, realA, b, realB)
  {
    assert a in KeysFor(a, realA) && b in KeysFor(b, realB);
    assert realA.Some? ==> realA.value in KeysFor(a, realA);
    assert realB.Some? ==> realB.value in KeysFor(b, realB);
  }

  /** So in every interleaving, whatever else is queued: of two calls that name one checkout the later one
      starts only once the earlier one has settled. */
  lemma OneCheckoutIsSerialized(trace: seq<Action>, t: LaneState, i: nat, j: nat, a: Key, realA: Option<Key>, b: Key, realB: Option<Key>)
    requires Reaches(EMPTY, trace, t) && j < i < |t.ops|
    requires t.ops[j].keys == KeysFor(a, realA) && t.ops[i].keys == KeysFor(b, realB) && OnePlace(a, realA, b, realB)
    ensures HasStarted(t.ops[i]) ==> HasSettled(t.ops[j])
    ensures !(t.ops[i].phase == Running && t.ops[j].phase == Running)
  {
    SharesIffOnePlace(a, realA, b, realB);
    SerializedInQueueOrder(trace, t, i, j);
  }

  /** The exact reach of the guarantee: two calls on an idle lane can run at the same time if and only if
      their literal paths differ, neither's realpath is the other's literal path, and their realpaths are not
      both known and equal.  Two spellings of one checkout during a realpath outage are therefore not
      serialized. */
  lemma OverlapIffApart(a: Key, realA: Option<Key>, b: Key, realB: Option<Key>)
    ensures (exists rest, t :: Reaches(EMPTY, [Enqueue(KeysFor(a, realA)), Enqueue(KeysFor(b, realB))] + rest, t)
                               && |t.ops| == 2 && t.ops[0].phase == Running && t.ops[1].phase == Running)
            <==> a != b && realA != Some(b) && realB != Some(a) && (realA.None? || realA != realB)
  {
    SharesIffOnePlace(a, realA, b, realB);
    OverlapIffDisjointKeys(KeysFor(a, realA), KeysFor(b, realB));
  }

  lemma OverlapIffDisjointKeys(keysA: seq<Key>, keysB: seq<Key>)
    ensures (exists rest, t :: Reaches(EMPTY, [Enqueue(keysA), Enqueue(keysB)] + rest, t)
                               && |t.ops| == 2 && t.ops[0].phase == Running && t.ops[1].phase == Running)
            <==> !exists k :: k in keysA && k in keysB
  {
    if k :| k in keysA && k in keysB {
      var queued := [Enqueue(keysA), Enqueue(keysB)];
      forall rest, t | Reaches(EMPTY, queued + rest, t) && |t.ops| == 2
        ensures !(t.ops[0].phase == Running && t.ops[1].phase == Running)
      {
        FirstTwoKeys(keysA, keysB, rest, t);
        SerializedInQueueOrder(queued + rest, t, 1, 0);
      }
    } else {
      DisjointOverlap(keysA, keysB);
    }
  }

  lemma DisjointOverlap(keysA: seq<Key>, keysB: seq<Key>)
    requires forall k :: k in keysA ==> k !in keysB
    ensures exists rest, t :: Reaches(EMPTY, [Enqueue(keysA), Enqueue(keysB)] + rest, t)
                              && |t.ops| == 2 && t.ops[0].phase == Running && t.ops[1].phase == Running
  {
    var s1 := Apply(EMPTY, Enqueue(keysA));
    var s2 := Apply(s1, Enqueue(keysB));
    PriorsMember(EMPTY.chains, keysA);
    PriorsMember(s1.chains, keysB);
    LinkMember(EMPTY.chains, keysA, 0);
    var s3 := Apply(s2, Start(0));
    var s4 := Apply(s3, Start(1));
    assert Reaches(s4, [], s4);
    assert [Start(1)][1..] == [];
    assert Reaches(s3, [Start(1)], s4);
    assert [Start(0), Start(1)][1..] == [Start(1)];
    assert Reaches(s2, [Start(0), Start(1)], s4);
    var tail := [Enqueue(keysB)] + [Start(0), Start(1)];
    assert tail[1..] == [Start(0), Start(1)];
    assert Reaches(s1, tail, s4);
    var all := [Enqueue(keysA), Enqueue(keysB)] + [Start(0), Start(1)];
    assert all[0] == Enqueue(keysA) && all[1..] == tail;
    assert Reaches(EMPTY, all, s4);
  }

  lemma FirstTwoKeys(keysA: seq<Key>, keysB: seq<Key>, rest: seq<Action>, t: LaneState)
    requires Reaches(EMPTY, [Enqueue(keysA), Enqueue(keysB)] + rest, t)
    ensures |t.ops| >= 2 && t.ops[0].keys == keysA && t.ops[1].keys == keysB
  {
    var all := [Enqueue(keysA), Enqueue(keysB)] + rest;
    var s1 := Apply(EMPTY, Enqueue(keysA));
    assert all[0] == Enqueue(keysA) && all[1..][0] == Enqueue(keysB) && all[1..][1..] == rest;
    RunKeepsKeys(Apply(s1, Enqueue(keysB)), rest, t);
  }

  lemma {:induction false} RunKeepsKeys(s: LaneState, trace: seq<Action>, t: LaneState)
    requires Reaches(s, trace, t)
    ensures |s.ops| <= |t.ops|
    ensures forall i :: 0 <= i < |s.ops| ==> t.ops[i].keys == s.ops[i].keys
    decreases |trace|
  {
    if trace != [] {
      RunKeepsKeys(Apply(s, trace[0]), trace[1..], t);
    }
  }

  // ---------------------------------------------------------------------------------------------
  // The lane object

  class BoundarySyncLane {
    /** One entry per promise ever queued. */
    var ops: seq<Op>
    var chains: map<Key, nat>

    ghost function View(): LaneState
      reads this
    {
      LaneState(ops, chains)
    }

    constructor ()
      ensures View() == EMPTY
    {
      ops, chains := [], map[];
    }

    /** One synchronous call of `queue`. */
    method Queue(resolved: Key, realPath: Option<Key>) returns (id: nat)
      modifies this
      ensures id == |old(ops)|
      ensures View() == Apply(old(View()), Enqueue(KeysFor(resolved, realPath)))
      ensures forall k :: k in ops[id].keys <==> k == resolved || realPath == Some(k)
    {
      var keys := KeysFor(resolved, realPath);
      id := |ops|;
      ops := ops + [Op(keys, Priors(chains, keys), Waiting)];
      for i := 0 to |keys|
        invariant ops == old(ops) + [Op(keys, Priors(old(chains), keys), Waiting)]
        invariant Link(chains, keys[i..], id) == Link(old(chains), keys, id)
      {
        assert keys[i..][0] == keys[i] && keys[i..][1..] == keys[i + 1..];
        chains := chains[keys[i] := id];
      }
    }

    method StartBody(i: nat)
      requires Enabled(View(), Start(i))
      modifies this`ops
      ensures View() == Apply(old(View()), Start(i))
    {
      ops := ops[i := ops[i].(phase := Running)];
    }

    /** The body resolved or threw. */
    method ReturnBody(i: nat, ok: bool)
      requires Enabled(View(), Return(i, ok))
      modifies this`ops
      ensures View() == Apply(old(View()), Return(i, ok))
    {
      ops := ops[i := ops[i].(phase := Returned(ok))];
    }

    method SettleStored(i: nat)
      requires Enabled(View(), Settle(i))
      modifies this`ops
      ensures View() == Apply(old(View()), Settle(i))
    {
      ops := ops[i := ops[i].(phase := Settled)];
    }

    /** The `finally` handler. */
    method DropDrained(i: nat)
      requires Enabled(View(), Cleanup(i))
      modifies this
      ensures View() == Apply(old(View()), Cleanup(i))
    {
      var keys := ops[i].keys;
      ops := ops[i := ops[i].(phase := Cleaned)];
      for n := 0 to |keys|
        invariant ops == old(ops)[i := old(ops)[i].(phase := Cleaned)]
        invariant Unlink(chains, keys[n..], i) == Unlink(old(chains), keys, i)
      {
        assert keys[n..][0] == keys[n] && keys[n..][1..] == keys[n + 1..];
        if keys[n] in chains && chains[keys[n]] == i {
          chains := chains - {keys[n]};
        }
      }
    }
  }
}
