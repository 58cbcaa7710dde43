/**
 The restart reattach: a new session takes over the held patches of its dead predecessor, but only those
 of its own checkout.
 */
module HeldReattach {
  import opened Wrappers
  import opened HeldLedger
  import opened HeldReplay
  import opened HeldStore

  /** What the new session names: its predecessor, itself, its checkout, and how a path is resolved. */
  datatype Reattach = Reattach(prior: string, agent: string, realDir: string, resolve: string -> string)

  predicate Matches(r: Reattach, h: HeldSync) {
    h.agentId == r.prior && r.resolve(h.realDir) == r.resolve(r.realDir)
  }

  /** The ids to take over, oldest first. */
  function MatchingIds(r: Reattach, b: Backlog): seq<HoldId> {
    if b == [] then [] else (if Matches(r, b[0]) then [b[0].id] else []) + MatchingIds(r, b[1..])
  }

  function RekeyAll(c: Codec, d: Disk, ids: seq<HoldId>, agent: string, env: seq<Append>): Disk
    requires |env| == |ids|
    decreases |ids|
  {
    if ids == [] then d else RekeyAll(c, Do(c, d, Rekey(ids[0], agent, env[0])), ids[1..], agent, env[1..])
  }

  predicate RekeyIsClean(c: Codec, d: Disk, ids: seq<HoldId>, agent: string, env: seq<Append>)
    requires |env| == |ids|
    decreases |ids|
  {
    ids != [] ==>
      Clean(c, d, env[0]) && RekeyIsClean(c, Do(c, d, Rekey(ids[0], agent, env[0])), ids[1..], agent, env[1..])
  }

  /** The ids whose rekey line is in the ledger afterwards. */
  function RekeyedIds(c: Codec, d: Disk, ids: seq<HoldId>, agent: string, env: seq<Append>): set<HoldId>
    requires |env| == |ids|
    decreases |ids|
  {
    if ids == [] then {}
    else
      (if Lands(c, d, Rekeyed(ids[0], agent), env[0]) then {ids[0]} else {})
      + RekeyedIds(c, Do(c, d, Rekey(ids[0], agent, env[0])), ids[1..], agent, env[1..])
  }

  /** The same list with some holds under a new owner. */
  function Reowned(b: Backlog, ids: set<HoldId>, agent: string): Backlog {
    seq(|b|, i requires 0 <= i < |b| => if b[i].id in ids then b[i].(agentId := agent) else b[i])
  }

  lemma ReownedTwice(b: Backlog, first: set<HoldId>, second: set<HoldId>, agent: string)
    ensures Reowned(Reowned(b, first, agent), second, agent) == Reowned(b, first + second, agent)
  {
  }

  lemma RekeyReowns(c: Codec, d: Disk, id: HoldId, agent: string, a: Append)
    requires Sound(c) && Clean(c, d, a)
    ensures Listing(c, Do(c, d, Rekey(id, agent, a)))
            == Reowned(Listing(c, d), if Lands(c, d, Rekeyed(id, agent), a) then {id} else {}, agent)
  {
    AppendEvents(c, d, Rekeyed(id, agent), a);
  }

  /** Whatever appends fail on the way, exactly the holds whose line landed change owner, in place. */
  lemma {:induction false} RekeyAllReowns(c: Codec, d: Disk, ids: seq<HoldId>, agent: string, env: seq<Append>)
    requires Sound(c) && |env| == |ids| && RekeyIsClean(c, d, ids, agent, env)
    ensures Listing(c, RekeyAll(c, d, ids, agent, env)) == Reowned(Listing(c, d), RekeyedIds(c, d, ids, agent, env), agent)
    decreases |ids|
  {
    if ids == [] {
      assert Reowned(Listing(c, d), {}, agent) == Listing(c, d);
    } else {
      var next := Do(c, d, Rekey(ids[0], agent, env[0]));
      RekeyReowns(c, d, ids[0], agent, env[0]);
      RekeyAllReowns(c, next, ids[1..], agent, env[1..]);
      ReownedTwice(Listing(c, d), if Lands(c, d, Rekeyed(ids[0], agent), env[0]) then {ids[0]} else {},
                   RekeyedIds(c, next, ids[1..], agent, env[1..]), agent);
    }
  }

  lemma {:induction false} AllLand(c: Codec, d: Disk, ids: seq<HoldId>, agent: string, env: seq<Append>)
    requires |env| == |ids| && RekeyIsClean(c, d, ids, agent, env)
    ensures RekeyedIds(c, d, ids, agent, env) <= set id | id in ids
    ensures (forall a :: a in env ==> a.Whole?) ==> RekeyedIds(c, d, ids, agent, env) == set id | id in ids
    decreases |ids|
  {
    if ids != [] {
      assert env[0] in env && ids == [ids[0]] + ids[1..];
      AllLand(c, Do(c, d, Rekey(ids[0], agent, env[0])), ids[1..], agent, env[1..]);
    }
  }

  lemma {:induction false} MatchingAre(r: Reattach, b: Backlog)
    ensures forall id :: id in MatchingIds(r, b) <==> exists h :: h in b && Matches(r, h) && h.id == id
  {
    if b != [] {
      MatchingAre(r, b[1..]);
      assert b == [b[0]] + b[1..];
    }
  }

  /** A reattach moves the predecessor's holds for this checkout to the new session and nothing else: the
      list keeps its length, its order, its patches and every other owner; a hold whose rekey failed
      stays with the predecessor. */
  lemma ReattachMovesExactly(c: Codec, d: Disk, r: Reattach, env: seq<Append>)
    requires Sound(c) && UniqueIds(Listing(c, d)) && |env| == |MatchingIds(r, Listing(c, d))|
    requires RekeyIsClean(c, d, MatchingIds(r, Listing(c, d)), r.agent, env)
    ensures var b, after := Listing(c, d), Listing(c, RekeyAll(c, d, MatchingIds(r, Listing(c, d)), r.agent, env));
            && |after| == |b|
            && (forall k :: 0 <= k < |b| ==>
                  if b[k].agentId == r.prior && r.resolve(b[k].realDir) == r.resolve(r.realDir)
                  then after[k] == b[k].(agentId := r.agent) || (after[k] == b[k] && exists a :: a in env && a.Cut?)
                  else after[k] == b[k])
  {
    var b := Listing(c, d);
    var ids := MatchingIds(r, b);
    RekeyAllReowns(c, d, ids, r.agent, env);
    AllLand(c, d, ids, r.agent, env);
    MatchingAre(r, b);
    forall k | 0 <= k < |b|
      ensures b[k].id in ids <==> Matches(r, b[k])
    {
      assert b[k] in b;
      if h :| h in b && Matches(r, h) && h.id == b[k].id {
        SameIdSameHold(b, h, b[k]);
      }
    }
  }

  function Completed(env: seq<Append>): nat {
    if env == [] then 0 else (if env[0].Whole? then 1 else 0) + Completed(env[1..])
  }

  /** The loop over the matching holds; a failed rekey is logged and the rest go on. */
  method RekeyOnReattach(store: HeldSyncStore, r: Reattach, readable: bool, env: seq<Append>) returns (moved: nat)
    requires |env| == |MatchingIds(r, Listing(store.codec, store.View()))|
    modifies store
    ensures !readable ==> store.View() == old(store.View()) && moved == 0
    ensures readable ==>
              var ids := MatchingIds(r, Listing(store.codec, old(store.View())));
              store.View() == RekeyAll(store.codec, old(store.View()), ids, r.agent, env)
    ensures moved == if readable then Completed(env) else 0
  {
    moved := 0;
    var all := store.ListAllHeld(readable);
    if all.None? {
      return;
    }
    var ids := MatchingIds(r, all.value);
    ghost var goal := RekeyAll(store.codec, store.View(), ids, r.agent, env);
    for i := 0 to |ids|
      invariant moved + Completed(env[i..]) == Completed(env)
      invariant goal == RekeyAll(store.codec, store.View(), ids[i..], r.agent, env[i..])
    {
      assert ids[i..][0] == ids[i] && env[i..][0] == env[i];
      assert ids[i..][1..] == ids[i + 1..] && env[i..][1..] == env[i + 1..];
      var ok := store.RekeyHold(ids[i], r.agent, env[i]);
      if ok {
        moved := moved + 1;
      }
    }
  }
}
