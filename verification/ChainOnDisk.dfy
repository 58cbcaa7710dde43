/**
 The turn chain and the held-patch store run together: a turn end counts the backlog it finds in the
 ledger, a hold, a replay and a discard change the files, and at every moment the patches the chain
 believes to be waiting are the ones the ledger lists for the session, in the same order.  The ledger is
 shared, so between any two steps of the session other sessions may hold, rekey and resolve in it.
 */
module ChainOnDisk {
  import opened Wrappers
  import L = HeldLedger
  import R = HeldReplay
  import S = HeldStore
  import T = TurnChain

  datatype Joint = Joint(session: T.Session, disk: S.Disk)

  function WaitingTurns(ds: seq<T.Delta>): seq<nat> {
    if ds == [] then [] else (if ds[0].waiting then [ds[0].turn] else []) + WaitingTurns(ds[1..])
  }

  function TurnsOf(b: L.Backlog): seq<nat> {
    if b == [] then [] else [b[0].turn] + TurnsOf(b[1..])
  }

  function Held(c: L.Codec, d: S.Disk, agent: string): L.Backlog {
    R.ListHeld(S.Listing(c, d), agent)
  }

  /** The ledger lists, for this agent, exactly the turns whose patches wait, in order. */
  predicate Mirrors(c: L.Codec, agent: string, j: Joint) {
    TurnsOf(Held(c, j.disk, agent)) == WaitingTurns(j.session.deltas)
  }

  // ---------------------------------------------------------------------------------------------
  // Joint events

  datatype Event =
    | TurnStart(live: Option<T.Tree>, finger: Option<T.Fingerprint>)
      // the calls of the turn end, and the hold it makes if it decides to hold
    | TurnEnd(calls: T.EndCalls, hold: S.StoreOp)
    | ApplyHeld(env: seq<R.PatchCalls>)
      // the whole backlog, or the one hold named
    | Discard(patchId: Option<L.HoldId>, env: seq<R.PatchCalls>)
      // the checkout could not be captured, or the ledger not be read
    | ApplyFails
      // the ledger could not be read; the recount, or 0 when that failed too
    | DiscardFails(remaining: nat)
    | AckDivergence
      // an operation of another session on the shared ledger
    | Other(op: S.StoreOp)

  function HoldOutcome(c: L.Codec, d: S.Disk, op: S.StoreOp): T.HoldCall
    requires op.Hold?
  {
    if |op.patch| > S.MAX_SYNC_PATCH_BYTES || !op.bodyOk then T.NotWritten
    else if op.holdAppend.Whole? then T.Listed
    else T.Untracked(S.Lands(c, d, L.Held(op.h), op.holdAppend))
  }

  /** The turn end gets as far as holding its patch. */
  predicate DecidesToHold(start: T.Start, backlog: nat, calls: T.EndCalls) {
    T.SyncTurnEnd(start, backlog, calls.(hold := T.Listed)).listed
  }

  /** The chain's view of a joint event. */
  function ChainEvent(c: L.Codec, agent: string, j: Joint, e: Event): T.Event
    requires !e.Other?
    requires e.TurnEnd? ==> e.hold.Hold?
    requires e.ApplyHeld? ==> |e.env| == |Held(c, j.disk, agent)|
    requires e.Discard? ==> |e.env| == |R.Targets(Held(c, j.disk, agent), e.patchId)|
  {
    match e
    case TurnStart(live, finger) => T.TurnStart(live, finger)
    case TurnEnd(calls, op) => T.TurnEnd(calls.(hold := HoldOutcome(c, j.disk, op)))
    case ApplyHeld(env) =>
      var r := R.ReplayHeld(c, j.disk, Held(c, j.disk, agent), env);
      T.ApplyHeld(|r.written|, r.ok, FailedRecord(c, agent, j, env), r.Reported() != [])
    case Discard(patchId, env) =>
      var held := Held(c, j.disk, agent);
      var targets := R.Targets(held, patchId);
      var r := R.DropHeld(c, j.disk, targets, env);
      T.Discard(GoneTurns(held, Held(c, r.0, agent)), held == [] || (targets != [] && r.1 == |targets|), Remaining(held, r.1))
    case ApplyFails => T.ApplyHeld(0, false, None, false)
    case DiscardFails(remaining) => T.Discard({}, false, remaining)
    case AckDivergence => T.AckDivergence
  }

  /** What a discard that dropped `n` reports as remaining. */
  function Remaining(held: L.Backlog, n: nat): nat {
    if n <= |held| then |held| - n else 0
  }

  /** The turns of the holds that are listed before and not after. */
  function GoneTurns(before: L.Backlog, after: L.Backlog): set<nat> {
    set h | h in before && h !in after :: h.turn
  }

  /** Whether the last of `n` writes went unrecorded, and if so whether its line landed all the same, as
      the list that is left shows. */
  function Unrecorded(held: L.Backlog, env: seq<R.PatchCalls>, n: nat, after: L.Backlog): Option<bool> {
    if 0 < n <= |env| && R.Unrecorded(env[n - 1]) then Some(|after| + n == |held|) else None
  }

  function FailedRecord(c: L.Codec, agent: string, j: Joint, env: seq<R.PatchCalls>): Option<bool>
    requires |env| == |Held(c, j.disk, agent)|
  {
    var held := Held(c, j.disk, agent);
    var r := R.ReplayHeld(c, j.disk, held, env);
    Unrecorded(held, env, |r.written|, Held(c, r.disk, agent))
  }

  function DiskAfter(c: L.Codec, agent: string, j: Joint, e: Event): S.Disk
    requires e.ApplyHeld? ==> |e.env| == |Held(c, j.disk, agent)|
    requires e.Discard? ==> |e.env| == |R.Targets(Held(c, j.disk, agent), e.patchId)|
    requires e.TurnEnd? ==> e.hold.Hold?
  {
    match e
    case TurnEnd(calls, op) =>
      if j.session.start.Some? && DecidesToHold(j.session.start.value, |Held(c, j.disk, agent)|, calls)
      then S.Do(c, j.disk, op) else j.disk
    case ApplyHeld(env) => R.ReplayHeld(c, j.disk, Held(c, j.disk, agent), env).disk
    case Discard(patchId, env) => R.DropHeld(c, j.disk, R.Targets(Held(c, j.disk, agent), patchId), env).0
    case Other(op) => S.Do(c, j.disk, op)
    case _ => j.disk
  }

  /** A hold, rekey or resolve of another session: it neither enters, takes over nor resolves a hold of this
      one. */
  predicate Foreign(c: L.Codec, agent: string, d: S.Disk, op: S.StoreOp) {
    match op
    case Hold(h, _, _, _, _, _) => h.agentId != agent
    case Rekey(kid, to, _) => to != agent && !L.HasId(Held(c, d, agent), kid)
    case Resolve(rid, _, _, _, _) => !L.HasId(Held(c, d, agent), rid)
    case Sweep(_, _) => false
  }

  /** A hold carries the session's agent and turn and a minted id. */
  predicate Possible(c: L.Codec, agent: string, j: Joint, e: Event) {
    && (e.TurnEnd? ==> e.hold.Hold? && S.Allowed(c, j.disk, e.hold) && e.hold.h.agentId == agent && e.hold.h.turn == j.session.turn)
    && (e.ApplyHeld? ==> |e.env| == |Held(c, j.disk, agent)|)
    && (e.Discard? ==> |e.env| == |R.Targets(Held(c, j.disk, agent), e.patchId)|)
    && (e.Other? ==> S.Allowed(c, j.disk, e.op) && Foreign(c, agent, j.disk, e.op))
  }

  function Step(c: L.Codec, agent: string, j: Joint, e: Event): Joint
    requires Possible(c, agent, j, e)
  {
    Joint(if e.Other? then j.session else T.Step(j.session, ChainEvent(c, agent, j, e)), DiskAfter(c, agent, j, e))
  }

  /** Every append of the event keeps what an append promises. */
  predicate IsClean(c: L.Codec, agent: string, j: Joint, e: Event)
    requires Possible(c, agent, j, e)
  {
    match e
    case TurnEnd(_, op) => S.IsClean(c, j.disk, op)
    case ApplyHeld(env) => R.ReplayIsClean(c, j.disk, Held(c, j.disk, agent), env)
    case Discard(patchId, env) => R.DropIsClean(c, j.disk, R.Targets(Held(c, j.disk, agent), patchId), env)
    case Other(op) => S.IsClean(c, j.disk, op)
    case _ => true
  }

  /** A run all of whose appends keep their promise. */
  ghost predicate Runs(c: L.Codec, agent: string, j: Joint, es: seq<Event>, k: Joint)
    decreases |es|
  {
    if es == [] then j == k
    else
      && Possible(c, agent, j, es[0]) && IsClean(c, agent, j, es[0])
      && Runs(c, agent, Step(c, agent, j, es[0]), es[1..], k)
  }

  // ---------------------------------------------------------------------------------------------
  // Turn lists

  lemma {:induction false} CountsAgree(ds: seq<T.Delta>)
    ensures |WaitingTurns(ds)| == T.Waiting(ds)
  {
    if ds != [] {
      CountsAgree(ds[1..]);
    }
  }

  lemma {:induction false} TurnsLength(b: L.Backlog)
    ensures |TurnsOf(b)| == |b|
  {
    if b != [] {
      TurnsLength(b[1..]);
    }
  }

  lemma {:induction false} TurnsFrom(b: L.Backlog, n: nat)
    requires n <= |b|
    ensures |TurnsOf(b)| == |b| && TurnsOf(b[n..]) == TurnsOf(b)[n..]
  {
    TurnsLength(b);
    if n > 0 {
      TurnsFrom(b[1..], n - 1);
      assert b[n..] == b[1..][n - 1..];
    }
  }

  lemma {:induction false} TurnsAppend(b: L.Backlog, h: L.HeldSync)
    ensures TurnsOf(b + [h]) == TurnsOf(b) + [h.turn]
  {
    if b == [] {
      assert [] + [h] == [h] && [h][1..] == [];
    } else {
      TurnsAppend(b[1..], h);
      assert (b + [h])[1..] == b[1..] + [h];
    }
  }

  lemma {:induction false} WaitingAppend(ds: seq<T.Delta>, d: T.Delta)
    ensures WaitingTurns(ds + [d]) == WaitingTurns(ds) + if d.waiting then [d.turn] else []
  {
    if ds == [] {
      assert [] + [d] == [d] && [d][1..] == [];
    } else {
      WaitingAppend(ds[1..], d);
      assert (ds + [d])[1..] == ds[1..] + [d];
    }
  }

  /** How many patches a replay of `n` takes off the list: one less when recording the last one failed
      without a trace. */
  function Taken(n: nat, f: Option<bool>): nat
    requires f == Some(false) ==> n > 0
  {
    if f == Some(false) then n - 1 else n
  }

  /** `taken` is what the replay takes off the front of what waits. */
  ghost predicate Takes(ds: seq<T.Delta>, n: nat, f: Option<bool>, taken: seq<nat>) {
    WaitingTurns(ds) == taken + WaitingTurns(T.MarkWritten(ds, n, f))
  }

  lemma TakesBehind(ds: seq<T.Delta>, n: nat, f: Option<bool>, taken: seq<nat>)
    requires ds != [] && n > 0 && !ds[0].waiting && Takes(ds[1..], n, f, taken)
    ensures Takes(ds, n, f, taken)
  {
    HeadThenRest(ds[0], T.MarkWritten(ds[1..], n, f));
    assert WaitingTurns(ds) == [] + WaitingTurns(ds[1..]);
  }

  lemma TakesLast(ds: seq<T.Delta>, f: Option<bool>)
    requires ds != [] && ds[0].waiting
    ensures Takes(ds, 1, f, if f == Some(false) then [] else [ds[0].turn])
  {
    assert T.MarkWritten(ds[1..], 0, f) == ds[1..];
    HeadThenRest(ds[0].(written := true, waiting := f == Some(false)), ds[1..]);
  }

  lemma TakesOneMore(ds: seq<T.Delta>, n: nat, f: Option<bool>, more: seq<nat>)
    requires ds != [] && n > 1 && ds[0].waiting && Takes(ds[1..], n - 1, f, more)
    ensures Takes(ds, n, f, [ds[0].turn] + more)
  {
    var later := T.MarkWritten(ds[1..], n - 1, f);
    HeadThenRest(ds[0].(written := true, waiting := false), later);
    Regroup([ds[0].turn], more, WaitingTurns(later));
  }

  lemma {:induction false} WaitingAfterReplay(ds: seq<T.Delta>, n: nat, f: Option<bool>) returns (taken: seq<nat>)
    requires n <= T.Waiting(ds) && (f == Some(false) ==> n > 0)
    ensures |taken| == Taken(n, f) && Takes(ds, n, f, taken)
  {
    if n == 0 {
      taken := [];
    } else if !ds[0].waiting {
      taken := WaitingAfterReplay(ds[1..], n, f);
      TakesBehind(ds, n, f, taken);
    } else if n == 1 {
      taken := if f == Some(false) then [] else [ds[0].turn];
      TakesLast(ds, f);
    } else {
      var more := WaitingAfterReplay(ds[1..], n - 1, f);
      taken := [ds[0].turn] + more;
      TakesOneMore(ds, n, f, more);
    }
  }

  lemma HeadThenRest(d: T.Delta, ds: seq<T.Delta>)
    ensures WaitingTurns([d] + ds) == (if d.waiting then [d.turn] else []) + WaitingTurns(ds)
  {
    assert ([d] + ds)[1..] == ds;
  }

  /** The turns that are not in a set. */
  function Keep(turns: seq<nat>, gone: set<nat>): seq<nat> {
    if turns == [] then [] else (if turns[0] in gone then [] else [turns[0]]) + Keep(turns[1..], gone)
  }

  lemma KeepFirst(t: nat, turns: seq<nat>, gone: set<nat>)
    ensures Keep([t] + turns, gone) == (if t in gone then [] else [t]) + Keep(turns, gone)
  {
    assert ([t] + turns)[1..] == turns;
  }

  /** Dropping turns takes exactly them off what waits. */
  lemma {:induction false} WaitingAfterDrop(ds: seq<T.Delta>, gone: set<nat>)
    ensures WaitingTurns(T.DropTurns(ds, gone)) == Keep(WaitingTurns(ds), gone)
  {
    if ds != [] {
      var d, rest := ds[0], T.DropTurns(ds[1..], gone);
      WaitingAfterDrop(ds[1..], gone);
      HeadThenRest(if d.turn in gone then T.Drop(d) else d, rest);
      if d.waiting {
        KeepFirst(d.turn, WaitingTurns(ds[1..]), gone);
      } else {
        assert [] + WaitingTurns(ds[1..]) == WaitingTurns(ds[1..]) && [] + WaitingTurns(rest) == WaitingTurns(rest);
      }
    }
  }

  predicate DistinctTurns(turns: seq<nat>) {
    forall i, j :: 0 <= i < j < |turns| ==> turns[i] != turns[j]
  }

  lemma {:induction false} TurnAt(b: L.Backlog, k: nat)
    requires k < |b|
    ensures |TurnsOf(b)| == |b| && TurnsOf(b)[k] == b[k].turn
  {
    TurnsLength(b);
    if k > 0 {
      TurnAt(b[1..], k - 1);
    }
  }

  lemma SameTurnSameHold(b: L.Backlog, g: L.HeldSync, h: L.HeldSync)
    requires DistinctTurns(TurnsOf(b)) && g in b && h in b && g.turn == h.turn
    ensures g == h
  {
    var i :| 0 <= i < |b| && b[i] == g;
    var j :| 0 <= j < |b| && b[j] == h;
    TurnAt(b, i);
    TurnAt(b, j);
  }

  /** The list without some ids. */
  function WithoutIds(b: L.Backlog, ids: set<L.HoldId>): L.Backlog {
    if b == [] then [] else (if b[0].id in ids then [] else [b[0]]) + WithoutIds(b[1..], ids)
  }

  lemma {:induction false} WithoutIdsMembers(b: L.Backlog, ids: set<L.HoldId>)
    ensures forall h :: h in WithoutIds(b, ids) <==> h in b && h.id !in ids
  {
    if b != [] {
      WithoutIdsMembers(b[1..], ids);
      assert b == [b[0]] + b[1..];
    }
  }

  lemma {:induction false} WithoutIdThenIds(b: L.Backlog, id: L.HoldId, ids: set<L.HoldId>)
    ensures WithoutIds(L.WithoutId(b, id), ids) == WithoutIds(b, ids + {id})
  {
    if b != [] {
      WithoutIdThenIds(b[1..], id, ids);
      var rest := L.WithoutId(b[1..], id);
      if b[0].id == id {
        assert [] + rest == rest;
      } else {
        assert ([b[0]] + rest)[1..] == rest;
      }
    }
  }

  lemma {:induction false} WithoutNone(b: L.Backlog)
    ensures WithoutIds(b, {}) == b
  {
    if b != [] {
      WithoutNone(b[1..]);
    }
  }

  /** Dropping targets one after the other drops their ids. */
  lemma {:induction false} WithoutAllIds(b: L.Backlog, targets: L.Backlog)
    ensures R.WithoutAll(b, targets) == WithoutIds(b, set h | h in targets :: h.id)
    decreases |targets|
  {
    var ids := set h | h in targets :: h.id;
    if targets == [] {
      WithoutNone(b);
      assert ids == {};
    } else {
      var rest := set h | h in targets[1..] :: h.id;
      WithoutAllIds(L.WithoutId(b, targets[0].id), targets[1..]);
      WithoutIdThenIds(b, targets[0].id, rest);
      assert targets == [targets[0]] + targets[1..];
      assert ids == rest + {targets[0].id};
    }
  }

  lemma {:induction false} TurnsWithoutIds(b: L.Backlog, ids: set<L.HoldId>, gone: set<nat>)
    requires forall h :: h in b ==> (h.id in ids <==> h.turn in gone)
    ensures TurnsOf(WithoutIds(b, ids)) == Keep(TurnsOf(b), gone)
  {
    if b != [] {
      assert b[0] in b && forall h :: h in b[1..] ==> h in b;
      TurnsWithoutIds(b[1..], ids, gone);
      if b[0].id !in ids {
        assert ([b[0]] + WithoutIds(b[1..], ids))[1..] == WithoutIds(b[1..], ids);
      } else {
        assert [] + WithoutIds(b[1..], ids) == WithoutIds(b[1..], ids);
      }
    }
  }

  // ---------------------------------------------------------------------------------------------
  // Every joint event keeps the two in step

  lemma {:induction false} ListHeldAppend(b: L.Backlog, h: L.HeldSync, agent: string)
    ensures R.ListHeld(b + [h], agent) == R.ListHeld(b, agent) + if h.agentId == agent then [h] else []
  {
    if b == [] {
      assert [] + [h] == [h] && [h][1..] == [];
    } else {
      ListHeldAppend(b[1..], h, agent);
      assert (b + [h])[1..] == b[1..] + [h];
    }
  }

  /** A fresh hold goes to the end of its owner's list exactly when its line landed. */
  lemma HoldExtendsList(c: L.Codec, d: S.Disk, op: S.StoreOp)
    requires L.Sound(c) && op.Hold? && S.Allowed(c, d, op) && S.IsClean(c, d, op)
    ensures var listed := HoldOutcome(c, d, op) == T.Listed || HoldOutcome(c, d, op) == T.Untracked(true);
            Held(c, S.Do(c, d, op), op.h.agentId) == Held(c, d, op.h.agentId) + if listed then [op.h] else []
  {
    if |op.patch| <= S.MAX_SYNC_PATCH_BYTES && op.bodyOk {
      S.AppendEvents(c, d, L.Held(op.h), op.holdAppend);
      L.FoldIds([], L.Events(c, d.ledger), op.h.id);
      ListHeldAppend(S.Listing(c, d), op.h, op.h.agentId);
    }
  }

  /** The decision to hold does not depend on how the hold then goes. */
  lemma DecisionLists(start: T.Start, backlog: nat, calls: T.EndCalls, hold: T.HoldCall)
    ensures var d := T.SyncTurnEnd(start, backlog, calls.(hold := hold));
            d.listed <==> DecidesToHold(start, backlog, calls) && (hold == T.Listed || hold == T.Untracked(true))
  {
  }

  /** The ledger's list after a turn end. */
  lemma ListAfterTurnEnd(c: L.Codec, agent: string, j: Joint, e: Event)
    requires L.Sound(c) && e.TurnEnd? && Possible(c, agent, j, e) && IsClean(c, agent, j, e) && j.session.start.Some?
    ensures var start, held := j.session.start.value, Held(c, j.disk, agent);
            var d := T.SyncTurnEnd(start, |held|, e.calls.(hold := HoldOutcome(c, j.disk, e.hold)));
            Held(c, DiskAfter(c, agent, j, e), agent) == held + if d.listed then [e.hold.h] else []
  {
    var start, held := j.session.start.value, Held(c, j.disk, agent);
    DecisionLists(start, |held|, e.calls, HoldOutcome(c, j.disk, e.hold));
    if DecidesToHold(start, |held|, e.calls) {
      HoldExtendsList(c, j.disk, e.hold);
    } else {
      assert held + [] == held;
    }
  }

  /** The chain's waiting turns after a turn end. */
  lemma WaitingAfterTurnEnd(s: T.Session, calls: T.EndCalls)
    requires s.start.Some?
    ensures var d := T.SyncTurnEnd(s.start.value, T.Waiting(s.deltas), calls);
            WaitingTurns(T.EndTurn(s, calls).deltas) == WaitingTurns(s.deltas) + if d.listed then [s.turn] else []
  {
    var add := T.Added(s, calls);
    assert T.EndTurn(s, calls).deltas == s.deltas + add;
    if add == [] {
      assert s.deltas + add == s.deltas;
    } else {
      WaitingAppend(s.deltas, add[0]);
    }
  }

  lemma TurnEndMirrors(c: L.Codec, agent: string, j: Joint, e: Event)
    requires L.Sound(c) && Mirrors(c, agent, j) && e.TurnEnd? && Possible(c, agent, j, e) && IsClean(c, agent, j, e)
    ensures Mirrors(c, agent, Step(c, agent, j, e))
  {
    if j.session.start.Some? {
      var held := Held(c, j.disk, agent);
      CountsAgree(j.session.deltas);
      TurnsLength(held);
      ListAfterTurnEnd(c, agent, j, e);
      WaitingAfterTurnEnd(j.session, e.calls.(hold := HoldOutcome(c, j.disk, e.hold)));
      TurnsAppend(held, e.hold.h);
      assert held + [] == held && TurnsOf(held) + [] == TurnsOf(held);
    }
  }

  /** Whether the last write went unrecorded can be read off the list that is left, and then the chain's
      waiting patches are that list. */
  lemma WaitingIsLeft(ds: seq<T.Delta>, held: L.Backlog, env: seq<R.PatchCalls>, n: nat, after: L.Backlog)
    requires TurnsOf(held) == WaitingTurns(ds) && R.Left(held, env, n, after)
    ensures var f := Unrecorded(held, env, n, after);
            && n <= T.Waiting(ds) && (f.Some? ==> n > 0)
            && TurnsOf(after) == WaitingTurns(T.MarkWritten(ds, n, f))
  {
    var f := Unrecorded(held, env, n, after);
    CountsAgree(ds);
    TurnsLength(held);
    var taken := WaitingAfterReplay(ds, n, f);
    assert after == held[Taken(n, f)..];
    TurnsFrom(held, Taken(n, f));
    assert WaitingTurns(ds)[|taken|..] == WaitingTurns(T.MarkWritten(ds, n, f));
  }

  /** A replay that reports success wrote and recorded everything. */
  lemma ReplayReport(c: L.Codec, agent: string, j: Joint, env: seq<R.PatchCalls>)
    requires |env| == |Held(c, j.disk, agent)|
    ensures var held := Held(c, j.disk, agent);
            var r := R.ReplayHeld(c, j.disk, held, env);
            r.ok ==> |r.written| == |held| && FailedRecord(c, agent, j, env).None?
  {
    R.OnlyTheLastIsCut(c, j.disk, Held(c, j.disk, agent), env);
  }

  /** The same on plain lists: what the chain makes of a replay that leaves `after`. */
  lemma ApplyOnLists(s: T.Session, held: L.Backlog, env: seq<R.PatchCalls>, n: nat, after: L.Backlog, ok: bool, diverged: bool)
    requires TurnsOf(held) == WaitingTurns(s.deltas) && R.Left(held, env, n, after)
    requires ok ==> n == |held| && Unrecorded(held, env, n, after).None?
    ensures T.Possible(s, T.ApplyHeld(n, ok, Unrecorded(held, env, n, after), diverged))
    ensures TurnsOf(after) == WaitingTurns(T.ReplayBacklog(s, n, ok, Unrecorded(held, env, n, after), diverged).deltas)
  {
    WaitingIsLeft(s.deltas, held, env, n, after);
    CountsAgree(s.deltas);
    TurnsLength(held);
  }

  /** A replay on disk is a replay the chain allows. */
  lemma ApplyAllowed(c: L.Codec, agent: string, j: Joint, env: seq<R.PatchCalls>)
    requires L.Sound(c) && L.UniqueIds(S.Listing(c, j.disk)) && Mirrors(c, agent, j) && |env| == |Held(c, j.disk, agent)|
    requires R.ReplayIsClean(c, j.disk, Held(c, j.disk, agent), env)
    ensures var r := R.ReplayHeld(c, j.disk, Held(c, j.disk, agent), env);
            var f := FailedRecord(c, agent, j, env);
            && T.Possible(j.session, T.ApplyHeld(|r.written|, r.ok, f, r.Reported() != []))
            && TurnsOf(Held(c, r.disk, agent))
               == WaitingTurns(T.ReplayBacklog(j.session, |r.written|, r.ok, f, r.Reported() != []).deltas)
  {
    var held := Held(c, j.disk, agent);
    var r := R.ReplayHeld(c, j.disk, held, env);
    R.BacklogAfterReplay(c, j.disk, agent, env);
    ReplayReport(c, agent, j, env);
    ApplyOnLists(j.session, held, env, |r.written|, Held(c, r.disk, agent), r.ok, r.Reported() != []);
  }

  /** And it leaves the two in step. */
  lemma ApplyMirrors(c: L.Codec, agent: string, j: Joint, e: Event)
    requires L.Sound(c) && L.UniqueIds(S.Listing(c, j.disk)) && Mirrors(c, agent, j) && e.ApplyHeld?
    requires Possible(c, agent, j, e) && IsClean(c, agent, j, e)
    ensures T.Possible(j.session, ChainEvent(c, agent, j, e))
    ensures Mirrors(c, agent, Step(c, agent, j, e))
  {
    ApplyAllowed(c, agent, j, e.env);
  }

  /** On plain lists: dropping targets takes exactly the gone turns off the list. */
  lemma DropOnLists(held: L.Backlog, targets: L.Backlog)
    requires DistinctTurns(TurnsOf(held))
    ensures var after := R.WithoutAll(held, targets); TurnsOf(after) == Keep(TurnsOf(held), GoneTurns(held, after))
  {
    var ids := set h | h in targets :: h.id;
    var after := R.WithoutAll(held, targets);
    var gone := GoneTurns(held, after);
    WithoutAllIds(held, targets);
    WithoutIdsMembers(held, ids);
    forall h | h in held
      ensures h.id in ids <==> h.turn in gone
    {
      if h.turn in gone {
        var g :| g in held && g !in after && g.turn == h.turn;
        SameTurnSameHold(held, g, h);
      }
    }
    TurnsWithoutIds(held, ids, gone);
  }

  /** Turn labels rise along the chain, so those that wait are distinct. */
  lemma {:induction false} WaitingRises(ds: seq<T.Delta>, low: int)
    requires forall i, j :: 0 <= i < j < |ds| ==> ds[i].turn < ds[j].turn
    requires forall i :: 0 <= i < |ds| ==> low < ds[i].turn
    ensures DistinctTurns(WaitingTurns(ds)) && forall t :: t in WaitingTurns(ds) ==> low < t
  {
    if ds != [] {
      WaitingRises(ds[1..], ds[0].turn);
      var rest := WaitingTurns(ds[1..]);
      assert forall k :: 0 <= k < |rest| ==> rest[k] in rest;
    }
  }

  /** The list left by a discard is the list without some of its targets. */
  lemma ListAfterDiscard(c: L.Codec, agent: string, d: S.Disk, patchId: Option<L.HoldId>, env: seq<R.PatchCalls>)
    returns (dropped: L.Backlog)
    requires L.Sound(c) && L.UniqueIds(S.Listing(c, d)) && |env| == |R.Targets(Held(c, d, agent), patchId)|
    requires R.DropIsClean(c, d, R.Targets(Held(c, d, agent), patchId), env)
    ensures var targets := R.Targets(Held(c, d, agent), patchId);
            Held(c, R.DropHeld(c, d, targets, env).0, agent) == R.WithoutAll(Held(c, d, agent), dropped)
  {
    var held := Held(c, d, agent);
    var targets := R.Targets(held, patchId);
    R.ListHeldMembers(S.Listing(c, d), agent);
    R.TargetsAreHeld(held, patchId);
    R.BacklogAfterDrop(c, d, agent, targets, env);
    var r := R.DropHeld(c, d, targets, env);
    dropped := R.DroppedPart(held, targets, env, r.1, Held(c, r.0, agent));
  }

  /** A discard that reports success left as many as it reports. */
  lemma DiscardReport(c: L.Codec, agent: string, d: S.Disk, patchId: Option<L.HoldId>, env: seq<R.PatchCalls>)
    requires L.Sound(c) && L.UniqueIds(S.Listing(c, d)) && |env| == |R.Targets(Held(c, d, agent), patchId)|
    requires R.DropIsClean(c, d, R.Targets(Held(c, d, agent), patchId), env)
    ensures var held, targets := Held(c, d, agent), R.Targets(Held(c, d, agent), patchId);
            var r := R.DropHeld(c, d, targets, env);
            held == [] || r.1 == |targets| ==> |Held(c, r.0, agent)| == Remaining(held, r.1)
  {
    var held := Held(c, d, agent);
    var targets := R.Targets(held, patchId);
    R.ListHeldMembers(S.Listing(c, d), agent);
    R.TargetsAreHeld(held, patchId);
    R.TargetsAreFewer(held, patchId);
    R.BacklogAfterDrop(c, d, agent, targets, env);
    var r := R.DropHeld(c, d, targets, env);
    LeftCount(held, targets, env, r.1, Held(c, r.0, agent));
  }

  lemma LeftCount(held: L.Backlog, targets: L.Backlog, env: seq<R.PatchCalls>, n: nat, after: L.Backlog)
    requires L.UniqueIds(held) && L.UniqueIds(targets) && (forall h :: h in targets ==> h in held) && |targets| <= |held|
    requires R.DroppedFrom(held, targets, env, n, after)
    ensures held == [] || n == |targets| ==> |after| == Remaining(held, n)
  {
    R.WithoutAllCount(held, targets);
    assert targets[..|targets|] == targets;
  }

  lemma DiscardMirrors(c: L.Codec, agent: string, j: Joint, e: Event)
    requires L.Sound(c) && L.UniqueIds(S.Listing(c, j.disk)) && e.Discard? && Possible(c, agent, j, e)
    requires IsClean(c, agent, j, e) && Mirrors(c, agent, j) && T.Labelled(j.session)
    ensures T.Possible(j.session, ChainEvent(c, agent, j, e))
    ensures Mirrors(c, agent, Step(c, agent, j, e))
  {
    var held := Held(c, j.disk, agent);
    var dropped := ListAfterDiscard(c, agent, j.disk, e.patchId, e.env);
    var gone := GoneTurns(held, R.WithoutAll(held, dropped));
    WaitingRises(j.session.deltas, -1);
    DropOnLists(held, dropped);
    WaitingAfterDrop(j.session.deltas, gone);
    DiscardReport(c, agent, j.disk, e.patchId, e.env);
    CountsAgree(T.DropTurns(j.session.deltas, gone));
    TurnsLength(R.WithoutAll(held, dropped));
  }

  lemma {:induction false} DropNoTurns(ds: seq<T.Delta>)
    ensures T.DropTurns(ds, {}) == ds
  {
    if ds != [] {
      DropNoTurns(ds[1..]);
    }
  }

  lemma {:induction false} DropKeepsDisk(c: L.Codec, d: S.Disk, targets: L.Backlog, env: seq<R.PatchCalls>)
    requires L.Sound(c) && S.Inv(c, d) && |env| == |targets| && R.DropIsClean(c, d, targets, env)
    ensures S.Inv(c, R.DropHeld(c, d, targets, env).0)
    decreases |targets|
  {
    if targets != [] {
      var op := S.Resolve(targets[0].id, L.Discarded, env[0].record, env[0].bodyGone, env[0].metaGone);
      S.ResolveKeepsInv(c, d, op);
      if env[0].record.Whole? {
        DropKeepsDisk(c, S.Do(c, d, op), targets[1..], env[1..]);
      }
    }
  }

  lemma {:induction false} ReplayKeepsDisk(c: L.Codec, d: S.Disk, held: L.Backlog, env: seq<R.PatchCalls>)
    requires L.Sound(c) && S.Inv(c, d) && |env| == |held| && R.ReplayIsClean(c, d, held, env)
    ensures S.Inv(c, R.ReplayHeld(c, d, held, env).disk)
    decreases |held|
  {
    if held != [] && held[0].id in d.bodies && env[0].write.Wrote? {
      S.ResolveKeepsInv(c, d, S.Resolve(held[0].id, L.Applied, env[0].record, env[0].bodyGone, env[0].metaGone));
      R.ReplayFirst(c, d, held, env);
      if R.GoesOn(held, env) {
        ReplayKeepsDisk(c, R.RecordApplied(c, d, held[0], env[0]), held[1..], env[1..]);
      }
    }
  }

  lemma {:induction false} ListHeldReplace(b: L.Backlog, agent: string, id: L.HoldId, to: string)
    requires to != agent && !L.HasId(R.ListHeld(b, agent), id)
    ensures R.ListHeld(L.Step(b, L.Rekeyed(id, to)), agent) == R.ListHeld(b, agent)
  {
    if b != [] {
      var rest := R.ListHeld(b[1..], agent);
      assert forall h :: h in rest ==> h in R.ListHeld(b, agent);
      ListHeldReplace(b[1..], agent, id, to);
      assert L.Step(b, L.Rekeyed(id, to))[1..] == L.Step(b[1..], L.Rekeyed(id, to));
      assert b[0].agentId == agent ==> b[0] in R.ListHeld(b, agent);
    }
  }

  /** The line neither enters, takes over nor resolves a hold of this agent. */
  predicate ForeignLine(b: L.Backlog, agent: string, e: L.Event) {
    && (e.Held? ==> e.h.agentId != agent && !L.HasId(b, e.h.id))
    && (!e.Held? ==> !L.HasId(R.ListHeld(b, agent), e.Id()))
    && (e.Rekeyed? ==> e.newAgentId != agent)
  }

  lemma ForeignOnLists(b: L.Backlog, agent: string, e: L.Event)
    requires ForeignLine(b, agent, e)
    ensures R.ListHeld(L.Step(b, e), agent) == R.ListHeld(b, agent)
  {
    match e
    case Held(h) =>
      ListHeldAppend(b, h, agent);
      assert R.ListHeld(b, agent) + [] == R.ListHeld(b, agent);
    case Resolved(id, _) =>
      R.ListHeldWithout(b, agent, id);
      R.WithoutAbsent(R.ListHeld(b, agent), id);
    case Rekeyed(id, to) => ListHeldReplace(b, agent, id, to);
  }

  /** Another session's operation, with any fault, leaves this session's list alone. */
  lemma ForeignKeepsList(c: L.Codec, agent: string, d: S.Disk, op: S.StoreOp)
    requires L.Sound(c) && S.Allowed(c, d, op) && S.IsClean(c, d, op) && Foreign(c, agent, d, op)
    ensures Held(c, S.Do(c, d, op), agent) == Held(c, d, agent)
  {
    match op
    case Hold(h, patch, bodyOk, _, a, _) =>
      if |patch| <= S.MAX_SYNC_PATCH_BYTES && bodyOk {
        S.AppendEvents(c, d, L.Held(h), a);
        L.FoldIds([], L.Events(c, d.ledger), h.id);
        ForeignOnLists(S.Listing(c, d), agent, L.Held(h));
      }
    case Rekey(id, to, a) =>
      S.AppendEvents(c, d, L.Rekeyed(id, to), a);
      ForeignOnLists(S.Listing(c, d), agent, L.Rekeyed(id, to));
    case Resolve(id, o, a, _, _) =>
      S.AppendEvents(c, d, L.Resolved(id, o), a);
      ForeignOnLists(S.Listing(c, d), agent, L.Resolved(id, o));
  }

  lemma StepKeepsDisk(c: L.Codec, agent: string, j: Joint, e: Event)
    requires L.Sound(c) && S.Inv(c, j.disk) && Possible(c, agent, j, e) && IsClean(c, agent, j, e)
    ensures S.Inv(c, DiskAfter(c, agent, j, e))
  {
    match e
    case TurnEnd(_, op) => S.OpKeepsInv(c, j.disk, op);
    case ApplyHeld(env) => ReplayKeepsDisk(c, j.disk, Held(c, j.disk, agent), env);
    case Discard(patchId, env) => DropKeepsDisk(c, j.disk, R.Targets(Held(c, j.disk, agent), patchId), env);
    case Other(op) => S.OpKeepsInv(c, j.disk, op);
    case _ =>
  }

  lemma StepMirrors(c: L.Codec, agent: string, j: Joint, e: Event)
    requires L.Sound(c) && S.Inv(c, j.disk) && Mirrors(c, agent, j) && T.Labelled(j.session)
    requires Possible(c, agent, j, e) && IsClean(c, agent, j, e)
    ensures e.Other? || T.Possible(j.session, ChainEvent(c, agent, j, e))
    ensures Mirrors(c, agent, Step(c, agent, j, e))
  {
    L.FoldIds([], L.Events(c, j.disk.ledger), "");
    match e
    case TurnEnd(_, _) => TurnEndMirrors(c, agent, j, e);
    case ApplyHeld(_) => ApplyMirrors(c, agent, j, e);
    case Discard(_, _) => DiscardMirrors(c, agent, j, e);
    case Other(op) => ForeignKeepsList(c, agent, j.disk, op);
    case DiscardFails(_) => DropNoTurns(j.session.deltas);
    case _ =>
  }

  /** The chain events of a joint run. */
  function ChainEvents(c: L.Codec, agent: string, j: Joint, es: seq<Event>): seq<T.Event>
    decreases |es|
  {
    if es == [] || !Possible(c, agent, j, es[0]) then []
    else
      (if es[0].Other? then [] else [ChainEvent(c, agent, j, es[0])])
      + ChainEvents(c, agent, Step(c, agent, j, es[0]), es[1..])
  }

  /** Refinement: every joint run is a run of the turn chain, so whatever every run of the chain keeps
      holds with the files and the other sessions underneath; and at its end the ledger lists exactly the
      patches that wait. */
  lemma {:induction false} JointRunIsChainRun(c: L.Codec, agent: string, j: Joint, es: seq<Event>, k: Joint)
    requires L.Sound(c) && S.Inv(c, j.disk) && Mirrors(c, agent, j) && T.Labelled(j.session) && Runs(c, agent, j, es, k)
    ensures T.Runs(j.session, ChainEvents(c, agent, j, es), k.session)
    ensures S.Inv(c, k.disk) && Mirrors(c, agent, k)
    decreases |es|
  {
    if es != [] {
      var next := Step(c, agent, j, es[0]);
      var rest := ChainEvents(c, agent, next, es[1..]);
      StepKeepsDisk(c, agent, j, es[0]);
      StepMirrors(c, agent, j, es[0]);
      if es[0].Other? {
        JointRunIsChainRun(c, agent, next, es[1..], k);
        assert [] + rest == rest;
      } else {
        T.StepKeepsLabels(j.session, ChainEvent(c, agent, j, es[0]));
        JointRunIsChainRun(c, agent, next, es[1..], k);
        assert ([ChainEvent(c, agent, j, es[0])] + rest)[1..] == rest;
      }
    }
  }

  /** What the operator sees after an explicit apply: the held row is gone exactly when every listed patch was
      there, written and recorded, with a capture before each next one; and a divergence is reported exactly when
      a written patch was found to diverge and the replay did not stop at a missing body, a refusal or a throw. */
  lemma ApplySettlesRows(c: L.Codec, agent: string, j: Joint, e: Event)
    requires e.ApplyHeld? && Possible(c, agent, j, e) && L.UniqueIds(S.Listing(c, j.disk))
    ensures var held, rows := Held(c, j.disk, agent), Step(c, agent, j, e).session.rows;
            && (T.HeldRow in rows <==> !R.AllGo(j.disk, held, e.env))
            && (T.DivergenceRow in rows
                <==> T.DivergenceRow in j.session.rows
                     || ((exists k: nat :: R.SeesDivergence(j.disk, held, e.env, k))
                         && forall k: nat :: !R.StopsSilently(j.disk, held, e.env, k)))
  {
    var held := Held(c, j.disk, agent);
    R.ListHeldMembers(S.Listing(c, j.disk), agent);
    R.ReplayGetsTo(c, j.disk, held, e.env);
    R.ReplayEnds(c, j.disk, held, e.env);
  }

  /** And after an explicit discard: the held row is gone exactly when the discard was of everything, or of the
      only one there is, and recording it never failed. */
  lemma DiscardSettlesRow(c: L.Codec, agent: string, j: Joint, e: Event)
    requires e.Discard? && Possible(c, agent, j, e) && L.UniqueIds(S.Listing(c, j.disk))
    ensures var held := Held(c, j.disk, agent);
            T.HeldRow !in Step(c, agent, j, e).session.rows
            <==> && (held != [] && e.patchId.Some? ==> |held| == 1 && held[0].id == e.patchId.value)
                 && forall x :: x in e.env ==> x.record.Whole?
  {
    var held := Held(c, j.disk, agent);
    R.ListHeldMembers(S.Listing(c, j.disk), agent);
    R.TargetsAreFewer(held, e.patchId);
    R.DropsAllIff(c, j.disk, R.Targets(held, e.patchId), e.env);
    AllAreTargets(held, e.patchId);
    RowAfterDrop(c, agent, j, e);
  }

  /** A discard that names a hold drops everything exactly when that is the only one there is. */
  lemma AllAreTargets(held: L.Backlog, patchId: Option<L.HoldId>)
    requires L.UniqueIds(held)
    ensures |R.Targets(held, patchId)| == |held| <==> (held != [] && patchId.Some? ==> |held| == 1 && held[0].id == patchId.value)
  {
    R.TargetsAre(held, patchId);
    if patchId.Some? && held != [] {
      assert held[0] in held;
      if L.HasId(held, patchId.value) {
        var h :| h in held && h.id == patchId.value;
        assert |held| == 1 ==> held[0] == h;
      }
    }
  }

  lemma RowAfterDrop(c: L.Codec, agent: string, j: Joint, e: Event)
    requires e.Discard? && Possible(c, agent, j, e)
    requires var held := Held(c, j.disk, agent);
             var n := R.DropHeld(c, j.disk, R.Targets(held, e.patchId), e.env).1;
             n <= |R.Targets(held, e.patchId)| <= |held|
    ensures var held := Held(c, j.disk, agent);
            T.HeldRow !in Step(c, agent, j, e).session.rows
            <==> R.DropHeld(c, j.disk, R.Targets(held, e.patchId), e.env).1 == |held|
  {
  }

  /** An apply or discard that could not even begin leaves the row standing, or as it was when nobody could
      count, and reports no divergence. */
  lemma FailureKeepsRows(c: L.Codec, agent: string, j: Joint, remaining: nat)
    ensures Step(c, agent, j, ApplyFails).session.rows == j.session.rows + {T.HeldRow}
    ensures Step(c, agent, j, DiscardFails(remaining)).session.rows == j.session.rows + if remaining > 0 then {T.HeldRow} else {}
    ensures Step(c, agent, j, ApplyFails).disk == j.disk == Step(c, agent, j, DiscardFails(remaining)).disk
  {
  }

  /** An empty store and a session that has not begun. */
  const SCRATCH := Joint(T.FRESH, S.Disk([], map[], map[]))

  function ScratchEvents(c: L.Codec, agent: string, es: seq<Event>): seq<T.Event> {
    ChainEvents(c, agent, SCRATCH, es)
  }

  lemma FromScratch(c: L.Codec, agent: string, es: seq<Event>, k: Joint)
    requires L.Sound(c) && Runs(c, agent, SCRATCH, es, k)
    ensures T.Runs(T.FRESH, ScratchEvents(c, agent, es), k.session)
    ensures S.Inv(c, k.disk) && Mirrors(c, agent, k)
    ensures forall h :: h in Held(c, k.disk, agent) ==> h.id in k.disk.bodies
  {
    EmptyStore(c, agent);
    JointRunIsChainRun(c, agent, SCRATCH, es, k);
    R.ListHeldMembers(S.Listing(c, k.disk), agent);
  }

  /** At least once with the files underneath, whatever goes wrong short of a glued append: the captured
      turns lead without a gap from the first one's start to the end tree; what each of them changed is in
      the checkout, listed in the ledger or dropped, under its turn; and the ledger lists exactly what
      waits, each with its body. */
  lemma CapturedReachesTheFiles(c: L.Codec, agent: string, es: seq<Event>, k: Joint)
    requires L.Sound(c) && Runs(c, agent, SCRATCH, es, k)
    ensures var spans := T.CapturedSpans(T.FRESH, ScratchEvents(c, agent, es));
            && (k.session.endTree.None? <==> spans == [])
            && (spans != [] ==> T.SpansChained(spans, spans[0].from, k.session.endTree.value))
            && (forall sp :: sp in spans && sp.from != sp.to ==> T.Carried(sp, k.session.deltas))
    ensures TurnsOf(Held(c, k.disk, agent)) == WaitingTurns(k.session.deltas)
    ensures forall h :: h in Held(c, k.disk, agent) ==> h.id in k.disk.bodies
  {
    FromScratch(c, agent, es, k);
    T.CapturedTurnsChain(T.FRESH, ScratchEvents(c, agent, es), k.session);
    T.CapturedIsCarried(T.FRESH, ScratchEvents(c, agent, es), k.session);
  }

  /** Conservation with the files underneath: from an empty store and a fresh session, after any run whose
      turn ends keep track of their effect, the written patches and the patches the ledger lists form one
      gap-free, in-order chain from the first captured turn's start, unless some were explicitly dropped. */
  lemma LedgerHoldsTheRestOfTheChain(c: L.Codec, agent: string, es: seq<Event>, k: Joint)
    requires L.Sound(c) && Runs(c, agent, SCRATCH, es, k) && T.AllTracked(T.FRESH, ScratchEvents(c, agent, es))
    ensures T.Inv(k.session, T.FirstFrom(T.FRESH, T.CapturedSpans(T.FRESH, ScratchEvents(c, agent, es)), ""))
    ensures TurnsOf(Held(c, k.disk, agent)) == WaitingTurns(k.session.deltas)
    ensures forall h :: h in Held(c, k.disk, agent) ==> h.id in k.disk.bodies
  {
    FromScratch(c, agent, es, k);
    T.RunConserves(T.FRESH, ScratchEvents(c, agent, es), k.session, "");
  }

  function Labels(ds: seq<T.Delta>): seq<nat> {
    if ds == [] then [] else [ds[0].turn] + Labels(ds[1..])
  }

  /** What waits behind patches that do not, when everything behind them waits. */
  lemma {:induction false} WaitingTail(ds: seq<T.Delta>, n: nat)
    requires n <= |ds|
    requires forall i :: 0 <= i < n ==> !ds[i].waiting
    requires forall i :: n <= i < |ds| ==> ds[i].waiting
    ensures WaitingTurns(ds) == Labels(ds[n..])
  {
    if n > 0 {
      WaitingTail(ds[1..], n - 1);
      assert ds[1..][n - 1..] == ds[n..];
    } else if ds != [] {
      WaitingTail(ds[1..], 0);
      assert ds[0..] == ds && ds[1..][0..] == ds[1..];
    }
  }

  lemma {:induction false} NoDiscards(c: L.Codec, agent: string, j: Joint, es: seq<Event>)
    requires forall e :: e in es ==> !e.Discard?
    ensures forall e :: e in ChainEvents(c, agent, j, es) ==> T.DropsNothing(e)
    decreases |es|
  {
    if es != [] && Possible(c, agent, j, es[0]) {
      assert es[0] in es;
      NoDiscards(c, agent, Step(c, agent, j, es[0]), es[1..]);
    }
  }

  /** From `from` the patches in the checkout lead without a gap to some tree, and from there the patches
      of the `listed` turns, in that order, lead to the end tree. */
  ghost predicate WrittenThen(s: T.Session, from: T.Tree, listed: seq<nat>)
    requires s.endTree.Some?
  {
    exists n: nat, mid ::
      && n <= |s.deltas|
      && T.Chained(s.deltas[..n], from, mid) && T.Chained(s.deltas[n..], mid, s.endTree.value)
      && (forall i :: 0 <= i < n ==> s.deltas[i].written)
      && listed == Labels(s.deltas[n..])
  }

  lemma WrittenThenWaiting(s: T.Session, from: T.Tree)
    requires T.Inv(s, from) && s.endTree.Some? && T.NoneDropped(s.deltas)
    ensures WrittenThen(s, from, WaitingTurns(s.deltas))
  {
    var ds := s.deltas;
    T.AppliedThenHeld(s, from);
    var n: nat, mid :|
      && n <= |ds|
      && T.Chained(ds[..n], from, mid) && T.Chained(ds[n..], mid, s.endTree.value)
      && (forall i :: 0 <= i < n ==> ds[i].written && !ds[i].waiting)
      && (forall i :: n <= i < |ds| ==> ds[i].waiting);
    WaitingTail(ds, n);
  }

  /** Without discards the whole account is this: from the start of the first captured turn the patches in
      the checkout come first, and the ones the ledger lists after them, up to the end tree. */
  lemma AppliedThenListed(c: L.Codec, agent: string, es: seq<Event>, k: Joint)
    requires L.Sound(c) && Runs(c, agent, SCRATCH, es, k) && T.AllTracked(T.FRESH, ScratchEvents(c, agent, es))
    requires (forall e :: e in es ==> !e.Discard?) && k.session.endTree.Some?
    ensures var spans := T.CapturedSpans(T.FRESH, ScratchEvents(c, agent, es));
            spans != [] && WrittenThen(k.session, spans[0].from, TurnsOf(Held(c, k.disk, agent)))
  {
    CapturedReachesTheFiles(c, agent, es, k);
    LedgerHoldsTheRestOfTheChain(c, agent, es, k);
    FromScratch(c, agent, es, k);
    NoDiscards(c, agent, SCRATCH, es);
    T.OnlyDiscardDrops(T.FRESH, ScratchEvents(c, agent, es), k.session);
    WrittenThenWaiting(k.session, T.CapturedSpans(T.FRESH, ScratchEvents(c, agent, es))[0].from);
  }

  lemma EmptyStore(c: L.Codec, agent: string)
    ensures S.Inv(c, S.Disk([], map[], map[])) && S.Listing(c, S.Disk([], map[], map[])) == []
  {
    assert L.Events(c, []) == L.Decoded(c, [[]]) == L.Decoded(c, [[]][1..]);
  }
}
