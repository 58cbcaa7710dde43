/**
 The held-patch store on disk: the ledger, the patch bodies and the recovery sidecars, with the faults
 each step can meet.  Operations are functions of the disk; the class carries them out in place.
 */
module HeldStore {
  import opened Wrappers
  import opened HeldLedger

  const MAX_SYNC_PATCH_BYTES: nat := 64 * 1024 * 1024

  datatype Disk = Disk(ledger: seq<Byte>, bodies: map<HoldId, string>, metas: map<HoldId, HeldSync>)

  /** Whether the last byte of the ledger could be read beforehand, and whether the append ran to its end
      or threw after its first `n` bytes had landed. */
  datatype Append = Whole(tailRead: bool) | Cut(tailRead: bool, n: nat)

  datatype SweepEntry = SweepEntry(id: HoldId, append: Append, removeMeta: bool)

  /** The store's operations, each with the outcome of its file-system calls. */
  datatype StoreOp =
    | Hold(h: HeldSync, patch: string, bodyOk: bool, metaOk: bool, holdAppend: Append, metaRemoved: bool)
    | Rekey(kid: HoldId, newAgentId: string, rekeyAppend: Append)
    | Resolve(rid: HoldId, outcome: Outcome, resolveAppend: Append, bodyGone: bool, metaGone: bool)
    | Sweep(entries: seq<SweepEntry>, readable: bool)

  function AppendLine(c: Codec, d: Disk, e: Event, a: Append): Disk {
    d.(ledger := match a
         case Whole(tailRead) => d.ledger + Written(c, d.ledger, e, tailRead)
         case Cut(tailRead, n) => Torn(c, d.ledger, e, tailRead, n))
  }

  /** The append is on a line of its own, or it failed without harming the unfinished line it was glued
      to. */
  predicate Clean(c: Codec, d: Disk, a: Append) {
    OnOwnLine(d.ledger, a.tailRead) || (a.Cut? && (a.n == 0 || DecodeLine(c, Tail(d.ledger)).None?))
  }

  /** The event is in the history afterwards. */
  predicate Lands(c: Codec, d: Disk, e: Event, a: Append) {
    OnOwnLine(d.ledger, a.tailRead) && (a.Whole? || Landed(c, d.ledger, e, a.tailRead, a.n))
  }

  function Without<V>(m: map<HoldId, V>, id: HoldId, removed: bool): map<HoldId, V> {
    if removed then m - {id} else m
  }

  /** Body first, sidecar second, ledger line third; the sidecar goes once the line is in. */
  function HoldOn(c: Codec, d: Disk, op: StoreOp): Disk
    requires op.Hold?
  {
    if |op.patch| > MAX_SYNC_PATCH_BYTES || !op.bodyOk then d
    else
      var saved := d.(bodies := d.bodies[op.h.id := op.patch],
                      metas := if op.metaOk then d.metas[op.h.id := op.h] else d.metas);
      var logged := AppendLine(c, saved, Held(op.h), op.holdAppend);
      if op.holdAppend.Whole? then logged.(metas := Without(logged.metas, op.h.id, op.metaRemoved)) else logged
  }

  function ResolveOn(c: Codec, d: Disk, op: StoreOp): Disk
    requires op.Resolve?
  {
    var logged := AppendLine(c, d, Resolved(op.rid, op.outcome), op.resolveAppend);
    if op.resolveAppend.Whole?
    then logged.(bodies := Without(logged.bodies, op.rid, op.bodyGone), metas := Without(logged.metas, op.rid, op.metaGone))
    else logged
  }

  /** An orphaned patch file: no ledger line was seen for it, and its sidecar survives. */
  predicate Recoverable(d: Disk, e: SweepEntry, seen: set<HoldId>) {
    e.id !in seen && e.id in d.metas
  }

  function SweepOne(c: Codec, d: Disk, e: SweepEntry, seen: set<HoldId>): Disk {
    if !Recoverable(d, e, seen) then d
    else
      var logged := AppendLine(c, d, Held(d.metas[e.id]), e.append);
      if e.append.Whole? then logged.(metas := Without(logged.metas, e.id, e.removeMeta)) else logged
  }

  /** The boot sweep over the patch files still to visit; `seen` is what the ledger listed up front. */
  function SweepFrom(c: Codec, d: Disk, entries: seq<SweepEntry>, seen: set<HoldId>): Disk
    decreases |entries|
  {
    if entries == [] then d else SweepFrom(c, SweepOne(c, d, entries[0], seen), entries[1..], seen)
  }

  /** The holds the sweep reports as recovered. */
  function SweptHolds(c: Codec, d: Disk, entries: seq<SweepEntry>, seen: set<HoldId>): seq<HeldSync>
    decreases |entries|
  {
    if entries == [] then []
    else
      var e := entries[0];
      (if Recoverable(d, e, seen) && e.append.Whole? then [d.metas[e.id]] else [])
      + SweptHolds(c, SweepOne(c, d, e, seen), entries[1..], seen)
  }

  /** The patch files the sweep reports as having no recoverable identity this time. */
  function SweptFailures(c: Codec, d: Disk, entries: seq<SweepEntry>, seen: set<HoldId>): seq<HoldId>
    decreases |entries|
  {
    if entries == [] then []
    else
      var e := entries[0];
      (if e.id in seen || (Recoverable(d, e, seen) && e.append.Whole?) then [] else [e.id])
      + SweptFailures(c, SweepOne(c, d, e, seen), entries[1..], seen)
  }

  /** An unreadable ledger lists no ids at all. */
  function SeenBySweep(c: Codec, d: Disk, readable: bool): set<HoldId> {
    if readable then IdsOf(Events(c, d.ledger)) else {}
  }

  function Do(c: Codec, d: Disk, op: StoreOp): Disk {
    match op
    case Hold(_, _, _, _, _, _) => HoldOn(c, d, op)
    case Rekey(id, a, append) => AppendLine(c, d, Rekeyed(id, a), append)
    case Resolve(_, _, _, _, _) => ResolveOn(c, d, op)
    case Sweep(entries, readable) => SweepFrom(c, d, entries, SeenBySweep(c, d, readable))
  }

  /** Every append the sweep makes is clean. */
  predicate SweepIsClean(c: Codec, d: Disk, entries: seq<SweepEntry>, seen: set<HoldId>)
    decreases |entries|
  {
    entries != [] ==>
      && (Recoverable(d, entries[0], seen) ==> Clean(c, d, entries[0].append))
      && SweepIsClean(c, SweepOne(c, d, entries[0], seen), entries[1..], seen)
  }

  /** Every append the operation makes is clean. */
  predicate IsClean(c: Codec, d: Disk, op: StoreOp) {
    match op
    case Hold(_, patch, bodyOk, _, a, _) => |patch| <= MAX_SYNC_PATCH_BYTES && bodyOk ==> Clean(c, d, a)
    case Rekey(_, _, a) => Clean(c, d, a)
    case Resolve(_, _, a, _, _) => Clean(c, d, a)
    case Sweep(entries, readable) => SweepIsClean(c, d, entries, SeenBySweep(c, d, readable))
  }

  predicate RunIsClean(c: Codec, d: Disk, ops: seq<StoreOp>)
    decreases |ops|
  {
    ops != [] ==> IsClean(c, d, ops[0]) && RunIsClean(c, Do(c, d, ops[0]), ops[1..])
  }

  function Listing(c: Codec, d: Disk): Backlog {
    Replay(c, d.ledger)
  }

  function Known(c: Codec, d: Disk): set<HoldId> {
    IdsOf(Events(c, d.ledger))
  }

  predicate DistinctEntries(entries: seq<SweepEntry>) {
    forall i, j :: 0 <= i < j < |entries| ==> entries[i].id != entries[j].id
  }

  /** What callers guarantee: minted ids are new, other ids come from a listing, and the sweep visits
      each patch file once.  A sweep of an unreadable ledger is set apart. */
  predicate Allowed(c: Codec, d: Disk, op: StoreOp) {
    match op
    case Hold(h, _, _, _, _, _) => h.id !in Known(c, d) && h.id !in d.bodies && h.id !in d.metas
    case Rekey(id, _, _) => id in Known(c, d)
    case Resolve(id, _, _, _, _) => id in Known(c, d)
    case Sweep(entries, readable) =>
      readable && DistinctEntries(entries) && (set e | e in entries :: e.id) == d.bodies.Keys
  }

  ghost predicate Runs(c: Codec, d: Disk, ops: seq<StoreOp>, t: Disk)
    decreases |ops|
  {
    if ops == [] then d == t
    else Allowed(c, d, ops[0]) && Runs(c, Do(c, d, ops[0]), ops[1..], t)
  }

  /** Holds are entered under fresh ids, every open hold has its patch body, and a sidecar names its own
      hold. */
  ghost predicate Inv(c: Codec, d: Disk) {
    && HoldsAreFresh(Events(c, d.ledger))
    && (forall id :: HasId(Listing(c, d), id) ==> id in d.bodies)
    && (forall id :: id in d.metas ==> d.metas[id].id == id)
  }

  // ---------------------------------------------------------------------------------------------
  // One append

  lemma AppendEvents(c: Codec, d: Disk, e: Event, a: Append)
    requires Sound(c) && Clean(c, d, a)
    ensures Events(c, AppendLine(c, d, e, a).ledger) == Events(c, d.ledger) + if Lands(c, d, e, a) then [e] else []
    ensures Listing(c, AppendLine(c, d, e, a)) == if Lands(c, d, e, a) then Step(Listing(c, d), e) else Listing(c, d)
  {
    var cut := if a.Whole? then |Written(c, d.ledger, e, a.tailRead)| else a.n;
    WholeIsTorn(c, d.ledger, e, a.tailRead);
    assert Torn(c, d.ledger, e, a.tailRead, cut) == AppendLine(c, d, e, a).ledger;
    TornAppendEvents(c, d.ledger, e, a.tailRead, cut);
    EventsSplit(c, d.ledger);
    FoldConcat([], Events(c, d.ledger), [e]);
    FoldConcat([], Events(c, d.ledger), []);
    FoldSingle(Listing(c, d), e);
  }

  /** What an append promises: the history stays, and one that ran to its end is in it. */
  ghost predicate KeepsPromise(c: Codec, d: Disk, e: Event, a: Append) {
    var after := Events(c, AppendLine(c, d, e, a).ledger);
    Extends(Events(c, d.ledger), after) && (a.Whole? ==> after == Events(c, d.ledger) + [e])
  }

  /** Exactly the clean appends keep it. */
  lemma CleanIff(c: Codec, d: Disk, e: Event, a: Append)
    requires Sound(c)
    ensures KeepsPromise(c, d, e, a) <==> Clean(c, d, a)
  {
    if a.Whole? {
      AppendAddsIff(c, d.ledger, e, a.tailRead);
    } else {
      HistoryKeptIff(c, d.ledger, e, a.tailRead, a.n);
    }
  }

  /** A line that enters no id already in the history keeps holds fresh. */
  lemma AppendKeepsFresh(c: Codec, d: Disk, e: Event, a: Append)
    requires Sound(c) && Clean(c, d, a) && HoldsAreFresh(Events(c, d.ledger))
    requires e.Held? ==> e.Id() !in Known(c, d)
    ensures HoldsAreFresh(Events(c, AppendLine(c, d, e, a).ledger))
    ensures Known(c, AppendLine(c, d, e, a)) == Known(c, d) + if Lands(c, d, e, a) then {e.Id()} else {}
  {
    AppendEvents(c, d, e, a);
    var es := Events(c, d.ledger);
    var fs := Events(c, AppendLine(c, d, e, a).ledger);
    forall i, j | 0 <= i < j < |fs| && fs[j].Held?
      ensures fs[i].Id() != fs[j].Id()
    {
      assert fs[i] == es[i] && es[i] in es;
    }
    assert forall x :: x in fs <==> x in es || (x == e && Lands(c, d, e, a));
  }

  lemma AppendIds(c: Codec, d: Disk, e: Event, a: Append, id: HoldId)
    requires Sound(c) && Clean(c, d, a)
    ensures HasId(Listing(c, AppendLine(c, d, e, a)), id) ==> HasId(Listing(c, d), id) || (e.Held? && e.h.id == id)
  {
    AppendEvents(c, d, e, a);
    StepIds(Listing(c, d), e, id);
  }

  // ---------------------------------------------------------------------------------------------
  // Every operation keeps the invariant

  lemma HoldKeepsInv(c: Codec, d: Disk, op: StoreOp)
    requires Sound(c) && Inv(c, d) && op.Hold? && Allowed(c, d, op) && IsClean(c, d, op)
    ensures Inv(c, Do(c, d, op))
  {
    if |op.patch| <= MAX_SYNC_PATCH_BYTES && op.bodyOk {
      HoldFiles(c, d, op);
      AppendKeepsFresh(c, d, Held(op.h), op.holdAppend);
      forall id
        ensures HasId(Listing(c, Do(c, d, op)), id) ==> id in Do(c, d, op).bodies
      {
        AppendIds(c, d, Held(op.h), op.holdAppend, id);
      }
    }
  }

  /** The three files of a hold whose body was written. */
  lemma HoldFiles(c: Codec, d: Disk, op: StoreOp)
    requires op.Hold? && |op.patch| <= MAX_SYNC_PATCH_BYTES && op.bodyOk
    ensures var t := Do(c, d, op);
            && t.ledger == AppendLine(c, d, Held(op.h), op.holdAppend).ledger
            && t.bodies == d.bodies[op.h.id := op.patch]
            && (forall id :: id in t.metas ==> (id == op.h.id && t.metas[id] == op.h) || (id in d.metas && t.metas[id] == d.metas[id]))
  {
  }

  lemma RekeyKeepsInv(c: Codec, d: Disk, op: StoreOp)
    requires Sound(c) && Inv(c, d) && op.Rekey? && IsClean(c, d, op)
    ensures Inv(c, Do(c, d, op))
  {
    var e := Rekeyed(op.kid, op.newAgentId);
    AppendKeepsFresh(c, d, e, op.rekeyAppend);
    forall id
      ensures HasId(Listing(c, Do(c, d, op)), id) ==> id in Do(c, d, op).bodies
    {
      AppendIds(c, d, e, op.rekeyAppend, id);
    }
  }

  lemma ResolveKeepsInv(c: Codec, d: Disk, op: StoreOp)
    requires Sound(c) && Inv(c, d) && op.Resolve? && IsClean(c, d, op)
    ensures Inv(c, Do(c, d, op))
  {
    var e := Resolved(op.rid, op.outcome);
    AppendKeepsFresh(c, d, e, op.resolveAppend);
    AppendEvents(c, d, e, op.resolveAppend);
    forall id
      ensures HasId(Listing(c, Do(c, d, op)), id) ==> id in Do(c, d, op).bodies
    {
      AppendIds(c, d, e, op.resolveAppend, id);
      StepIds(Listing(c, d), e, id);
    }
  }

  /** What the sweep may visit: a body, and, if it would be listed again, an id the ledger does not know. */
  predicate Visitable(c: Codec, d: Disk, e: SweepEntry, seen: set<HoldId>) {
    e.id in d.bodies && (Recoverable(d, e, seen) ==> e.id !in Known(c, d))
  }

  lemma SweepOneKeepsInv(c: Codec, d: Disk, e: SweepEntry, seen: set<HoldId>)
    requires Sound(c) && Inv(c, d) && Visitable(c, d, e, seen) && (Recoverable(d, e, seen) ==> Clean(c, d, e.append))
    ensures var next := SweepOne(c, d, e, seen);
            && Inv(c, next) && next.bodies == d.bodies && next.metas.Keys <= d.metas.Keys
            && Known(c, next) <= Known(c, d) + {e.id}
  {
    if Recoverable(d, e, seen) {
      var h := d.metas[e.id];
      AppendKeepsFresh(c, d, Held(h), e.append);
      forall id
        ensures HasId(Listing(c, AppendLine(c, d, Held(h), e.append)), id) ==> id in d.bodies
      {
        AppendIds(c, d, Held(h), e.append, id);
      }
    }
  }

  lemma {:induction false} SweepKeepsInv(c: Codec, d: Disk, entries: seq<SweepEntry>, seen: set<HoldId>)
    requires Sound(c) && Inv(c, d) && DistinctEntries(entries) && SweepIsClean(c, d, entries, seen)
    requires forall e :: e in entries ==> Visitable(c, d, e, seen)
    ensures Inv(c, SweepFrom(c, d, entries, seen))
    decreases |entries|
  {
    if entries != [] {
      var e := entries[0];
      assert e in entries;
      SweepOneKeepsInv(c, d, e, seen);
      var next := SweepOne(c, d, e, seen);
      forall x | x in entries[1..]
        ensures Visitable(c, next, x, seen)
      {
        assert x in entries && x.id != e.id && Visitable(c, d, x, seen);
      }
      SweepKeepsInv(c, next, entries[1..], seen);
    }
  }

  lemma OpKeepsInv(c: Codec, d: Disk, op: StoreOp)
    requires Sound(c) && Inv(c, d) && Allowed(c, d, op) && IsClean(c, d, op)
    ensures Inv(c, Do(c, d, op))
  {
    match op
    case Hold(_, _, _, _, _, _) => HoldKeepsInv(c, d, op);
    case Rekey(_, _, _) => RekeyKeepsInv(c, d, op);
    case Resolve(_, _, _, _, _) => ResolveKeepsInv(c, d, op);
    case Sweep(entries, readable) => SweepKeepsInv(c, d, entries, SeenBySweep(c, d, readable));
  }

  // ---------------------------------------------------------------------------------------------
  // Over whole runs

  lemma {:induction false} SweepExtends(c: Codec, d: Disk, entries: seq<SweepEntry>, seen: set<HoldId>)
    requires Sound(c) && SweepIsClean(c, d, entries, seen)
    ensures Extends(Events(c, d.ledger), Events(c, SweepFrom(c, d, entries, seen).ledger))
    decreases |entries|
  {
    if entries != [] {
      var e := entries[0];
      if e.id in seen || e.id !in d.metas {
        SweepExtends(c, d, entries[1..], seen);
      } else {
        AppendEvents(c, d, Held(d.metas[e.id]), e.append);
        var logged := AppendLine(c, d, Held(d.metas[e.id]), e.append);
        var next := SweepOne(c, d, e, seen);
        SweepExtends(c, next, entries[1..], seen);
        ExtendsTrans(Events(c, d.ledger), Events(c, next.ledger), Events(c, SweepFrom(c, next, entries[1..], seen).ledger));
      }
    }
  }

  lemma ExtendsTrans(es: seq<Event>, fs: seq<Event>, gs: seq<Event>)
    requires Extends(es, fs) && Extends(fs, gs)
    ensures Extends(es, gs)
  {
    assert gs[..|es|] == gs[..|fs|][..|es|];
  }

  lemma OpExtends(c: Codec, d: Disk, op: StoreOp)
    requires Sound(c) && IsClean(c, d, op)
    ensures Extends(Events(c, d.ledger), Events(c, Do(c, d, op).ledger))
  {
    match op
    case Hold(h, patch, bodyOk, _, a, _) =>
      if |patch| <= MAX_SYNC_PATCH_BYTES && bodyOk {
        AppendEvents(c, d, Held(h), a);
      }
    case Rekey(id, agent, a) => AppendEvents(c, d, Rekeyed(id, agent), a);
    case Resolve(id, o, a, _, _) => AppendEvents(c, d, Resolved(id, o), a);
    case Sweep(entries, readable) => SweepExtends(c, d, entries, SeenBySweep(c, d, readable));
  }

  lemma {:induction false} RunKeepsInv(c: Codec, d: Disk, ops: seq<StoreOp>, t: Disk)
    requires Sound(c) && Inv(c, d) && Runs(c, d, ops, t) && RunIsClean(c, d, ops)
    ensures Inv(c, t)
    ensures Extends(Events(c, d.ledger), Events(c, t.ledger))
    decreases |ops|
  {
    if ops != [] {
      var next := Do(c, d, ops[0]);
      OpKeepsInv(c, d, ops[0]);
      OpExtends(c, d, ops[0]);
      RunKeepsInv(c, next, ops[1..], t);
      ExtendsTrans(Events(c, d.ledger), Events(c, next.ledger), Events(c, t.ledger));
    }
  }

  /** Over every run of holds, rekeys, resolves and sweeps, faults and crashes included: an open hold
      always has its body, no id is listed twice, and a hold whose resolve line was ever readable is
      never listed again. */
  lemma ResolvedNeverReturns(c: Codec, d: Disk, ops: seq<StoreOp>, t: Disk, id: HoldId)
    requires Sound(c) && Inv(c, d) && Runs(c, d, ops, t) && RunIsClean(c, d, ops)
    ensures HasId(Listing(c, t), id) ==> id in t.bodies
    ensures UniqueIds(Listing(c, t))
    ensures (exists e :: e in Events(c, d.ledger) && e.Resolved? && e.rid == id) ==> !HasId(Listing(c, t), id)
  {
    RunKeepsInv(c, d, ops, t);
    var es, fs := Events(c, d.ledger), Events(c, t.ledger);
    FoldIds([], fs, id);
    if e :| e in es && e.Resolved? && e.rid == id {
      var i :| 0 <= i < |es| && es[i] == e;
      assert fs[i] == fs[..|es|][i];
      EntersOnceNeverReturns(fs, id, i, |fs|);
      assert fs[..|fs|] == fs;
    }
  }

  /** A hold that left its body and its sidecar behind but no ledger line. */
  predicate Orphaned(c: Codec, d: Disk, id: HoldId, h: HeldSync) {
    id in d.bodies && id in d.metas && d.metas[id] == h && id !in Known(c, d)
  }

  /** A hold whose append threw is either already listed (its line landed whole) or orphaned. */
  lemma FailedAppendLeavesOrphan(c: Codec, d: Disk, op: StoreOp)
    requires Sound(c) && Inv(c, d) && op.Hold? && Allowed(c, d, op) && IsClean(c, d, op)
    requires |op.patch| <= MAX_SYNC_PATCH_BYTES && op.bodyOk && op.metaOk && op.holdAppend.Cut?
    ensures if Lands(c, d, Held(op.h), op.holdAppend) then op.h in Listing(c, Do(c, d, op))
            else Orphaned(c, Do(c, d, op), op.h.id, op.h) && Listing(c, Do(c, d, op)) == Listing(c, d)
  {
    AppendEvents(c, d, Held(op.h), op.holdAppend);
    AppendKeepsFresh(c, d, Held(op.h), op.holdAppend);
    if Lands(c, d, Held(op.h), op.holdAppend) {
      HeldIsListed(Listing(c, d), op.h);
    }
  }

  lemma HeldIsListed(b: Backlog, h: HeldSync)
    ensures h in Step(b, Held(h))
  {
    if HasId(b, h.id) {
      var i :| 0 <= i < |b| && b[i].id == h.id;
      assert Step(b, Held(h))[i] == h;
    }
  }

  lemma {:induction false} SweepKeepsListed(c: Codec, d: Disk, entries: seq<SweepEntry>, seen: set<HoldId>, h: HeldSync)
    requires Sound(c) && h in Listing(c, d) && SweepIsClean(c, d, entries, seen)
    requires forall e :: e in entries && e.id !in seen && e.id in d.metas ==> d.metas[e.id].id != h.id
    ensures h in Listing(c, SweepFrom(c, d, entries, seen))
    decreases |entries|
  {
    if entries != [] {
      var e := entries[0];
      assert entries == [e] + entries[1..] && e in entries;
      if e.id in seen || e.id !in d.metas {
        SweepKeepsListed(c, d, entries[1..], seen, h);
      } else {
        var g := d.metas[e.id];
        var logged := AppendLine(c, d, Held(g), e.append);
        AppendEvents(c, d, Held(g), e.append);
        if HasId(Listing(c, d), g.id) {
          var i :| 0 <= i < |Listing(c, d)| && Listing(c, d)[i] == h;
          assert Step(Listing(c, d), Held(g))[i] == h;
        }
        var next := SweepOne(c, d, e, seen);
        SweepKeepsListed(c, next, entries[1..], seen, h);
      }
    }
  }

  ghost predicate MetasNameThemselves(d: Disk) {
    forall id :: id in d.metas ==> d.metas[id].id == id
  }

  /** A sweep that does not count an id as seen enters its sidecar's hold, exactly as it was taken. */
  lemma {:induction false} SweepRestores(c: Codec, d: Disk, entries: seq<SweepEntry>, seen: set<HoldId>, e: SweepEntry)
    requires Sound(c) && MetasNameThemselves(d) && DistinctEntries(entries) && SweepIsClean(c, d, entries, seen)
    requires e in entries && e.append.Whole? && e.id !in seen && e.id in d.metas
    ensures d.metas[e.id] in Listing(c, SweepFrom(c, d, entries, seen))
    decreases |entries|
  {
    var first := entries[0];
    assert entries == [first] + entries[1..];
    if first.id !in seen && first.id in d.metas {
      var h := d.metas[first.id];
      var logged := AppendLine(c, d, Held(h), first.append);
      var next := SweepOne(c, d, first, seen);
      if first == e {
        AppendEvents(c, d, Held(h), first.append);
        HeldIsListed(Listing(c, d), h);
        SweepKeepsListed(c, next, entries[1..], seen, h);
      } else {
        SweepRestores(c, next, entries[1..], seen, e);
      }
    } else {
      SweepRestores(c, d, entries[1..], seen, e);
    }
  }

  lemma ExtendsKnown(c: Codec, d: Disk, t: Disk)
    requires Extends(Events(c, d.ledger), Events(c, t.ledger))
    ensures Known(c, d) <= Known(c, t)
  {
    var es, fs := Events(c, d.ledger), Events(c, t.ledger);
    forall e | e in es
      ensures e in fs
    {
      var i :| 0 <= i < |es| && es[i] == e;
      assert fs[i] == fs[..|es|][i];
    }
  }

  /** One entry of a sweep leaves an orphan alone, or enters its hold. */
  lemma SweepOneOrphan(c: Codec, d: Disk, e: SweepEntry, seen: set<HoldId>, id: HoldId, h: HeldSync)
    requires Sound(c) && MetasNameThemselves(d) && Orphaned(c, d, id, h)
    requires Recoverable(d, e, seen) ==> Clean(c, d, e.append)
    ensures var next := SweepOne(c, d, e, seen);
            && MetasNameThemselves(next)
            && (id in Known(c, next) ==> h in Listing(c, next) && e.id == id)
            && (id !in Known(c, next) ==> Orphaned(c, next, id, h) && !(e.id == id && id !in seen && e.append.Whole?))
  {
    if Recoverable(d, e, seen) {
      var g := d.metas[e.id];
      AppendEvents(c, d, Held(g), e.append);
      var es := Events(c, d.ledger);
      var logged := AppendLine(c, d, Held(g), e.append);
      assert forall x :: x in Events(c, logged.ledger) <==> x in es || (x == Held(g) && Lands(c, d, Held(g), e.append));
      if e.id == id && Lands(c, d, Held(g), e.append) {
        HeldIsListed(Listing(c, d), g);
        assert Held(g) in Events(c, logged.ledger);
      }
    }
  }

  /** A whole sweep: the orphan is listed if its line landed, and an orphan still if it did not. */
  lemma {:induction false} SweepOrphan(c: Codec, d: Disk, entries: seq<SweepEntry>, seen: set<HoldId>, id: HoldId, h: HeldSync)
    requires Sound(c) && MetasNameThemselves(d) && Orphaned(c, d, id, h) && h.id == id
    requires DistinctEntries(entries) && SweepIsClean(c, d, entries, seen)
    ensures var t := SweepFrom(c, d, entries, seen);
            && (id in Known(c, t) ==> h in Listing(c, t))
            && (id !in Known(c, t) ==> Orphaned(c, t, id, h))
            && (id !in Known(c, t) ==> forall e :: e in entries && e.id == id && id !in seen ==> e.append.Cut?)
    decreases |entries|
  {
    if entries != [] {
      var e, next := entries[0], SweepOne(c, d, entries[0], seen);
      assert entries == [e] + entries[1..];
      SweepOneOrphan(c, d, e, seen, id, h);
      if id in Known(c, next) {
        forall x | x in entries[1..] && x.id !in seen && x.id in next.metas
          ensures next.metas[x.id].id != h.id
        {
          var k :| 0 <= k < |entries[1..]| && entries[1..][k] == x;
          assert entries[k + 1] == x;
        }
        SweepKeepsListed(c, next, entries[1..], seen, h);
        SweepExtends(c, next, entries[1..], seen);
        ExtendsKnown(c, next, SweepFrom(c, next, entries[1..], seen));
      } else {
        SweepOrphan(c, next, entries[1..], seen, id, h);
      }
    }
  }

  lemma OpKeepsOrphan(c: Codec, d: Disk, op: StoreOp, id: HoldId, h: HeldSync)
    requires Sound(c) && Inv(c, d) && Allowed(c, d, op) && IsClean(c, d, op) && Orphaned(c, d, id, h)
    requires id !in Known(c, Do(c, d, op))
    ensures Orphaned(c, Do(c, d, op), id, h)
  {
    if op.Sweep? {
      SweepOrphan(c, d, op.entries, SeenBySweep(c, d, op.readable), id, h);
    }
  }

  /** Over every run, sweeps included: an orphan stays one as long as no line of its id has landed. */
  lemma {:induction false} OrphanSurvives(c: Codec, d: Disk, ops: seq<StoreOp>, t: Disk, id: HoldId, h: HeldSync)
    requires Sound(c) && Inv(c, d) && Runs(c, d, ops, t) && RunIsClean(c, d, ops) && Orphaned(c, d, id, h)
    requires id !in Known(c, t)
    ensures Inv(c, t) && Orphaned(c, t, id, h)
    decreases |ops|
  {
    if ops != [] {
      var next := Do(c, d, ops[0]);
      OpKeepsInv(c, d, ops[0]);
      RunKeepsInv(c, next, ops[1..], t);
      ExtendsKnown(c, next, t);
      OpKeepsOrphan(c, d, ops[0], id, h);
      OrphanSurvives(c, next, ops[1..], t, id, h);
    }
  }

  /** A hold whose ledger append failed, but whose body and sidecar survive, is in the backlog again,
      unchanged, after the first sweep that lands its line, whatever ran in between, sweeps that could
      not append it included; until then it stays recoverable. */
  lemma OrphanComesBack(c: Codec, d: Disk, ops: seq<StoreOp>, t: Disk, sweep: StoreOp, e: SweepEntry, h: HeldSync)
    requires Sound(c) && Inv(c, d) && Runs(c, d, ops, t) && RunIsClean(c, d, ops) && Orphaned(c, d, e.id, h)
    requires e.id !in Known(c, t)
    requires sweep.Sweep? && Allowed(c, t, sweep) && IsClean(c, t, sweep) && e in sweep.entries
    ensures h in Listing(c, Do(c, t, sweep)) <==> e.id in Known(c, Do(c, t, sweep))
    ensures e.id !in Known(c, Do(c, t, sweep)) ==> e.append.Cut? && Orphaned(c, Do(c, t, sweep), e.id, h)
  {
    OrphanSurvives(c, d, ops, t, e.id, h);
    SweepOrphan(c, t, sweep.entries, SeenBySweep(c, t, true), e.id, h);
    var after := Do(c, t, sweep);
    if e.id !in Known(c, after) {
      FoldIds([], Events(c, after.ledger), e.id);
      assert !HasId(Listing(c, after), h.id);
    }
  }

  lemma {:induction false} SweepOfKnownIsStale(c: Codec, d: Disk, entries: seq<SweepEntry>, e: SweepEntry)
    requires Sound(c) && MetasNameThemselves(d) && DistinctEntries(entries) && SweepIsClean(c, d, entries, {})
    requires forall x :: x in entries ==> x.append.Whole?
    requires e in entries && e.id in d.metas && e.id in Known(c, d)
    ensures !HoldsAreFresh(Events(c, SweepFrom(c, d, entries, {}).ledger))
    decreases |entries|
  {
    var first := entries[0];
    assert entries == [first] + entries[1..] && first in entries;
    if first.id !in d.metas {
      SweepOfKnownIsStale(c, d, entries[1..], e);
    } else {
      var logged := AppendLine(c, d, Held(d.metas[first.id]), first.append);
      var next := SweepOne(c, d, first, {});
      AppendEvents(c, d, Held(d.metas[first.id]), first.append);
      var es, ls := Events(c, d.ledger), Events(c, logged.ledger);
      var last := SweepFrom(c, next, entries[1..], {});
      if first == e {
        SweepExtends(c, next, entries[1..], {});
        var i :| 0 <= i < |es| && es[i].Id() == e.id;
        var fs := Events(c, last.ledger);
        assert fs[i] == fs[..|ls|][i] && fs[|es|] == fs[..|ls|][|es|];
      } else {
        assert forall x :: x in es ==> x in ls;
        SweepOfKnownIsStale(c, next, entries[1..], e);
      }
    }
  }

  /** Reading an unreadable ledger as empty is safe exactly when no surviving sidecar names an id the
      ledger already knows. */
  lemma UnreadableSweepIsSafeIff(c: Codec, d: Disk, entries: seq<SweepEntry>)
    requires Sound(c) && Inv(c, d) && DistinctEntries(entries) && SweepIsClean(c, d, entries, {})
    requires (set e | e in entries :: e.id) == d.bodies.Keys && forall x :: x in entries ==> x.append.Whole?
    ensures HoldsAreFresh(Events(c, Do(c, d, Sweep(entries, false)).ledger))
            <==> forall id :: id in d.bodies && id in d.metas ==> id !in Known(c, d)
  {
    if forall id :: id in d.bodies && id in d.metas ==> id !in Known(c, d) {
      forall e | e in entries
        ensures e.id in d.bodies
      {
      }
      SweepKeepsInv(c, d, entries, {});
    } else {
      var id :| id in d.bodies && id in d.metas && id in Known(c, d);
      var e :| e in entries && e.id == id;
      SweepOfKnownIsStale(c, d, entries, e);
    }
  }

  /** The state a completed hold leaves when removing its sidecar failed; cleanups are best-effort. */
  lemma SidecarCanOutliveItsHold(c: Codec, h: HeldSync, patch: string, tailRead: bool)
    requires Sound(c) && |patch| <= MAX_SYNC_PATCH_BYTES
    ensures var d0 := Disk([], map[], map[]);
            var hold := Hold(h, patch, true, true, Whole(tailRead), false);
            && Inv(c, d0) && Allowed(c, d0, hold) && IsClean(c, d0, hold)
            && h.id in Known(c, Do(c, d0, hold)) && Do(c, d0, hold).metas == map[h.id := h]
  {
    var d0 := Disk([], map[], map[]);
    assert Events(c, []) == Decoded(c, [[]]) == Decoded(c, [[]][1..]);
    ClosedTail([]);
    AppendKeepsFresh(c, d0, Held(h), Whole(tailRead));
  }

  /** An append that ran to its end leaves a closed last line behind. */
  lemma WholeClosesLine(c: Codec, d: Disk, e: Event, tailRead: bool)
    ensures Tail(AppendLine(c, d, e, Whole(tailRead)).ledger) == []
  {
    var before := d.ledger + (Prefix(d.ledger, tailRead) + c.encode(e));
    NewlineSettles(c, before);
    assert AppendLine(c, d, e, Whole(tailRead)).ledger == before + [NEWLINE];
  }

  /** From there: the hold is applied, its sidecar survives once more, and a sweep that cannot read the
      ledger, not even its last byte, lists the applied hold again. */
  lemma UnreadableSweepCanResurrect(c: Codec, d: Disk, h: HeldSync)
    requires Sound(c) && h.id in Known(c, d) && d.metas == map[h.id := h]
    ensures var resolve := Resolve(h.id, Applied, Whole(true), false, false);
            && Allowed(c, d, resolve)
            && !HasId(Listing(c, Do(c, d, resolve)), h.id)
            && h in Listing(c, Do(c, Do(c, d, resolve), Sweep([SweepEntry(h.id, Whole(false), true)], false)))
  {
    var done := Do(c, d, Resolve(h.id, Applied, Whole(true), false, false));
    AppendEvents(c, d, Resolved(h.id, Applied), Whole(true));
    StepIds(Listing(c, d), Resolved(h.id, Applied), h.id);
    WholeClosesLine(c, d, Resolved(h.id, Applied), true);
    var e := SweepEntry(h.id, Whole(false), true);
    SweepRestores(c, done, [e], {}, e);
  }

  // ---------------------------------------------------------------------------------------------
  // The files

  /** What a hold leaves: nothing at all of a patch over 64 MB or without a written body; otherwise its body,
      and its sidecar if that was written and the hold is not yet complete or removing it failed. */
  lemma HoldLeaves(c: Codec, d: Disk, op: StoreOp)
    requires op.Hold? && op.h.id !in d.metas
    ensures var t := Do(c, d, op);
            if |op.patch| > 67108864 || !op.bodyOk then t == d
            else
              && t.bodies == d.bodies[op.h.id := op.patch]
              && t.ledger == AppendLine(c, d, Held(op.h), op.holdAppend).ledger
              && (op.h.id in t.metas <==> op.metaOk && (op.holdAppend.Cut? || !op.metaRemoved))
              && (op.h.id in t.metas ==> t.metas[op.h.id] == op.h)
              && t.metas - {op.h.id} == d.metas
  {
  }

  /** What a resolve leaves: its line, and as long as that is not complete both files. */
  lemma ResolveLeaves(c: Codec, d: Disk, op: StoreOp)
    requires op.Resolve?
    ensures var t := Do(c, d, op);
            && t.ledger == AppendLine(c, d, Resolved(op.rid, op.outcome), op.resolveAppend).ledger
            && t.bodies - {op.rid} == d.bodies - {op.rid} && t.metas - {op.rid} == d.metas - {op.rid}
            && (op.rid in t.bodies <==> op.rid in d.bodies && (op.resolveAppend.Cut? || !op.bodyGone))
            && (op.rid in t.bodies ==> t.bodies[op.rid] == d.bodies[op.rid])
            && (op.rid in t.metas <==> op.rid in d.metas && (op.resolveAppend.Cut? || !op.metaGone))
            && (op.rid in t.metas ==> t.metas[op.rid] == d.metas[op.rid])
  {
  }

  /** What one visit of the sweep leaves: no body is touched, and the sidecar goes once its hold is in. */
  lemma SweepOneLeaves(c: Codec, d: Disk, e: SweepEntry, seen: set<HoldId>)
    ensures var t := SweepOne(c, d, e, seen);
            && t.bodies == d.bodies && t.metas - {e.id} == d.metas - {e.id}
            && (e.id in t.metas <==> e.id in d.metas && (e.id in seen || e.append.Cut? || !e.removeMeta))
            && (e.id in t.metas ==> t.metas[e.id] == d.metas[e.id])
  {
  }

  /** What the sweep reports: every patch file that no ledger line was seen for is recovered, with the identity
      its sidecar has, if there is one and its append ran to its end, and named as unrecoverable if not. */
  lemma {:induction false} SweepReports(c: Codec, d: Disk, entries: seq<SweepEntry>, seen: set<HoldId>)
    requires DistinctEntries(entries)
    ensures forall h :: h in SweptHolds(c, d, entries, seen)
                        <==> exists e :: e in entries && e.id !in seen && e.id in d.metas && e.append.Whole? && h == d.metas[e.id]
    ensures forall id :: id in SweptFailures(c, d, entries, seen)
                         <==> exists e :: e in entries && e.id == id && id !in seen && !(id in d.metas && e.append.Whole?)
    decreases |entries|
  {
    if entries != [] {
      var first, rest := entries[0], entries[1..];
      var next := SweepOne(c, d, first, seen);
      assert entries == [first] + rest;
      forall e | e in rest
        ensures e.id != first.id
      {
        var i :| 0 <= i < |rest| && rest[i] == e;
        assert entries[i + 1] == e;
      }
      SweepReports(c, next, rest, seen);
      SweepOneLeaves(c, d, first, seen);
      forall e | e in rest
        ensures e.id in next.metas <==> e.id in d.metas
        ensures e.id in d.metas ==> next.metas[e.id] == d.metas[e.id]
      {
        assert e.id in next.metas - {first.id} <==> e.id in d.metas - {first.id};
        assert e.id in d.metas ==> (next.metas - {first.id})[e.id] == (d.metas - {first.id})[e.id];
      }
    }
  }

  /** The files are those of the open holds: each has its body, nothing else has one, and no sidecar is left. */
  ghost predicate Tidy(c: Codec, d: Disk) {
    d.metas == map[] && forall id :: id in d.bodies <==> HasId(Listing(c, d), id)
  }

  /** Every call of the operation works. */
  predicate Faultless(op: StoreOp) {
    match op
    case Hold(_, _, bodyOk, metaOk, a, metaRemoved) => bodyOk && metaOk && a.Whole? && metaRemoved
    case Rekey(_, _, a) => a.Whole?
    case Resolve(_, _, a, bodyGone, metaGone) => a.Whole? && bodyGone && metaGone
    case Sweep(_, readable) => readable
  }

  lemma TidyHold(c: Codec, d: Disk, op: StoreOp)
    requires Sound(c) && Inv(c, d) && Tidy(c, d) && op.Hold? && Faultless(op) && Allowed(c, d, op) && IsClean(c, d, op)
    ensures Tidy(c, Do(c, d, op))
  {
    if |op.patch| <= MAX_SYNC_PATCH_BYTES {
      var t := Do(c, d, op);
      HoldLeaves(c, d, op);
      AppendEvents(c, d, Held(op.h), op.holdAppend);
      forall id
        ensures id in t.bodies <==> HasId(Listing(c, t), id)
      {
        StepIds(Listing(c, d), Held(op.h), id);
        if HasId(Listing(c, d), id) {
          StepKeepsIds(Listing(c, d), Held(op.h), id);
        }
      }
      assert t.metas == map[];
    }
  }

  /** Only the resolve of an id takes it off the list. */
  lemma StepKeepsIds(b: Backlog, e: Event, id: HoldId)
    requires HasId(b, id) && !(e.Resolved? && e.rid == id)
    ensures HasId(Step(b, e), id)
  {
    var h :| h in b && h.id == id;
    var i :| 0 <= i < |b| && b[i] == h;
    match e
    case Held(g) =>
      if HasId(b, g.id) {
        assert Step(b, e)[i].id == id;
      } else {
        assert Step(b, e)[i] == h;
      }
    case Resolved(rid, _) => WithoutIdProps(b, rid);
    case Rekeyed(kid, a) => assert Step(b, e)[i].id == id;
  }

  lemma TidyResolve(c: Codec, d: Disk, op: StoreOp)
    requires Sound(c) && Tidy(c, d) && op.Resolve? && Faultless(op) && IsClean(c, d, op)
    ensures Tidy(c, Do(c, d, op))
  {
    var t, e := Do(c, d, op), Resolved(op.rid, op.outcome);
    ResolveLeaves(c, d, op);
    AppendEvents(c, d, e, op.resolveAppend);
    forall id
      ensures id in t.bodies <==> HasId(Listing(c, t), id)
    {
      StepIds(Listing(c, d), e, id);
      if id != op.rid && HasId(Listing(c, d), id) {
        StepKeepsIds(Listing(c, d), e, id);
      }
      assert id != op.rid ==> (id in t.bodies - {op.rid} <==> id in d.bodies - {op.rid});
    }
    assert t.metas - {op.rid} == map[];
  }

  lemma TidyRekey(c: Codec, d: Disk, op: StoreOp)
    requires Sound(c) && Tidy(c, d) && op.Rekey? && Faultless(op) && IsClean(c, d, op)
    ensures Tidy(c, Do(c, d, op))
  {
    var t, e := Do(c, d, op), Rekeyed(op.kid, op.newAgentId);
    AppendEvents(c, d, e, op.rekeyAppend);
    forall id
      ensures HasId(Listing(c, t), id) <==> HasId(Listing(c, d), id)
    {
      StepIds(Listing(c, d), e, id);
      if HasId(Listing(c, d), id) {
        StepKeepsIds(Listing(c, d), e, id);
      }
    }
  }

  lemma {:induction false} SweepNothing(c: Codec, d: Disk, entries: seq<SweepEntry>, seen: set<HoldId>)
    requires d.metas == map[]
    ensures SweepFrom(c, d, entries, seen) == d
    decreases |entries|
  {
    if entries != [] {
      SweepNothing(c, d, entries[1..], seen);
    }
  }

  /** Without faults the store never holds more than it lists: over every such run each open hold has its body,
      no other body is left, and no sidecar. */
  lemma {:induction false} FaultlessRunIsTidy(c: Codec, d: Disk, ops: seq<StoreOp>, t: Disk)
    requires Sound(c) && Inv(c, d) && Tidy(c, d) && Runs(c, d, ops, t) && RunIsClean(c, d, ops)
    requires forall op :: op in ops ==> Faultless(op)
    ensures Tidy(c, t)
    decreases |ops|
  {
    if ops != [] {
      var op := ops[0];
      assert op in ops;
      OpKeepsInv(c, d, op);
      match op {
        case Hold(_, _, _, _, _, _) => TidyHold(c, d, op);
        case Rekey(_, _, _) => TidyRekey(c, d, op);
        case Resolve(_, _, _, _, _) => TidyResolve(c, d, op);
        case Sweep(entries, readable) => SweepNothing(c, d, entries, SeenBySweep(c, d, readable));
      }
      FaultlessRunIsTidy(c, Do(c, d, op), ops[1..], t);
    }
  }

  // ---------------------------------------------------------------------------------------------
  // An append that could not see the end of the file

  /** The last byte of the encoding landed and the newline behind it did not. */
  function WithoutNewline(c: Codec, d: Disk, e: Event): Append {
    Cut(true, |Prefix(d.ledger, true)| + |c.encode(e)|)
  }

  /** For every disk and any two events: the first lands but for its newline; the second is appended by a
      process that cannot read the last byte.  Both are gone, although the first was readable in between
      and the second was reported as written. */
  lemma GluedAppendForgetsBoth(c: Codec, d: Disk, first: Event, second: Event)
    requires Sound(c)
    ensures var torn := AppendLine(c, d, first, WithoutNewline(c, d, first));
            var glued := AppendLine(c, torn, second, Whole(false));
            && Events(c, torn.ledger) == Events(c, d.ledger) + [first]
            && Events(c, glued.ledger) == Events(c, d.ledger)
            && Listing(c, glued) == Listing(c, d)
  {
    var a := WithoutNewline(c, d, first);
    var torn := AppendLine(c, d, first, a);
    var base := d.ledger + Prefix(d.ledger, true);
    AppendEvents(c, d, first, a);
    TornShape(c, d.ledger, first, true, a.n);
    PrefixKeepsEvents(c, d.ledger, true);
    TextExtendsTail(c, base, c.encode(first));
    PaddingHoldsNothing(c, base);
    assert torn.ledger == base + c.encode(first);
    assert !Padding(Tail(torn.ledger)) by {
      assert Tail(torn.ledger) == [] + c.encode(first) == c.encode(first);
      if Padding(c.encode(first)) {
        assert Blank(c.encode(first));
      }
    }
    WholeIsTorn(c, torn.ledger, second, false);
    TornAppendEvents(c, torn.ledger, second, false, |Written(c, torn.ledger, second, false)|);
  }

  /** So a hold that was listed vanishes, and a resolved hold is listed again. */
  lemma GluedAppendUndoesResolve(c: Codec, d: Disk, h: HeldSync, o: Outcome, second: Event)
    requires Sound(c) && h in Listing(c, d)
    ensures var torn := AppendLine(c, d, Resolved(h.id, o), WithoutNewline(c, d, Resolved(h.id, o)));
            !HasId(Listing(c, torn), h.id) && h in Listing(c, AppendLine(c, torn, second, Whole(false)))
  {
    var e := Resolved(h.id, o);
    GluedAppendForgetsBoth(c, d, e, second);
    AppendEvents(c, d, e, WithoutNewline(c, d, e));
    StepIds(Listing(c, d), e, h.id);
  }

  // ---------------------------------------------------------------------------------------------
  // The store object

  /** After `i` entries the disk is `d`, and the rest of the sweep leads to where the whole sweep leads. */
  ghost predicate SweepGoal(c: Codec, start: Disk, entries: seq<SweepEntry>, seen: set<HoldId>,
                            d: Disk, found: seq<HeldSync>, lost: seq<HoldId>, i: nat)
    requires i <= |entries|
  {
    && SweepFrom(c, d, entries[i..], seen) == SweepFrom(c, start, entries, seen)
    && found + SweptHolds(c, d, entries[i..], seen) == SweptHolds(c, start, entries, seen)
    && lost + SweptFailures(c, d, entries[i..], seen) == SweptFailures(c, start, entries, seen)
  }

  lemma SweepUnfold(c: Codec, start: Disk, d: Disk, entries: seq<SweepEntry>, i: nat, seen: set<HoldId>,
                    found: seq<HeldSync>, lost: seq<HoldId>)
    requires i < |entries| && SweepGoal(c, start, entries, seen, d, found, lost, i)
    ensures var e, next := entries[i], SweepOne(c, d, entries[i], seen);
            var found' := if Recoverable(d, e, seen) && e.append.Whole? then [d.metas[e.id]] else [];
            var lost' := if e.id in seen || (Recoverable(d, e, seen) && e.append.Whole?) then [] else [e.id];
            SweepGoal(c, start, entries, seen, next, found + found', lost + lost', i + 1)
  {
    var e, rest := entries[i], entries[i + 1..];
    assert entries[i..][0] == e && entries[i..][1..] == rest;
    var next := SweepOne(c, d, e, seen);
    Regroup(found, if Recoverable(d, e, seen) && e.append.Whole? then [d.metas[e.id]] else [], SweptHolds(c, next, rest, seen));
    Regroup(lost, if e.id in seen || (Recoverable(d, e, seen) && e.append.Whole?) then [] else [e.id],
            SweptFailures(c, next, rest, seen));
  }

  datatype HoldResult = TooLarge | BodyNotWritten | AppendFailed(id: HoldId) | HeldAs(h: HeldSync)

  class HeldSyncStore {
    const codec: Codec
    var ledger: seq<Byte>
    var bodies: map<HoldId, string>
    var metas: map<HoldId, HeldSync>

    ghost function View(): Disk
      reads this
    {
      Disk(ledger, bodies, metas)
    }

    constructor (codec: Codec, disk: Disk)
      ensures this.codec == codec && View() == disk
    {
      this.codec := codec;
      ledger, bodies, metas := disk.ledger, disk.bodies, disk.metas;
    }

    /** Returns whether the append ran to its end; otherwise it threw. */
    method WriteEvent(e: Event, a: Append) returns (ok: bool)
      modifies this`ledger
      ensures View() == AppendLine(codec, old(View()), e, a)
      ensures ok == a.Whole?
    {
      var prefix := [];
      if a.tailRead && |ledger| > 0 && ledger[|ledger| - 1] != NEWLINE {
        prefix := [NEWLINE];
      }
      var line := prefix + codec.encode(e) + [NEWLINE];
      if a.Cut? && a.n < |line| {
        line := line[..a.n];
      }
      ledger := ledger + line;
      ok := a.Whole?;
    }

    method HoldPatch(h: HeldSync, patch: string, bodyOk: bool, metaOk: bool, append: Append, metaRemoved: bool)
      returns (r: HoldResult)
      modifies this
      ensures View() == Do(codec, old(View()), Hold(h, patch, bodyOk, metaOk, append, metaRemoved))
      ensures r == if |patch| > MAX_SYNC_PATCH_BYTES then TooLarge
                   else if !bodyOk then BodyNotWritten
                   else if append.Cut? then AppendFailed(h.id)
                   else HeldAs(h)
    {
      if |patch| > MAX_SYNC_PATCH_BYTES {
        return TooLarge;
      }
      if !bodyOk {
        return BodyNotWritten;
      }
      bodies := bodies[h.id := patch];
      if metaOk {
        metas := metas[h.id := h];
      }
      var ok := WriteEvent(Held(h), append);
      if !ok {
        return AppendFailed(h.id);
      }
      if metaRemoved {
        metas := metas - {h.id};
      }
      return HeldAs(h);
    }

    method RekeyHold(id: HoldId, newAgentId: string, append: Append) returns (ok: bool)
      modifies this`ledger
      ensures View() == Do(codec, old(View()), Rekey(id, newAgentId, append))
      ensures ok == append.Whole?
    {
      ok := WriteEvent(Rekeyed(id, newAgentId), append);
    }

    method ResolveHold(id: HoldId, outcome: Outcome, append: Append, bodyGone: bool, metaGone: bool) returns (ok: bool)
      modifies this
      ensures View() == Do(codec, old(View()), Resolve(id, outcome, append, bodyGone, metaGone))
      ensures ok == append.Whole?
    {
      ok := WriteEvent(Resolved(id, outcome), append);
      if ok {
        if bodyGone {
          bodies := bodies - {id};
        }
        if metaGone {
          metas := metas - {id};
        }
      }
    }

    /** All unresolved holds, oldest first; `None` when the ledger exists but cannot be read. */
    method ListAllHeld(readable: bool) returns (r: Option<Backlog>)
      ensures r == if readable then Some(Listing(codec, View())) else None
    {
      if !readable {
        return None;
      }
      var lines := Lines(ledger);
      var held: Backlog := [];
      for i := 0 to |lines|
        invariant held == Fold([], Decoded(codec, lines[..i]))
      {
        assert lines[..i + 1] == lines[..i] + [lines[i]];
        DecodedConcat(codec, lines[..i], [lines[i]]);
        FoldConcat([], Decoded(codec, lines[..i]), Decoded(codec, [lines[i]]));
        assert [lines[i]][1..] == [];
        if !Blank(lines[i]) {
          var parsed := codec.decode(lines[i]);
          if parsed.Some? {
            assert Decoded(codec, [lines[i]]) == [parsed.value];
            assert Fold(held, [parsed.value]) == Fold(Step(held, parsed.value), [parsed.value][1..]);
            held := Step(held, parsed.value);
          }
        }
      }
      assert lines[..|lines|] == lines;
      r := Some(held);
    }

    /** Every id that ever appeared; an unreadable ledger yields none. */
    method AllLedgerIds(readable: bool) returns (ids: set<HoldId>)
      ensures ids == SeenBySweep(codec, View(), readable)
    {
      ids := {};
      if !readable {
        return;
      }
      var lines := Lines(ledger);
      for i := 0 to |lines|
        invariant ids == IdsOf(Decoded(codec, lines[..i]))
      {
        assert lines[..i + 1] == lines[..i] + [lines[i]];
        DecodedConcat(codec, lines[..i], [lines[i]]);
        assert [lines[i]][1..] == [];
        if !Blank(lines[i]) {
          var parsed := codec.decode(lines[i]);
          if parsed.Some? {
            ids := ids + {parsed.value.Id()};
          }
        }
      }
      assert lines[..|lines|] == lines;
    }

    /** The sweep's work on one patch file. */
    method SweepPatch(e: SweepEntry, seen: set<HoldId>) returns (recovered: seq<HeldSync>, unrecoverable: seq<HoldId>)
      modifies this
      ensures View() == SweepOne(codec, old(View()), e, seen)
      ensures recovered == if Recoverable(old(View()), e, seen) && e.append.Whole? then [old(metas)[e.id]] else []
      ensures unrecoverable == if e.id in seen || (Recoverable(old(View()), e, seen) && e.append.Whole?) then [] else [e.id]
    {
      recovered, unrecoverable := [], [];
      if e.id in seen {
        return;
      }
      if e.id !in metas {
        unrecoverable := [e.id];
        return;
      }
      var meta := metas[e.id];
      var ok := WriteEvent(Held(meta), e.append);
      if ok {
        recovered := [meta];
        if e.removeMeta {
          metas := metas - {e.id};
        }
      } else {
        unrecoverable := [e.id];
      }
    }

    method SweepOrphanedPatches(entries: seq<SweepEntry>, readable: bool) returns (recovered: seq<HeldSync>, unrecoverable: seq<HoldId>)
      modifies this
      ensures View() == Do(codec, old(View()), Sweep(entries, readable))
      ensures recovered == SweptHolds(codec, old(View()), entries, SeenBySweep(codec, old(View()), readable))
      ensures unrecoverable == SweptFailures(codec, old(View()), entries, SeenBySweep(codec, old(View()), readable))
    {
      recovered, unrecoverable := [], [];
      var seen := AllLedgerIds(readable);
      ghost var start := View();
      for i := 0 to |entries|
        invariant SweepGoal(codec, start, entries, seen, View(), recovered, unrecoverable, i)
      {
        SweepUnfold(codec, start, View(), entries, i, seen, recovered, unrecoverable);
        var found, lost := SweepPatch(entries[i], seen);
        recovered := recovered + found;
        unrecoverable := unrecoverable + lost;
      }
    }
  }
}
