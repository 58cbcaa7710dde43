/**
 The explicit apply over the store and the checkout together: each patch is written into a checkout that
 the operator may change at any moment, and each write is pinned to a fingerprint taken right after the
 one before it.
 */
module HeldRace {
  import opened Wrappers
  import H = HeldStore
  import L = HeldLedger
  import R = HeldReplay
  import S = SyncRace

  /** A patch body, and the list of paths read from it. */
  datatype Parsed = Parsed(patch: S.Patch, touched: seq<S.Path>)

  /** What one patch meets: an early failure, the calls of its write, its record, and the fingerprint for
      the next one, with what the operator does before that. */
  datatype Run = Run(early: bool, calls: S.ApplyCalls, record: H.Append, bodyGone: bool, metaGone: bool, captureOk: bool,
                     pause: seq<S.Tree>)

  function Outcome(r: S.ApplyResult, e: S.Expectation): R.WriteResult {
    match r
    case NotApplied => R.Refused
    case AppliedWith(divergence) => R.Wrote(divergence != [])
    case ThrewAfterWrite => R.ThrewAfter(!e.Threw?)
  }

  function CallsOf(w: R.WriteResult, run: Run): R.PatchCalls {
    R.PatchCalls(w, run.record, run.bodyGone, run.metaGone, run.captureOk)
  }

  /** One write: the moment its pin was taken, and what was seen around it when. */
  datatype Mark = Mark(pinAt: nat, tl: S.Timeline, parsed: Parsed, seen: S.Seen)

  /** The write went into the very checkout its pin shows. */
  ghost predicate PinnedWrite(past: seq<S.Tree>, m: Mark) {
    && S.Happened(past, m.tl, m.parsed.patch, m.parsed.touched, m.seen)
    && m.pinAt <= m.tl.recheckAt
    && past[m.tl.recheckAt] == past[m.pinAt]
  }

  /** Each pin was taken after the write before it, the first one at `start` or later. */
  predicate InTurn(start: nat, marks: seq<Mark>) {
    && (marks != [] ==> start <= marks[0].pinAt)
    && (forall k :: 0 < k < |marks| ==> marks[k - 1].tl.writtenAt <= marks[k].pinAt)
  }

  ghost predicate Pinned(past: seq<S.Tree>, start: nat, marks: seq<Mark>) {
    InTurn(start, marks) && forall m :: m in marks ==> PinnedWrite(past, m)
  }

  lemma PinnedStays(past: seq<S.Tree>, later: seq<S.Tree>, m: Mark)
    requires PinnedWrite(past, m) && S.Extends(past, later)
    ensures PinnedWrite(later, m)
  {
    var tl := m.tl;
    S.ReadStays(past, later, tl.recheckAt, tl.readAt, tl.readAt, m.seen.pre, tl.preAt);
    S.ReadStays(past, later, tl.writtenAt, |past| - 1, |later| - 1, m.seen.post, tl.postAt);
    S.GitWroteStays(past, later, m.parsed.patch, tl.readAt, tl.writtenAt);
  }

  lemma AllPinnedStay(past: seq<S.Tree>, later: seq<S.Tree>, start: nat, marks: seq<Mark>)
    requires Pinned(past, start, marks) && S.Extends(past, later)
    ensures Pinned(later, start, marks)
  {
    forall m | m in marks
      ensures PinnedWrite(later, m)
    {
      PinnedStays(past, later, m);
    }
  }

  /** The earliest moment for the next pin. */
  function Since(start: nat, marks: seq<Mark>): nat {
    if marks == [] then start else marks[|marks| - 1].tl.writtenAt
  }

  lemma PinnedAppend(past: seq<S.Tree>, start: nat, marks: seq<Mark>, m: Mark)
    requires Pinned(past, start, marks) && PinnedWrite(past, m) && Since(start, marks) <= m.pinAt
    ensures Pinned(past, start, marks + [m])
  {
  }

  // ---------------------------------------------------------------------------------------------
  // The replay so far, and any way it may go on

  /** For any further outcomes: the whole replay is what has been done and then the replay of the rest. */
  ghost predicate Goes(c: L.Codec, begun: H.Disk, held: L.Backlog, env: seq<R.PatchCalls>, d: H.Disk, written: seq<string>,
                       diverged: seq<nat>)
  {
    && |env| <= |held|
    && forall rest: seq<R.PatchCalls> {:trigger env + rest} :: |rest| == |held| - |env| ==>
         R.ReplayHeld(c, begun, held, env + rest) == R.Extend(written, diverged, R.ReplayHeld(c, d, held[|env|..], rest))
  }

  lemma GoesFromStart(c: L.Codec, d: H.Disk, held: L.Backlog)
    ensures Goes(c, d, held, [], d, [], [])
  {
    assert held[0..] == held;
    forall rest: seq<R.PatchCalls> | |rest| == |held|
      ensures R.ReplayHeld(c, d, held, [] + rest) == R.Extend([], [], R.ReplayHeld(c, d, held, rest))
    {
      assert [] + rest == rest;
      var r := R.ReplayHeld(c, d, held, rest);
      assert [] + r.written == r.written && [] + r.diverged == r.diverged;
    }
  }

  /** How a replay begins. */
  lemma FirstOutcome(c: L.Codec, d: H.Disk, held: L.Backlog, e: R.PatchCalls, more: seq<R.PatchCalls>)
    requires held != [] && |more| == |held| - 1
    ensures R.ReplayHeld(c, d, held, [e] + more)
            == var h := held[0];
               if h.id !in d.bodies || e.write.Refused? then R.Replayed(d, [], [], false, false, false)
               else if e.write.Threw() then
                 R.Replayed(d, if e.write.ThrewAfter? then [d.bodies[h.id]] else [], R.Marks(h, e.write), false, false, true)
               else if e.record.Cut? || (|held| > 1 && !e.recaptured) then
                 R.Replayed(R.RecordApplied(c, d, h, e), [d.bodies[h.id]], R.Marks(h, e.write), false, true, false)
               else
                 R.Extend([d.bodies[h.id]], R.Marks(h, e.write), R.ReplayHeld(c, R.RecordApplied(c, d, h, e), held[1..], more))
  {
    assert ([e] + more)[0] == e && ([e] + more)[1..] == more;
  }

  /** What stands for the outcomes of patches that are never reached. */
  function Unreached(n: nat): (r: seq<R.PatchCalls>)
    ensures |r| == n
  {
    seq(n, _ => R.PatchCalls(R.Refused, H.Whole(true), false, false, false))
  }

  /** Nothing follows this outcome. */
  predicate Last(d: H.Disk, held: L.Backlog, i: nat, e: R.PatchCalls)
    requires i < |held|
  {
    held[i].id !in d.bodies || !e.write.Wrote? || e.record.Cut? || (i + 1 < |held| && !e.recaptured)
  }

  function AllOutcomes(env: seq<R.PatchCalls>, e: R.PatchCalls, n: nat): seq<R.PatchCalls>
    requires |env| < n
  {
    env + ([e] + Unreached(n - |env| - 1))
  }

  /** What the replay has done when it ends with this outcome. */
  function LastReport(c: L.Codec, d: H.Disk, h: L.HeldSync, e: R.PatchCalls, written: seq<string>, diverged: seq<nat>): R.Replayed {
    if h.id !in d.bodies || e.write.Refused? then R.Replayed(d, written, diverged, false, false, false)
    else if e.write.Threw() then
      R.Replayed(d, if e.write.ThrewAfter? then written + [d.bodies[h.id]] else written, diverged + R.Marks(h, e.write), false, false, true)
    else
      R.Replayed(R.RecordApplied(c, d, h, e), written + [d.bodies[h.id]], diverged + R.Marks(h, e.write), false, true, false)
  }

  lemma Ends(c: L.Codec, begun: H.Disk, held: L.Backlog, env: seq<R.PatchCalls>, d: H.Disk, written: seq<string>, diverged: seq<nat>,
             e: R.PatchCalls)
    requires Goes(c, begun, held, env, d, written, diverged) && |env| < |held| && Last(d, held, |env|, e)
    ensures |AllOutcomes(env, e, |held|)| == |held|
    ensures R.ReplayHeld(c, begun, held, AllOutcomes(env, e, |held|)) == LastReport(c, d, held[|env|], e, written, diverged)
  {
    var left, more := held[|env|..], Unreached(|held| - |env| - 1);
    assert left[0] == held[|env|];
    FirstOutcome(c, d, left, e, more);
    assert written + [] == written && diverged + [] == diverged;
    assert R.ReplayHeld(c, begun, held, env + ([e] + more)) == R.Extend(written, diverged, R.ReplayHeld(c, d, left, [e] + more));
  }

  /** The replay goes on to the next patch. */
  lemma GoesOn(c: L.Codec, begun: H.Disk, held: L.Backlog, env: seq<R.PatchCalls>, d: H.Disk, written: seq<string>,
               diverged: seq<nat>, e: R.PatchCalls)
    requires Goes(c, begun, held, env, d, written, diverged) && |env| < |held|
    requires held[|env|].id in d.bodies && e.write.Wrote? && e.record.Whole? && (|env| + 1 < |held| ==> e.recaptured)
    ensures var h := held[|env|];
            Goes(c, begun, held, env + [e], R.RecordApplied(c, d, h, e), written + [d.bodies[h.id]], diverged + R.Marks(h, e.write))
  {
    var h, left := held[|env|], held[|env|..];
    var next, body, marks := R.RecordApplied(c, d, h, e), d.bodies[h.id], R.Marks(h, e.write);
    assert left[0] == h && left[1..] == held[|env| + 1..];
    forall rest: seq<R.PatchCalls> | |rest| == |held| - |env| - 1
      ensures R.ReplayHeld(c, begun, held, env + [e] + rest)
              == R.Extend(written + [body], diverged + marks, R.ReplayHeld(c, next, held[|env| + 1..], rest))
    {
      Regroup(env, [e], rest);
      FirstOutcome(c, d, left, e, rest);
      R.ExtendTwice(written, diverged, [body], marks, R.ReplayHeld(c, next, held[|env| + 1..], rest));
    }
  }

  lemma GoesToTheEnd(c: L.Codec, begun: H.Disk, held: L.Backlog, env: seq<R.PatchCalls>, d: H.Disk, written: seq<string>,
                     diverged: seq<nat>)
    requires Goes(c, begun, held, env, d, written, diverged) && |env| == |held|
    ensures R.ReplayHeld(c, begun, held, env) == R.Replayed(d, written, diverged, true, true, false)
  {
    assert env + [] == env && held[|held|..] == [] && written + [] == written && diverged + [] == diverged;
  }

  // ---------------------------------------------------------------------------------------------
  // Carrying it out

  /** Nothing stands in the way of this patch: it applies to the checkout at `t`, the operator leaves that
      alone, and every call works. */
  ghost predicate Works(parsed: Parsed, run: Run, t: S.Tree) {
    var calls := run.calls;
    && S.Applies(parsed.patch, t) && S.Unmoved(calls.gaps, t)
    && S.AlwaysLeft(Patched(parsed, t), calls.gaps.post) && S.Left(Patched(parsed, t), run.pause) == Patched(parsed, t)
    && !run.early && calls.checkOk && calls.captureOk && calls.applyOk && calls.retainOk && run.record.Whole? && run.captureOk
    && Replays(calls.scratch, parsed.touched, S.Snapshot(t, parsed.touched))
  }

  /** The scratch replay does not throw. */
  predicate Replays(scratch: S.Scratch, touched: seq<S.Path>, pre: map<S.Path, S.Snap>) {
    scratch.NoDirectory? || (scratch.Made? && !S.Clash(scratch.links, touched, pre))
  }

  function Patched(parsed: Parsed, t: S.Tree): S.Tree {
    if S.Applies(parsed.patch, t) then t + S.Outputs(parsed.patch, t) else t
  }

  /** The patches one after the other. */
  function PatchAll(written: seq<string>, parse: string -> Parsed, t: S.Tree): S.Tree {
    if written == [] then t else PatchAll(written[1..], parse, Patched(parse(written[0]), t))
  }

  lemma {:induction false} PatchAllAppend(written: seq<string>, body: string, parse: string -> Parsed, t: S.Tree)
    ensures PatchAll(written + [body], parse, t) == Patched(parse(body), PatchAll(written, parse, t))
  {
    if written == [] {
      assert [] + [body] == [body] && [body][1..] == [];
    } else {
      PatchAllAppend(written[1..], body, parse, Patched(parse(written[0]), t));
      assert (written + [body])[1..] == written[1..] + [body];
    }
  }

  /** Nothing stands in the way of any of them, each on what the one before leaves. */
  ghost predicate Smooth(c: L.Codec, d: H.Disk, held: L.Backlog, parse: string -> Parsed, runs: seq<Run>, t: S.Tree)
    requires |runs| == |held|
    decreases |held|
  {
    held != [] ==>
      && held[0].id in d.bodies && Works(parse(d.bodies[held[0].id]), runs[0], t)
      && Smooth(c, R.RecordApplied(c, d, held[0], CallsOf(R.Wrote(false), runs[0])), held[1..], parse, runs[1..],
                Patched(parse(d.bodies[held[0].id]), t))
  }

  /** A smooth apply stands before patch `|written|`. */
  ghost predicate GoesSmoothly(c: L.Codec, d: H.Disk, held: L.Backlog, parse: string -> Parsed, runs: seq<Run>, pin: S.Tree,
                               written: seq<string>, expected: S.Tree, t: S.Tree)
    requires |runs| == |held|
  {
    && |written| <= |held| && Smooth(c, d, held[|written|..], parse, runs[|written|..], t)
    && t == PatchAll(written, parse, pin) && (|written| < |held| ==> expected == t)
  }

  /** What holds there, and what holds one patch further on. */
  lemma SmoothOn(c: L.Codec, d: H.Disk, held: L.Backlog, parse: string -> Parsed, runs: seq<Run>, pin: S.Tree,
                 written: seq<string>, expected: S.Tree, t: S.Tree, e: R.PatchCalls, next: S.Tree)
    requires |runs| == |held| && |written| < |held| && GoesSmoothly(c, d, held, parse, runs, pin, written, expected, t)
    ensures var h, run := held[|written|], runs[|written|];
            && h.id in d.bodies && Works(parse(d.bodies[h.id]), run, t) && expected == t
            && var after := Patched(parse(d.bodies[h.id]), t);
               (|written| + 1 < |held| ==> next == after) && e == CallsOf(e.write, run) ==>
                 GoesSmoothly(c, R.RecordApplied(c, d, h, e), held, parse, runs, pin, written + [d.bodies[h.id]], next, after)
  {
    var i := |written|;
    assert held[i..][0] == held[i] && runs[i..][0] == runs[i];
    assert held[i..][1..] == held[i + 1..] && runs[i..][1..] == runs[i + 1..];
    PatchAllAppend(written, d.bodies[held[i].id], parse, pin);
  }

  lemma WorksGoesThrough(parsed: Parsed, run: Run, t: S.Tree, seen: S.Seen)
    requires Works(parsed, run, t) && seen.pre == S.Snapshot(t, parsed.touched) && seen.post.Keys == S.Members(parsed.touched)
    ensures S.GoesThrough(parsed.patch, parsed.touched, Some(t), run.calls, t)
    ensures S.TreeAfter(parsed.patch, parsed.touched, Some(t), run.calls, t) == Patched(parsed, t)
    ensures !S.DetectionThrows(run.calls, parsed.patch, parsed.touched, seen)
  {
    S.UnmovedGoesThroughIff(parsed.patch, parsed.touched, Some(t), run.calls, t);
  }

  /** The write of one patch, pinned. */
  method WritePinned(co: S.Checkout, parsed: Parsed, run: Run, pin: S.Tree, ghost pinAt: nat)
    returns (w: R.WriteResult, ghost m: Mark)
    requires co.Valid() && pinAt < |co.past| && co.past[pinAt] == pin
    modifies co
    ensures co.Valid() && S.Extends(old(co.past), co.past)
    ensures w.Wrote? || w.ThrewAfter? ==>
              co.writes == old(co.writes) + 1 && m.pinAt == pinAt && m.parsed == parsed && PinnedWrite(co.past, m)
    ensures w.Refused? || w.ThrewBefore? ==> co.writes == old(co.writes)
    ensures w.Wrote? || w.ThrewAfter? <==>
              !run.early && S.GoesThrough(parsed.patch, parsed.touched, Some(pin), run.calls, old(co.tree))
    ensures Works(parsed, run, old(co.tree)) && pin == old(co.tree) ==> w.Wrote? && co.tree == Patched(parsed, old(co.tree))
    ensures w.Wrote? || w.ThrewAfter? ==>
              var e := S.Expects(run.calls, parsed.patch, parsed.touched, m.seen);
              w.diverged <==> !e.Threw? && S.BadPaths(e, parsed.touched, m.seen.post) != []
  {
    m := Mark(pinAt, S.Timeline(0, map[], 0, 0, map[]), parsed, S.Seen(None, map[], map[]));
    if run.early {
      return R.ThrewBefore, m;
    }
    ghost var t := co.tree;
    var r, seen;
    ghost var tl;
    r, seen, tl := S.ApplyPatchToRealTree(co, parsed.patch, parsed.touched, Some(pin), run.calls);
    w := Outcome(r, S.Expects(run.calls, parsed.patch, parsed.touched, seen));
    m := Mark(pinAt, tl, parsed, seen);
    if Works(parsed, run, t) && pin == t {
      S.UnmovedGoesThroughIff(parsed.patch, parsed.touched, Some(t), run.calls, t);
      WorksGoesThrough(parsed, run, t, seen);
    }
  }

  /** The patch went into the checkout. */
  predicate WroteIt(d: H.Disk, h: L.HeldSync, e: R.PatchCalls) {
    h.id in d.bodies && (e.write.Wrote? || e.write.ThrewAfter?)
  }

  function DiskAfter(c: L.Codec, d: H.Disk, h: L.HeldSync, e: R.PatchCalls): H.Disk {
    if h.id in d.bodies && e.write.Wrote? then R.RecordApplied(c, d, h, e) else d
  }

  /** After a write: its record and, if another patch follows, the fingerprint for that. */
  method RecordThenCapture(store: H.HeldSyncStore, co: S.Checkout, h: L.HeldSync, run: Run, follows: bool, ghost m: Mark)
    returns (next: S.Tree, ghost nextAt: nat)
    requires co.Valid() && PinnedWrite(co.past, m)
    modifies store, co
    ensures co.Valid() && S.Extends(old(co.past), co.past) && co.writes == old(co.writes)
    ensures store.View() == H.Do(store.codec, old(store.View()), H.Resolve(h.id, L.Applied, run.record, run.bodyGone, run.metaGone))
    ensures PinnedWrite(co.past, m) && m.tl.writtenAt <= nextAt < |co.past|
    ensures run.record.Whole? && follows && run.captureOk ==> co.past[nextAt] == next == co.tree
    ensures co.tree == if run.record.Whole? && follows then S.Left(old(co.tree), run.pause) else old(co.tree)
  {
    nextAt, next := |co.past| - 1, co.tree;
    var recorded := store.ResolveHold(h.id, L.Applied, run.record, run.bodyGone, run.metaGone);
    if recorded && follows {
      ghost var p1 := co.past;
      S.OperatorMayAct(co, run.pause);
      PinnedStays(p1, co.past, m);
      var captured := S.CaptureRealTreeState(co, run.captureOk);
      nextAt, next := |co.past| - 1, captured.GetOr(co.tree);
    }
  }

  /** One patch: its body, its write, its record and, if another one follows, the fingerprint for that. */
  method OnePatch(store: H.HeldSyncStore, co: S.Checkout, h: L.HeldSync, parse: string -> Parsed, run: Run, pin: S.Tree, ghost pinAt: nat,
                  follows: bool)
    returns (e: R.PatchCalls, next: S.Tree, ghost nextAt: nat, ghost m: Mark)
    requires co.Valid() && pinAt < |co.past| && co.past[pinAt] == pin
    modifies store, co
    ensures co.Valid() && S.Extends(old(co.past), co.past)
    ensures store.View() == DiskAfter(store.codec, old(store.View()), h, e)
    ensures co.writes == old(co.writes) + if WroteIt(old(store.View()), h, e) then 1 else 0
    ensures WroteIt(old(store.View()), h, e) ==>
              PinnedWrite(co.past, m) && m.pinAt == pinAt && m.parsed == parse(old(store.bodies)[h.id])
    ensures h.id in old(store.bodies) && e.write.Wrote? && e.record.Whole? && follows && e.recaptured ==>
              m.tl.writtenAt <= nextAt < |co.past| && co.past[nextAt] == next
    ensures h.id in old(store.bodies) && Works(parse(old(store.bodies)[h.id]), run, old(co.tree)) && pin == old(co.tree) ==>
              && e.write.Wrote? && e == CallsOf(e.write, run)
              && co.tree == Patched(parse(old(store.bodies)[h.id]), old(co.tree)) && (follows ==> next == co.tree)
  {
    e, next, nextAt := CallsOf(R.Refused, run), pin, pinAt;
    m := Mark(pinAt, S.Timeline(0, map[], 0, 0, map[]), Parsed(map[], []), S.Seen(None, map[], map[]));
    if h.id !in store.bodies {
      return;
    }
    var w;
    w, m := WritePinned(co, parse(store.bodies[h.id]), run, pin, pinAt);
    e := CallsOf(w, run);
    if w.Wrote? {
      ghost var p1 := co.past;
      next, nextAt := RecordThenCapture(store, co, h, run, follows, m);
      S.ExtendsTrans(old(co.past), p1, co.past);
    }
  }

  /** The replay stands before patch `|env|`: what was done so far, which writes were pinned to what, and
      that the next pin shows the checkout since the last of them. */
  ghost predicate Stands(c: L.Codec, begun: H.Disk, held: L.Backlog, env: seq<R.PatchCalls>, d: H.Disk, written: seq<string>,
                         diverged: seq<nat>, past: seq<S.Tree>, start: nat, marks: seq<Mark>, parse: string -> Parsed, pinAt: nat)
  {
    && Goes(c, begun, held, env, d, written, diverged)
    && Marked(past, start, marks, written, parse)
    && (|env| < |held| ==> Since(start, marks) <= pinAt)
  }

  /** One patch further on. */
  lemma StandsOn(c: L.Codec, begun: H.Disk, held: L.Backlog, env: seq<R.PatchCalls>, d: H.Disk, written: seq<string>,
                 diverged: seq<nat>, past: seq<S.Tree>, start: nat, marks: seq<Mark>, parse: string -> Parsed, pinAt: nat,
                 later: seq<S.Tree>, e: R.PatchCalls, m: Mark, nextAt: nat)
    requires Stands(c, begun, held, env, d, written, diverged, past, start, marks, parse, pinAt) && S.Extends(past, later)
    requires |env| < |held| && !Last(d, held, |env|, e)
    requires PinnedWrite(later, m) && m.pinAt == pinAt && m.parsed == parse(d.bodies[held[|env|].id])
    requires |env| + 1 < |held| ==> m.tl.writtenAt <= nextAt
    ensures var h := held[|env|];
            Stands(c, begun, held, env + [e], R.RecordApplied(c, d, h, e), written + [d.bodies[h.id]], diverged + R.Marks(h, e.write),
                   later, start, marks + [m], parse, nextAt)
  {
    GoesOn(c, begun, held, env, d, written, diverged, e);
    MarkedOn(past, later, start, marks, written, parse, m, d, held[|env|], e);
  }

  /** And no further. */
  lemma StandsLast(c: L.Codec, begun: H.Disk, held: L.Backlog, env: seq<R.PatchCalls>, d: H.Disk, written: seq<string>,
                   diverged: seq<nat>, past: seq<S.Tree>, start: nat, marks: seq<Mark>, parse: string -> Parsed, pinAt: nat,
                   later: seq<S.Tree>, e: R.PatchCalls, m: Mark)
    requires Stands(c, begun, held, env, d, written, diverged, past, start, marks, parse, pinAt) && S.Extends(past, later)
    requires |env| < |held| && Last(d, held, |env|, e)
    requires WroteIt(d, held[|env|], e) ==> PinnedWrite(later, m) && m.pinAt == pinAt && m.parsed == parse(d.bodies[held[|env|].id])
    ensures var h := held[|env|];
            var r := LastReport(c, d, h, e, written, diverged);
            && |AllOutcomes(env, e, |held|)| == |held| && r == R.ReplayHeld(c, begun, held, AllOutcomes(env, e, |held|))
            && r.disk == DiskAfter(c, d, h, e) && |r.written| == |written| + (if WroteIt(d, h, e) then 1 else 0)
            && Marked(later, start, if WroteIt(d, h, e) then marks + [m] else marks, r.written, parse)
  {
    Ends(c, begun, held, env, d, written, diverged, e);
    MarkedOn(past, later, start, marks, written, parse, m, d, held[|env|], e);
  }

  /** The replay loop over both.  `pin` is the checkout as captured at `start`; afterwards the store is
      where some outcomes of the calls lead it, every write is counted, and every write was pinned to a
      capture made after the write before it: a checkout that moves under the replay is never written
      into. */
  method ReplayOver(store: H.HeldSyncStore, co: S.Checkout, held: L.Backlog, parse: string -> Parsed, pin: S.Tree,
                    ghost start: nat, runs: seq<Run>)
    returns (env: seq<R.PatchCalls>, report: R.Replayed, ghost marks: seq<Mark>)
    requires |runs| == |held| && co.Valid() && start < |co.past| && co.past[start] == pin
    modifies store, co
    ensures co.Valid() && S.Extends(old(co.past), co.past)
    ensures |env| == |held| && report == R.ReplayHeld(store.codec, old(store.View()), held, env) && store.View() == report.disk
    ensures co.writes == old(co.writes) + |report.written|
    ensures Marked(co.past, start, marks, report.written, parse)
    // with nothing in the way every patch is written, in order
    ensures pin == old(co.tree) && Smooth(store.codec, old(store.View()), held, parse, runs, pin) ==>
              report.ok && |report.written| == |held| && co.tree == PatchAll(report.written, parse, pin)
  {
    var written: seq<string>, diverged: seq<nat> := [], [];
    env, marks := [], [];
    var expected := pin;
    ghost var pinAt: nat := start;
    ghost var begun := store.View();
    ghost var smooth := pin == co.tree && Smooth(store.codec, begun, held, parse, runs, pin);
    assert held[0..] == held && runs[0..] == runs;
    GoesFromStart(store.codec, begun, held);
    for i := 0 to |held|
      invariant co.Valid() && S.Extends(old(co.past), co.past) && |env| == i
      invariant Stands(store.codec, begun, held, env, store.View(), written, diverged, co.past, start, marks, parse, pinAt)
      invariant co.writes == old(co.writes) + |written|
      invariant i < |held| ==> pinAt < |co.past| && co.past[pinAt] == expected
      invariant |written| == i
      invariant smooth ==> GoesSmoothly(store.codec, store.View(), held, parse, runs, pin, written, expected, co.tree)
    {
      ghost var was, t := expected, co.tree;
      var d := H.Disk(store.ledger, store.bodies, store.metas);
      ghost var p0 := co.past;
      var e;
      ghost var m;
      ghost var nextAt;
      e, expected, nextAt, m := OnePatch(store, co, held[i], parse, runs[i], expected, pinAt, i + 1 < |held|);
      if smooth {
        SmoothOn(store.codec, d, held, parse, runs, pin, written, was, t, e, expected);
      }
      S.ExtendsTrans(old(co.past), p0, co.past);
      if Last(d, held, i, e) {
        StandsLast(store.codec, begun, held, env, d, written, diverged, p0, start, marks, parse, pinAt, co.past, e, m);
        marks := if WroteIt(d, held[i], e) then marks + [m] else marks;
        return AllOutcomes(env, e, |held|), LastReport(store.codec, d, held[i], e, written, diverged), marks;
      }
      StandsOn(store.codec, begun, held, env, d, written, diverged, p0, start, marks, parse, pinAt, co.past, e, m, nextAt);
      env, marks, pinAt := env + [e], marks + [m], nextAt;
      written := written + [d.bodies[held[i].id]];
      diverged := diverged + R.Marks(held[i], e.write);
    }
    GoesToTheEnd(store.codec, begun, held, env, store.View(), written, diverged);
    report := R.Replayed(H.Disk(store.ledger, store.bodies, store.metas), written, diverged, true, true, false);
  }

  /** One pinned write for each patch written, of that patch. */
  ghost predicate Marked(past: seq<S.Tree>, start: nat, marks: seq<Mark>, written: seq<string>, parse: string -> Parsed) {
    && |marks| == |written| && Pinned(past, start, marks)
    && forall k :: 0 <= k < |marks| ==> marks[k].parsed == parse(written[k])
  }

  lemma MarkedOn(past: seq<S.Tree>, later: seq<S.Tree>, start: nat, marks: seq<Mark>, written: seq<string>, parse: string -> Parsed,
                 m: Mark, d: H.Disk, h: L.HeldSync, e: R.PatchCalls)
    requires Marked(past, start, marks, written, parse) && S.Extends(past, later)
    requires WroteIt(d, h, e) ==> PinnedWrite(later, m) && m.parsed == parse(d.bodies[h.id]) && Since(start, marks) <= m.pinAt
    ensures if WroteIt(d, h, e) then Marked(later, start, marks + [m], written + [d.bodies[h.id]], parse)
            else Marked(later, start, marks, written, parse)
  {
    AllPinnedStay(past, later, start, marks);
    if WroteIt(d, h, e) {
      PinnedAppend(later, start, marks, m);
    }
  }
}
