/**
 The turn-end write against an operator who may edit the checkout between any two steps of the daemon,
 the single-path reads of a snapshot and the two halves of `git apply` included.  The checkout records
 every state it passes through, so the contracts can say what was seen when.
 */
module SyncRace {
  import opened Wrappers
  import T = TurnChain

  type Path = string

  datatype Snap = File(content: string) | Symlink(target: string) | Absent | Unreadable

  type Tree = map<Path, Snap>

  function Members(paths: seq<Path>): set<Path> {
    set p | p in paths
  }

  function At(t: Tree, p: Path): Snap {
    if p in t then t[p] else Absent
  }

  /** A patch rewrites each path it names, or does not apply there. */
  datatype Edit = Edit(apply: Snap -> Option<Snap>)

  type Patch = map<Path, Edit>

  predicate Applies(patch: Patch, t: Tree) {
    forall p :: p in patch ==> patch[p].apply(At(t, p)).Some?
  }

  function Outputs(patch: Patch, t: Tree): Tree
    requires Applies(patch, t)
  {
    map p | p in patch :: patch[p].apply(At(t, p)).value
  }

  /** What the scratch directory is seeded with: unreadable content is left missing. */
  function Seed(s: Snap): Snap {
    if s.Unreadable? then Absent else s
  }

  function SeedAll(pre: map<Path, Snap>): Tree {
    map p | p in pre :: Seed(pre[p])
  }

  /** An inconclusive capture never compares equal to anything. */
  predicate SnapshotsEqual(a: Snap, b: Snap) {
    a == b && !a.Unreadable?
  }

  /** `q` lies below `p`. */
  predicate Under(q: Path, p: Path) {
    |p| < |q| && q[..|p|] == p && q[|p|] == '/'
  }

  /** `p` comes before `q`. */
  predicate Precedes(touched: seq<Path>, p: Path, q: Path) {
    exists i, j :: 0 <= i < j < |touched| && touched[i] == p && touched[j] == q
  }

  /** The scratch directory cannot hold both of two paths, one below the other, and seeding it throws: the
      upper one is a file, and a directory is wanted where the file is or a file where the directory is;
      or it is a link, seeded first, that leads to no directory there. */
  predicate Clash(links: set<Path>, touched: seq<Path>, pre: map<Path, Snap>) {
    exists p, q :: p in pre && q in pre && Under(q, p) && (pre[p].File? || (pre[p].Symlink? && p !in links && Precedes(touched, p, q)))
  }

  /** A link that is seeded second is quietly left out, since a directory is in its place; the patch, which
      needs the link, then does not apply. */
  predicate LosesLink(touched: seq<Path>, pre: map<Path, Snap>) {
    exists p, q :: p in pre && q in pre && Under(q, p) && pre[p].Symlink? && Precedes(touched, q, p)
  }

  /** How the scratch replay's own calls go: no directory to be had, a call that throws while seeding, or
      neither; then, which links lead to a directory there, and whether `git apply` runs at all. */
  datatype Scratch = NoDirectory | SeedThrows | Made(links: set<Path>, gitOk: bool)

  datatype Expectation = Threw | Failed | Expected(tree: Tree)

  /** The patch alone, replayed on the pre-write snapshot in a scratch directory. */
  function ExpectedPostApply(scratch: Scratch, patch: Patch, touched: seq<Path>, pre: map<Path, Snap>): Expectation {
    match scratch
    case NoDirectory => Failed
    case SeedThrows => Threw
    case Made(links, gitOk) =>
      if Clash(links, touched, pre) then Threw
      else if !gitOk || LosesLink(touched, pre) || !Applies(patch, SeedAll(pre)) then Failed
      else Expected(SeedAll(pre) + Outputs(patch, SeedAll(pre)))
  }

  /** The path does not hold what the patch makes of its snapshot, as far as that is known. */
  predicate Diverged(e: Expectation, post: map<Path, Snap>, p: Path)
    requires p in post
  {
    !e.Expected? || !SnapshotsEqual(At(e.tree, p), post[p])
  }

  class Checkout {
    var tree: Tree
    /** Every state so far, the current one last. */
    ghost var past: seq<Tree>
    /** How many times the daemon has written. */
    ghost var writes: nat

    ghost predicate Valid()
      reads this
    {
      past != [] && past[|past| - 1] == tree
    }

    constructor (t: Tree)
      ensures Valid() && tree == t && past == [t] && writes == 0
    {
      tree, past, writes := t, [t], 0;
    }
  }

  /** The checkout after the operator has put it into these states, one after the other. */
  function Left(t: Tree, edits: seq<Tree>): Tree {
    if edits == [] then t else edits[|edits| - 1]
  }

  /** The checkout at the last of `n` reads, with edits before each. */
  function LeftByReads(t: Tree, n: nat, edits: nat -> seq<Tree>): Tree {
    if n == 0 then t else Left(LeftByReads(t, n - 1, edits), edits(n - 1))
  }

  /** What the operator does in the gaps of one apply: before the dry run and the recheck, before each read
      of the snapshot, before git reads and before it writes, and before each read back. */
  datatype Gaps = Gaps(check: seq<Tree>, recheck: seq<Tree>, pre: nat -> seq<Tree>, read: seq<Tree>, write: seq<Tree>,
                       post: nat -> seq<Tree>)

  /** Whatever the operator does before git writes, the checkout is back at `t` by the end of each gap. */
  ghost predicate Unmoved(gaps: Gaps, t: Tree) {
    && Left(t, gaps.check) == Left(t, gaps.recheck) == Left(t, gaps.read) == Left(t, gaps.write) == t
    && AlwaysLeft(t, gaps.pre)
  }

  ghost predicate AlwaysLeft(t: Tree, edits: nat -> seq<Tree>) {
    forall i :: Left(t, edits(i)) == t
  }

  lemma {:induction false} LeftUnmoved(t: Tree, n: nat, edits: nat -> seq<Tree>)
    requires AlwaysLeft(t, edits)
    ensures LeftByReads(t, n, edits) == t
  {
    if n > 0 {
      LeftUnmoved(t, n - 1, edits);
    }
  }

  /** An operator may leave the checkout in any state at all. */
  method OperatorMayAct(co: Checkout, edits: seq<Tree>)
    requires co.Valid()
    modifies co
    ensures co.Valid() && co.writes == old(co.writes)
    ensures Extends(old(co.past), co.past)
    ensures co.tree == Left(old(co.tree), edits)
  {
    for i := 0 to |edits|
      invariant co.Valid() && co.writes == old(co.writes) && Extends(old(co.past), co.past)
      invariant co.tree == Left(old(co.tree), edits[..i])
    {
      co.tree := edits[i];
      co.past := co.past + [edits[i]];
    }
  }

  ghost predicate Extends(a: seq<Tree>, b: seq<Tree>) {
    |a| <= |b| && forall i :: 0 <= i < |a| ==> b[i] == a[i]
  }

  /** A fingerprint is an injective digest, so it is modelled by the tree it digests. */
  method CaptureRealTreeState(co: Checkout, ok: bool) returns (r: Option<Tree>)
    requires co.Valid()
    ensures r == if ok then Some(co.tree) else None
  {
    r := if ok then Some(co.tree) else None;
  }

  function Snapshot(t: Tree, paths: seq<Path>): map<Path, Snap> {
    map p | p in paths :: At(t, p)
  }

  /** Every snapshot entry is what the path held at some recorded moment since `from`. */
  ghost predicate ReadBetween(past: seq<Tree>, from: nat, to: nat, snaps: map<Path, Snap>, at: map<Path, nat>) {
    forall p :: p in snaps ==> p in at && from <= at[p] <= to && at[p] < |past| && snaps[p] == At(past[at[p]], p)
  }

  lemma ReadStays(past: seq<Tree>, later: seq<Tree>, from: nat, to: nat, to': nat, snaps: map<Path, Snap>, at: map<Path, nat>)
    requires ReadBetween(past, from, to, snaps, at) && Extends(past, later) && to <= to'
    ensures ReadBetween(later, from, to', snaps, at)
  {
  }

  lemma ReadsAlike(t: Tree, paths: seq<Path>, snaps: map<Path, Snap>)
    requires snaps.Keys == Members(paths) && forall p :: p in snaps ==> snaps[p] == At(t, p)
    ensures snaps == Snapshot(t, paths)
  {
  }

  /** The first `n` paths have been read, from a checkout that began as `t`. */
  ghost predicate Reading(t: Tree, past: seq<Tree>, from: nat, paths: seq<Path>, n: nat, edits: nat -> seq<Tree>,
                          snaps: map<Path, Snap>, at: map<Path, nat>)
    requires n <= |paths|
  {
    && from < |past| && past[|past| - 1] == LeftByReads(t, n, edits)
    && snaps.Keys == Members(paths[..n])
    && (AlwaysLeft(t, edits) ==> forall p :: p in snaps ==> snaps[p] == At(t, p))
    && ReadBetween(past, from, |past| - 1, snaps, at)
  }

  lemma ReadingOn(t: Tree, past: seq<Tree>, later: seq<Tree>, from: nat, paths: seq<Path>, n: nat, edits: nat -> seq<Tree>,
                  snaps: map<Path, Snap>, at: map<Path, nat>)
    requires n < |paths| && Reading(t, past, from, paths, n, edits, snaps, at) && Extends(past, later)
    requires later[|later| - 1] == Left(past[|past| - 1], edits(n))
    ensures var now := later[|later| - 1];
            Reading(t, later, from, paths, n + 1, edits, snaps[paths[n] := At(now, paths[n])], at[paths[n] := |later| - 1])
  {
    if AlwaysLeft(t, edits) {
      LeftUnmoved(t, n + 1, edits);
    }
    ReadStays(past, later, from, |past| - 1, |later| - 1, snaps, at);
    assert paths[..n + 1] == paths[..n] + [paths[n]];
  }

  lemma ReadingEnds(t: Tree, past: seq<Tree>, from: nat, paths: seq<Path>, edits: nat -> seq<Tree>,
                    snaps: map<Path, Snap>, at: map<Path, nat>)
    requires Reading(t, past, from, paths, |paths|, edits, snaps, at)
    ensures past[|past| - 1] == LeftByReads(t, |paths|, edits) && snaps.Keys == Members(paths)
    ensures AlwaysLeft(t, edits) ==> snaps == Snapshot(t, paths)
    ensures ReadBetween(past, from, |past| - 1, snaps, at)
  {
    assert paths[..|paths|] == paths;
    if AlwaysLeft(t, edits) {
      ReadsAlike(t, paths, snaps);
    }
  }

  /** Reads the paths one after the other; the operator may act before each read. */
  method SnapshotPaths(co: Checkout, paths: seq<Path>, edits: nat -> seq<Tree>)
    returns (snaps: map<Path, Snap>, ghost at: map<Path, nat>)
    requires co.Valid()
    modifies co
    ensures co.Valid() && co.writes == old(co.writes) && Extends(old(co.past), co.past)
    ensures co.tree == LeftByReads(old(co.tree), |paths|, edits)
    ensures snaps.Keys == Members(paths)
    ensures AlwaysLeft(old(co.tree), edits) ==> snaps == Snapshot(old(co.tree), paths)
    ensures ReadBetween(co.past, |old(co.past)| - 1, |co.past| - 1, snaps, at)
  {
    snaps, at := map[], map[];
    ghost var t, start := co.tree, co.past;
    ghost var from: nat := |start| - 1;
    for i := 0 to |paths|
      invariant co.Valid() && co.writes == old(co.writes) && Extends(start, co.past)
      invariant Reading(t, co.past, from, paths, i, edits, snaps, at)
    {
      ghost var before := co.past;
      OperatorMayAct(co, edits(i));
      ExtendsTrans(start, before, co.past);
      ReadingOn(t, before, co.past, from, paths, i, edits, snaps, at);
      snaps, at := snaps[paths[i] := At(co.tree, paths[i])], at[paths[i] := |co.past| - 1];
    }
    ReadingEnds(t, co.past, from, paths, edits, snaps, at);
  }

  /** What the daemon saw around one write. */
  datatype Seen = Seen(recheck: Option<Tree>, pre: map<Path, Snap>, post: map<Path, Snap>)

  /** When it saw it, as positions in the checkout's past. */
  datatype Timeline = Timeline(recheckAt: nat, preAt: map<Path, nat>, readAt: nat, writtenAt: nat, postAt: map<Path, nat>)

  /** One write as it happened: recheck, path-by-path snapshot, git's own read, git's write over
      whatever the checkout held by then, path-by-path read back; in that order, with any operator
      states in between. */
  ghost predicate Happened(past: seq<Tree>, tl: Timeline, patch: Patch, touched: seq<Path>, seen: Seen) {
    && tl.recheckAt <= tl.readAt < tl.writtenAt < |past|
    && (seen.recheck.Some? ==> seen.recheck.value == past[tl.recheckAt])
    && ReadBetween(past, tl.recheckAt, tl.readAt, seen.pre, tl.preAt)
    && GitWrote(past, patch, tl.readAt, tl.writtenAt)
    && ReadBetween(past, tl.writtenAt, |past| - 1, seen.post, tl.postAt)
    && seen.pre.Keys == seen.post.Keys == Members(touched)
  }

  /** Git read the checkout at one moment and wrote its outputs over the state of a later one. */
  ghost predicate GitWrote(past: seq<Tree>, patch: Patch, readAt: nat, writtenAt: nat)
    requires readAt < writtenAt < |past|
  {
    Applies(patch, past[readAt]) && past[writtenAt] == past[writtenAt - 1] + Outputs(patch, past[readAt])
  }

  lemma GitWroteStays(past: seq<Tree>, later: seq<Tree>, patch: Patch, readAt: nat, writtenAt: nat)
    requires readAt < writtenAt < |past| && Extends(past, later) && GitWrote(past, patch, readAt, writtenAt)
    ensures GitWrote(later, patch, readAt, writtenAt)
  {
  }

  datatype ApplyResult = NotApplied | AppliedWith(divergence: seq<Path>) | ThrewAfterWrite

  /** The file-system and git calls of one apply, and what the operator does in each gap. */
  datatype ApplyCalls = ApplyCalls(checkOk: bool, captureOk: bool, applyOk: bool, scratch: Scratch, retainOk: bool, gaps: Gaps)

  /** The checkout at the last call before the snapshot: the recheck, or else the dry run. */
  function Ready(expected: Option<Tree>, calls: ApplyCalls, t: Tree): Tree {
    var checked := Left(t, calls.gaps.check);
    if expected.Some? then Left(checked, calls.gaps.recheck) else checked
  }

  /** The dry run finds the patch applying, and the recheck the tree it expects. */
  predicate MayBegin(patch: Patch, expected: Option<Tree>, calls: ApplyCalls, t: Tree) {
    && calls.checkOk && Applies(patch, Left(t, calls.gaps.check))
    && (expected.Some? ==> calls.captureOk && Ready(expected, calls, t) == expected.value)
  }

  /** The checkout when git reads it. */
  function GitReads(touched: seq<Path>, expected: Option<Tree>, calls: ApplyCalls, t: Tree): Tree {
    Left(LeftByReads(Ready(expected, calls, t), |touched|, calls.gaps.pre), calls.gaps.read)
  }

  /** Every call of one apply, from a checkout that starts at `t`, finds what it needs: git's own read, too, must
      find the patch applying. */
  predicate GoesThrough(patch: Patch, touched: seq<Path>, expected: Option<Tree>, calls: ApplyCalls, t: Tree) {
    MayBegin(patch, expected, calls, t) && calls.applyOk && Applies(patch, GitReads(touched, expected, calls, t))
  }

  /** And after an apply that went through. */
  function TreeAfter(patch: Patch, touched: seq<Path>, expected: Option<Tree>, calls: ApplyCalls, t: Tree): Tree
    requires GoesThrough(patch, touched, expected, calls, t)
  {
    var read := GitReads(touched, expected, calls, t);
    LeftByReads(Left(read, calls.gaps.write) + Outputs(patch, read), |touched|, calls.gaps.post)
  }

  /** On a checkout that is left as it is an apply goes through exactly when its calls do, the patch applies
      there, and it is the one expected. */
  lemma UnmovedGoesThroughIff(patch: Patch, touched: seq<Path>, expected: Option<Tree>, calls: ApplyCalls, t: Tree)
    requires Unmoved(calls.gaps, t)
    ensures GoesThrough(patch, touched, expected, calls, t)
            <==> calls.checkOk && calls.applyOk && Applies(patch, t) && (expected.Some? ==> calls.captureOk && expected.value == t)
    ensures GoesThrough(patch, touched, expected, calls, t) && AlwaysLeft(t + Outputs(patch, t), calls.gaps.post) ==>
              TreeAfter(patch, touched, expected, calls, t) == t + Outputs(patch, t)
  {
    LeftUnmoved(t, |touched|, calls.gaps.pre);
    if Applies(patch, t) && AlwaysLeft(t + Outputs(patch, t), calls.gaps.post) {
      LeftUnmoved(t + Outputs(patch, t), |touched|, calls.gaps.post);
    }
  }

  /** The paths whose read-back is not what the patch makes of their snapshot. */
  function BadPaths(e: Expectation, touched: seq<Path>, post: map<Path, Snap>): seq<Path>
    requires forall p :: p in touched ==> p in post
  {
    if touched == [] then []
    else (if Diverged(e, post, touched[0]) then [touched[0]] else []) + BadPaths(e, touched[1..], post)
  }

  lemma {:induction false} BadPathsAre(e: Expectation, touched: seq<Path>, post: map<Path, Snap>)
    requires forall p :: p in touched ==> p in post
    ensures forall p :: p in BadPaths(e, touched, post) <==> p in touched && Diverged(e, post, p)
    ensures BadPaths(e, touched, post) == [] <==> forall p :: p in touched ==> !Diverged(e, post, p)
    ensures !e.Expected? ==> BadPaths(e, touched, post) == touched
  {
    if touched != [] {
      BadPathsAre(e, touched[1..], post);
      assert touched == [touched[0]] + touched[1..];
    }
  }

  /** What the detection expects to find, after a write that touches anything at all. */
  function Expects(calls: ApplyCalls, patch: Patch, touched: seq<Path>, seen: Seen): Expectation {
    if touched == [] then Expected(map[]) else ExpectedPostApply(calls.scratch, patch, touched, seen.pre)
  }

  /** The detection throws: in the scratch directory, or in keeping what it has to report. */
  predicate DetectionThrows(calls: ApplyCalls, patch: Patch, touched: seq<Path>, seen: Seen)
    requires forall p :: p in touched ==> p in seen.post
  {
    var e := Expects(calls, patch, touched, seen);
    e.Threw? || (BadPaths(e, touched, seen.post) != [] && !calls.retainOk)
  }

  /** When the detection throws: something is touched, and seeding the scratch directory fails or cannot hold the
      snapshot, or some path diverges and its capture cannot be kept. */
  lemma DetectionThrowsIff(calls: ApplyCalls, patch: Patch, touched: seq<Path>, seen: Seen)
    requires forall p :: p in touched ==> p in seen.post
    ensures DetectionThrows(calls, patch, touched, seen)
            <==> touched != []
                 && (|| calls.scratch.SeedThrows?
                     || (calls.scratch.Made? && Clash(calls.scratch.links, touched, seen.pre))
                     || (!calls.retainOk
                         && exists p :: p in touched && Diverged(ExpectedPostApply(calls.scratch, patch, touched, seen.pre), seen.post, p)))
  {
    BadPathsAre(Expects(calls, patch, touched, seen), touched, seen.post);
  }

  /** The dry run, and the last fingerprint before the write when one is expected. */
  method MayWrite(co: Checkout, patch: Patch, expected: Option<Tree>, calls: ApplyCalls)
    returns (ok: bool, recheck: Option<Tree>, ghost recheckAt: nat)
    requires co.Valid()
    modifies co
    ensures co.Valid() && co.writes == old(co.writes) && Extends(old(co.past), co.past)
    ensures |old(co.past)| - 1 <= recheckAt == |co.past| - 1
    ensures ok && expected.Some? ==> recheck == expected
    ensures recheck.Some? ==> recheck.value == co.past[recheckAt]
    ensures ok <==> MayBegin(patch, expected, calls, old(co.tree))
    ensures ok ==> co.tree == Ready(expected, calls, old(co.tree))
  {
    recheck := None;
    OperatorMayAct(co, calls.gaps.check);
    ok := calls.checkOk && Applies(patch, co.tree);
    if ok && expected.Some? {
      OperatorMayAct(co, calls.gaps.recheck);
      recheck := CaptureRealTreeState(co, calls.captureOk);
      ok := recheck == expected;
    }
    recheckAt := |co.past| - 1;
  }

  /** The parts of one write, in order, are one write. */
  lemma PutTogether(p1: seq<Tree>, p2: seq<Tree>, p3: seq<Tree>, patch: Patch, touched: seq<Path>, seen: Seen, tl: Timeline)
    requires Extends(p1, p2) && Extends(p2, p3)
    requires tl.recheckAt <= |p1| - 1 <= tl.readAt < tl.writtenAt == |p2| - 1
    requires seen.recheck.Some? ==> seen.recheck.value == p1[tl.recheckAt]
    requires ReadBetween(p1, tl.recheckAt, |p1| - 1, seen.pre, tl.preAt)
    requires GitWrote(p2, patch, tl.readAt, tl.writtenAt)
    requires ReadBetween(p3, tl.writtenAt, |p3| - 1, seen.post, tl.postAt)
    requires seen.pre.Keys == seen.post.Keys == Members(touched)
    ensures Happened(p3, tl, patch, touched, seen) && Extends(p1, p3)
  {
    ReadStays(p1, p2, tl.recheckAt, |p1| - 1, tl.readAt, seen.pre, tl.preAt);
    ReadStays(p2, p3, tl.recheckAt, tl.readAt, tl.readAt, seen.pre, tl.preAt);
    GitWroteStays(p2, p3, patch, tl.readAt, tl.writtenAt);
  }

  /** The single write against the real directory. */
  method ApplyPatchToRealTree(co: Checkout, patch: Patch, touched: seq<Path>, expected: Option<Tree>, calls: ApplyCalls)
    returns (r: ApplyResult, seen: Seen, ghost tl: Timeline)
    requires co.Valid()
    modifies co
    ensures co.Valid() && Extends(old(co.past), co.past)
    ensures co.writes == old(co.writes) + if r.NotApplied? then 0 else 1
    // the patch is written exactly when every call goes through and what it finds is what it needs
    ensures !r.NotApplied? <==> GoesThrough(patch, touched, expected, calls, old(co.tree))
    ensures !r.NotApplied? ==> co.tree == TreeAfter(patch, touched, expected, calls, old(co.tree))
    ensures !r.NotApplied? && Unmoved(calls.gaps, old(co.tree)) ==> seen.pre == Snapshot(old(co.tree), touched)
    ensures !r.NotApplied? ==> |old(co.past)| - 1 <= tl.recheckAt && Happened(co.past, tl, patch, touched, seen)
    ensures !r.NotApplied? && expected.Some? ==> seen.recheck == expected
    ensures r.AppliedWith? ==> r.divergence == BadPaths(Expects(calls, patch, touched, seen), touched, seen.post)
    ensures !r.NotApplied? ==> (r.ThrewAfterWrite? <==> DetectionThrows(calls, patch, touched, seen))
  {
    seen, tl := Seen(None, map[], map[]), Timeline(0, map[], 0, 0, map[]);
    var ok, recheck;
    ghost var recheckAt;
    ok, recheck, recheckAt := MayWrite(co, patch, expected, calls);
    if !ok {
      return NotApplied, seen, tl;
    }
    var pre, preAt := SnapshotPaths(co, touched, calls.gaps.pre);
    ghost var p1 := co.past;
    ghost var readAt, writtenAt;
    ok, readAt, writtenAt := GitApply(co, patch, calls.applyOk, calls.gaps.read, calls.gaps.write);
    if !ok {
      return NotApplied, seen, tl;
    }
    ghost var p2 := co.past;
    var post, postAt := SnapshotPaths(co, touched, calls.gaps.post);
    seen, tl := Seen(recheck, pre, post), Timeline(recheckAt, preAt, readAt, writtenAt, postAt);
    PutTogether(p1, p2, co.past, patch, touched, seen, tl);
    var bad := DetectPostApplyDivergence(patch, touched, pre, post, calls.scratch);
    r := if bad.None? || (bad.value != [] && !calls.retainOk) then ThrewAfterWrite else AppliedWith(bad.value);
  }

  /** The two halves of `git apply`: it reads and checks every path of the patch, then writes all of its
      outputs over whatever the checkout holds by then. */
  method GitApply(co: Checkout, patch: Patch, ok: bool, beforeRead: seq<Tree>, beforeWrite: seq<Tree>)
    returns (written: bool, ghost readAt: nat, ghost writtenAt: nat)
    requires co.Valid()
    modifies co
    ensures co.Valid() && Extends(old(co.past), co.past)
    ensures co.writes == old(co.writes) + if written then 1 else 0
    ensures written ==>
              |old(co.past)| - 1 <= readAt < writtenAt == |co.past| - 1 && GitWrote(co.past, patch, readAt, writtenAt)
    ensures var read := Left(old(co.tree), beforeRead);
            && (written <==> ok && Applies(patch, read))
            && (written ==> co.tree == Left(read, beforeWrite) + Outputs(patch, read))
  {
    readAt, writtenAt := 0, 0;
    OperatorMayAct(co, beforeRead);
    var read := co.tree;
    if !ok || !Applies(patch, read) {
      return false, readAt, writtenAt;
    }
    readAt := |co.past| - 1;
    ghost var p1 := co.past;
    var outputs := Outputs(patch, read);
    OperatorMayAct(co, beforeWrite);
    ghost var p2 := co.past;
    Write(co, outputs);
    writtenAt := |co.past| - 1;
    written := true;
    assert p2[readAt] == p1[readAt] == read;
    WritesOver(p2, co.tree, patch, readAt);
    ExtendsTrans(old(co.past), p1, p2);
    ExtendsTrans(old(co.past), p2, co.past);
  }

  lemma ExtendsTrans(a: seq<Tree>, b: seq<Tree>, c: seq<Tree>)
    requires Extends(a, b) && Extends(b, c)
    ensures Extends(a, c)
  {
  }

  lemma WritesOver(past: seq<Tree>, t: Tree, patch: Patch, readAt: nat)
    requires readAt < |past| && Applies(patch, past[readAt]) && t == past[|past| - 1] + Outputs(patch, past[readAt])
    ensures GitWrote(past + [t], patch, readAt, |past|)
  {
  }

  method Write(co: Checkout, outputs: Tree)
    requires co.Valid()
    modifies co
    ensures co.Valid() && co.tree == old(co.tree) + outputs
    ensures co.past == old(co.past) + [co.tree] && co.writes == old(co.writes) + 1
  {
    co.tree := co.tree + outputs;
    co.past := co.past + [co.tree];
    co.writes := co.writes + 1;
  }

  /** The detect half: replay the patch on the snapshot and compare path by path; `None` when the replay
      threw. */
  method DetectPostApplyDivergence(patch: Patch, touched: seq<Path>, pre: map<Path, Snap>, post: map<Path, Snap>, scratch: Scratch)
    returns (bad: Option<seq<Path>>)
    requires forall p :: p in touched ==> p in post
    ensures var e := ExpectedPostApply(scratch, patch, touched, pre);
            bad == if touched == [] then Some([]) else if e.Threw? then None else Some(BadPaths(e, touched, post))
  {
    if |touched| == 0 {
      return Some([]);
    }
    var expected := ExpectedPostApply(scratch, patch, touched, pre);
    match expected {
      case Threw => return None;
      case Failed =>
        BadPathsAre(expected, touched, post);
        return Some(touched);
      case Expected(tree) =>
        var found := [];
        for i := 0 to |touched|
          invariant found + BadPaths(expected, touched[i..], post) == BadPaths(expected, touched, post)
        {
          assert touched[i..][0] == touched[i] && touched[i..][1..] == touched[i + 1..];
          if !SnapshotsEqual(At(tree, touched[i]), post[touched[i]]) {
            found := found + [touched[i]];
          }
        }
        assert touched[|touched|..] == [] && found + [] == found;
        bad := Some(found);
    }
  }

  // ---------------------------------------------------------------------------------------------
  // The turn end

  datatype TurnResult = Applied(divergence: seq<Path>) | HeldBack

  /** `backlog` is `None` when the ledger cannot be read; `start` is the turn-start fingerprint, and `before`
      what the operator does before the turn-end one. */
  method SyncTurnEnd(co: Checkout, patch: Patch, touched: seq<Path>, start: Option<Tree>, backlog: Option<nat>,
                     before: seq<Tree>, endCaptureOk: bool, calls: ApplyCalls)
    returns (r: TurnResult, seen: Seen, end: Option<Tree>, ghost tl: Timeline)
    requires co.Valid()
    modifies co
    ensures co.Valid() && Extends(old(co.past), co.past)
    // the daemon writes exactly when nothing is held, the checkout is captured as it was at turn start, and
    // every call of the apply goes through
    ensures co.writes != old(co.writes) <==>
              && backlog == Some(0) && start.Some?
              && endCaptureOk && Left(old(co.tree), before) == start.value
              && GoesThrough(patch, touched, start, calls, start.value)
    ensures co.writes != old(co.writes) ==> co.tree == TreeAfter(patch, touched, start, calls, start.value)
    // so a checkout that nobody moves, with every call working, gets each patch that applies to it
    ensures before == [] && Unmoved(calls.gaps, old(co.tree)) && endCaptureOk && calls.captureOk && calls.checkOk && calls.applyOk ==>
              (co.writes != old(co.writes) <==> backlog == Some(0) && start == Some(old(co.tree)) && Applies(patch, old(co.tree)))
    // it is written with an empty backlog and three captured, equal fingerprints
    ensures co.writes != old(co.writes) ==>
              && co.writes == old(co.writes) + 1
              && backlog == Some(0)
              && start.Some? && end == start && seen.recheck == start
              && Happened(co.past, tl, patch, touched, seen)
    ensures r.Applied? ==> co.writes != old(co.writes) && r.divergence == BadPaths(Expects(calls, patch, touched, seen), touched, seen.post)
    // a turn reported as held was written all the same exactly when the detection threw
    ensures co.writes != old(co.writes) ==> (r.HeldBack? <==> DetectionThrows(calls, patch, touched, seen))
  {
    seen, tl, end := Seen(None, map[], map[]), Timeline(0, map[], 0, 0, map[]), None;
    if Unmoved(calls.gaps, co.tree) {
      UnmovedGoesThroughIff(patch, touched, start, calls, co.tree);
    }
    if backlog != Some(0) || start.None? {
      return HeldBack, seen, end, tl;
    }
    OperatorMayAct(co, before);
    end := CaptureRealTreeState(co, endCaptureOk);
    if end.None? || end != start {
      return HeldBack, seen, end, tl;
    }
    var applied: ApplyResult;
    applied, seen, tl := ApplyPatchToRealTree(co, patch, touched, end, calls);
    match applied {
      case NotApplied => r := HeldBack;
      case ThrewAfterWrite => r := HeldBack;
      case AppliedWith(divergence) => r := Applied(divergence);
    }
  }

  function Digested(digest: Tree -> T.Fingerprint, t: Option<Tree>): Option<T.Fingerprint> {
    if t.Some? then Some(digest(t.value)) else None
  }

  /** A turn end against the operator, as the calls the chain sees: an unreadable ledger throws before the
      write, and a turn held although it was written threw after it. */
  function ChainCalls(endTree: T.Tree, digest: Tree -> T.Fingerprint, end: Option<Tree>, backlog: Option<nat>,
                      r: TurnResult, wrote: bool, hold: T.HoldCall): T.EndCalls
  {
    T.EndCalls(Some(endTree), true, Digested(digest, end),
               if wrote then T.Wrote(r.Applied? && r.divergence != []) else T.Refused,
               if backlog.None? then T.BeforeWrite else if wrote && r.HeldBack? then T.AfterWrite else T.NoThrow,
               hold)
  }

  /** Whatever `SyncTurnEnd` does, the chain's decision on those calls is the same: it writes, applies and
      reports a divergence exactly when the turn end did. */
  lemma ChainDecidesTheSame(startTree: T.Tree, endTree: T.Tree, digest: Tree -> T.Fingerprint, start: Option<Tree>,
                            backlog: Option<nat>, end: Option<Tree>, r: TurnResult, wrote: bool, hold: T.HoldCall)
    requires startTree != endTree
    requires wrote ==> backlog == Some(0) && start.Some? && end == start
    requires r.Applied? ==> wrote
    ensures var d := T.SyncTurnEnd(T.Start(Some(startTree), Digested(digest, start)), backlog.GetOr(0),
                                   ChainCalls(endTree, digest, end, backlog, r, wrote, hold));
            && d.wrote == wrote
            && d.outcome.AppliedTurn? == r.Applied?
            && (r.Applied? ==> d.outcome.diverged == (r.divergence != []))
            && (r.HeldBack? ==> d == T.HoldTurn(endTree, wrote, hold))
  {
  }

  // ---------------------------------------------------------------------------------------------
  // What a report of no divergence means

  lemma ExpectedAt(scratch: Scratch, patch: Patch, touched: seq<Path>, pre: map<Path, Snap>, p: Path)
    requires ExpectedPostApply(scratch, patch, touched, pre).Expected? && p in patch && p in pre
    ensures Some(At(ExpectedPostApply(scratch, patch, touched, pre).tree, p)) == patch[p].apply(Seed(pre[p]))
  {
    assert At(SeedAll(pre), p) == Seed(pre[p]);
  }

  /** Every touched path, as read back, holds exactly what the patch makes of its snapshot. */
  lemma NoDivergenceMeansPatched(past: seq<Tree>, tl: Timeline, patch: Patch, touched: seq<Path>, seen: Seen, calls: ApplyCalls, p: Path)
    requires Happened(past, tl, patch, touched, seen) && p in touched && p in patch
    requires BadPaths(Expects(calls, patch, touched, seen), touched, seen.post) == []
    ensures Applies(patch, SeedAll(seen.pre))
    ensures Some(seen.post[p]) == patch[p].apply(if seen.pre[p].Unreadable? then Absent else seen.pre[p])
    ensures seen.post[p] != Unreadable
  {
    var e := Expects(calls, patch, touched, seen);
    BadPathsAre(e, touched, seen.post);
    assert !Diverged(e, seen.post, p);
    ExpectedAt(calls.scratch, patch, touched, seen.pre, p);
  }

  /** The path's content does not change from one recorded state to another. */
  ghost predicate Undisturbed(past: seq<Tree>, p: Path, from: nat, to: nat) {
    to < |past| && forall i :: from <= i <= to ==> At(past[i], p) == At(past[from], p)
  }

  lemma UndisturbedPath(past: seq<Tree>, tl: Timeline, patch: Patch, touched: seq<Path>, seen: Seen, p: Path)
    requires Happened(past, tl, patch, touched, seen) && p in touched && p in patch
    requires Undisturbed(past, p, tl.recheckAt, tl.writtenAt - 1) && Undisturbed(past, p, tl.writtenAt, tl.postAt[p])
    ensures seen.pre[p] == At(past[tl.recheckAt], p) == At(past[tl.readAt], p)
    ensures Some(seen.post[p]) == patch[p].apply(At(past[tl.recheckAt], p))
  {
    assert GitWrote(past, patch, tl.readAt, tl.writtenAt);
    assert past[tl.writtenAt][p] == Outputs(patch, past[tl.readAt])[p];
  }

  /** The scratch directory holds the whole snapshot. */
  predicate Fits(links: set<Path>, touched: seq<Path>, pre: map<Path, Snap>) {
    !Clash(links, touched, pre) && !LosesLink(touched, pre)
  }

  /** A readable snapshot of the paths of a patch replays like the tree it was taken from. */
  lemma SeededAlike(patch: Patch, links: set<Path>, touched: seq<Path>, pre: map<Path, Snap>, t: Tree)
    requires pre.Keys == patch.Keys && Applies(patch, t) && Fits(links, touched, pre)
    requires forall p :: p in pre ==> pre[p] == At(t, p) && !pre[p].Unreadable?
    ensures var e := ExpectedPostApply(Made(links, true), patch, touched, pre);
            e.Expected? && forall p :: p in pre ==> At(e.tree, p) == patch[p].apply(At(t, p)).value
  {
    assert forall p :: p in pre ==> At(SeedAll(pre), p) == At(t, p);
  }

  /** The operator leaves the path alone from the recheck to the write, and from the write to the
      read-back. */
  ghost predicate LeftAlone(past: seq<Tree>, tl: Timeline, p: Path)
    requires p in tl.postAt && tl.writtenAt > 0
  {
    Undisturbed(past, p, tl.recheckAt, tl.writtenAt - 1) && Undisturbed(past, p, tl.writtenAt, tl.postAt[p])
  }

  /** When the operator leaves the touched paths alone, the write puts the patch of the fingerprinted tree
      there, and nothing is reported, unless the scratch directory cannot hold the snapshot. */
  lemma UndisturbedWriteIsExact(past: seq<Tree>, tl: Timeline, patch: Patch, touched: seq<Path>, seen: Seen, links: set<Path>)
    requires Happened(past, tl, patch, touched, seen)
    requires patch.Keys == Members(touched)
    requires forall p :: p in touched ==>
               && LeftAlone(past, tl, p)
               && !At(past[tl.recheckAt], p).Unreadable?
               && patch[p].apply(At(past[tl.recheckAt], p)) != Some(Unreadable)
    ensures var e := ExpectedPostApply(Made(links, true), patch, touched, seen.pre);
            && (e.Threw? <==> Clash(links, touched, seen.pre))
            && (Fits(links, touched, seen.pre) ==> BadPaths(e, touched, seen.post) == [])
    ensures forall p :: p in touched ==> Some(seen.post[p]) == patch[p].apply(At(past[tl.recheckAt], p))
  {
    UndisturbedPaths(past, tl, patch, touched, seen);
    assert Applies(patch, past[tl.readAt]);
    NoneBad(patch, links, touched, seen, past[tl.readAt]);
  }

  lemma UndisturbedPaths(past: seq<Tree>, tl: Timeline, patch: Patch, touched: seq<Path>, seen: Seen)
    requires Happened(past, tl, patch, touched, seen)
    requires forall p :: p in touched ==> p in patch && LeftAlone(past, tl, p)
    ensures forall p :: p in touched ==>
              && seen.pre[p] == At(past[tl.recheckAt], p) == At(past[tl.readAt], p)
              && Some(seen.post[p]) == patch[p].apply(At(past[tl.recheckAt], p))
  {
    forall p | p in touched
      ensures seen.pre[p] == At(past[tl.recheckAt], p) == At(past[tl.readAt], p)
      ensures Some(seen.post[p]) == patch[p].apply(At(past[tl.recheckAt], p))
    {
      assert LeftAlone(past, tl, p);
      UndisturbedPath(past, tl, patch, touched, seen, p);
    }
  }

  lemma NoneBad(patch: Patch, links: set<Path>, touched: seq<Path>, seen: Seen, t: Tree)
    requires seen.pre.Keys == seen.post.Keys == patch.Keys == Members(touched) && Applies(patch, t)
    requires forall p :: p in touched ==> seen.pre[p] == At(t, p) && !seen.pre[p].Unreadable?
    requires forall p :: p in touched ==> patch[p].apply(At(t, p)) == Some(seen.post[p]) && !seen.post[p].Unreadable?
    ensures var e := ExpectedPostApply(Made(links, true), patch, touched, seen.pre);
            && (e.Threw? <==> Clash(links, touched, seen.pre))
            && (Fits(links, touched, seen.pre) ==> BadPaths(e, touched, seen.post) == [])
  {
    if Fits(links, touched, seen.pre) {
      SeededAlike(patch, links, touched, seen.pre, t);
      BadPathsAre(ExpectedPostApply(Made(links, true), patch, touched, seen.pre), touched, seen.post);
    }
  }

  /** A path on the list that the patch does not write is expected to be what the snapshot read there. */
  lemma BystanderDivergedIff(scratch: Scratch, patch: Patch, touched: seq<Path>, pre: map<Path, Snap>, post: map<Path, Snap>, p: Path)
    requires p in pre && p in post && p !in patch && ExpectedPostApply(scratch, patch, touched, pre).Expected?
    ensures Diverged(ExpectedPostApply(scratch, patch, touched, pre), post, p)
            <==> post[p] != (if pre[p].Unreadable? then Absent else pre[p]) || post[p].Unreadable?
  {
    assert At(SeedAll(pre), p) == Seed(pre[p]);
  }

  /** `p` gives way to a directory with the new file `q` in it. */
  function ToDirectory(p: Path, was: Snap, q: Path, y: string): Patch {
    map[p := Edit((s: Snap) => if s == was then Some(Unreadable) else None),
        q := Edit((s: Snap) => if s.File? || s.Symlink? then None else Some(File(y)))]
  }

  lemma ToDirectoryWrites(p: Path, was: Snap, below: Snap, q: Path, y: string)
    requires p != q && !below.File? && !below.Symlink?
    ensures var before, after := map[p := was, q := below], map[p := Unreadable, q := File(y)];
            var patch := ToDirectory(p, was, q, y);
            Applies(patch, before) && Outputs(patch, before) == after && before + after == after
  {
  }

  /** A turn that replaces a file or a link by a directory, with nobody interfering and no call failing, is
      written; and it is reported as held exactly when that was a file, or a link that leads nowhere from the
      scratch directory. */
  lemma BecomesDirectoryIsHeld(p: Path, was: Snap, below: Snap, q: Path, y: string, links: set<Path>, gaps: Gaps)
    requires Under(q, p) && (was.File? || was.Symlink?) && !below.File? && !below.Symlink?
    ensures var before, after := map[p := was, q := below], map[p := Unreadable, q := File(y)];
            var patch := ToDirectory(p, was, q, y);
            var tl := Timeline(0, map[p := 0, q := 0], 0, 1, map[p := 1, q := 1]);
            var seen := Seen(Some(before), before, after);
            && Happened([before, after], tl, patch, [p, q], seen)
            && (DetectionThrows(ApplyCalls(true, true, true, Made(links, true), true, gaps), patch, [p, q], seen)
                <==> was.File? || p !in links)
  {
    var before, after := map[p := was, q := below], map[p := Unreadable, q := File(y)];
    ToDirectoryWrites(p, was, below, q, y);
    HappensAlone(before, after, ToDirectory(p, was, q, y), [p, q], p, q);
    assert p in before && q in before && before[p] == was;
    assert [p, q][0] == p && [p, q][1] == q;
    assert Precedes([p, q], p, q);
    assert Clash(links, [p, q], before) <==> was.File? || p !in links;
  }

  /** A write with nobody interfering. */
  lemma HappensAlone(before: Tree, after: Tree, patch: Patch, touched: seq<Path>, p: Path, q: Path)
    requires touched == [p, q] && before.Keys == after.Keys == {p, q}
    requires Applies(patch, before) && Outputs(patch, before) == after && before + after == after
    ensures var tl := Timeline(0, map[p := 0, q := 0], 0, 1, map[p := 1, q := 1]);
            Happened([before, after], tl, patch, touched, Seen(Some(before), before, after))
  {
    assert Members(touched) == {p, q};
  }

  // ---------------------------------------------------------------------------------------------
  // When the list of touched paths misses one

  /** Exactly when the replay is possible: every edit applies to what was seeded for it, and an edit of a
      path that is not on the list to nothing. */
  lemma ReplaysIff(patch: Patch, links: set<Path>, touched: seq<Path>, pre: map<Path, Snap>)
    requires Fits(links, touched, pre)
    ensures ExpectedPostApply(Made(links, true), patch, touched, pre).Expected?
            <==> forall p :: p in patch ==> patch[p].apply(if p in pre then Seed(pre[p]) else Absent).Some?
  {
    assert forall p :: At(SeedAll(pre), p) == if p in pre then Seed(pre[p]) else Absent;
  }

  /** So when a path is missing whose edit needs something to be there, every path on the list is reported,
      whether anybody interfered or not. */
  lemma MissedPathReportsAll(scratch: Scratch, patch: Patch, touched: seq<Path>, pre: map<Path, Snap>, post: map<Path, Snap>, q: Path)
    requires pre.Keys == post.Keys == Members(touched)
    requires q in patch && q !in touched && patch[q].apply(Absent).None?
    ensures var e := ExpectedPostApply(scratch, patch, touched, pre);
            !e.Expected? && BadPaths(e, touched, post) == touched
  {
    assert q !in pre && At(SeedAll(pre), q) == Absent;
    BadPathsAre(ExpectedPostApply(scratch, patch, touched, pre), touched, post);
  }

  /** A patch that could not be replayed at all counts against every path: without a scratch directory, or where
      `git apply` does not run there or finds the patch not applying. */
  lemma UnreplayedReportsAll(scratch: Scratch, patch: Patch, touched: seq<Path>, pre: map<Path, Snap>, post: map<Path, Snap>)
    requires pre.Keys == post.Keys == Members(touched)
    requires scratch.NoDirectory?
             || (scratch.Made? && !Clash(scratch.links, touched, pre)
                 && (!scratch.gitOk || LosesLink(touched, pre) || !Applies(patch, SeedAll(pre))))
    ensures var e := ExpectedPostApply(scratch, patch, touched, pre);
            !e.Threw? && BadPaths(e, touched, post) == touched
  {
    BadPathsAre(ExpectedPostApply(scratch, patch, touched, pre), touched, post);
  }

  /** So a link that is seeded only after something below it, and is quietly left out, makes every path count. */
  lemma LostLinkReportsAll(links: set<Path>, gitOk: bool, patch: Patch, touched: seq<Path>, pre: map<Path, Snap>,
                           post: map<Path, Snap>, p: Path, q: Path)
    requires pre.Keys == post.Keys == Members(touched) && !Clash(links, touched, pre)
    requires p in pre && q in pre && Under(q, p) && pre[p].Symlink? && Precedes(touched, q, p)
    ensures var e := ExpectedPostApply(Made(links, gitOk), patch, touched, pre);
            !e.Threw? && BadPaths(e, touched, post) == touched
  {
    UnreplayedReportsAll(Made(links, gitOk), patch, touched, pre, post);
  }

  // ---------------------------------------------------------------------------------------------
  // When an interfering save is reported

  lemma Compared(e: Expectation, post: map<Path, Snap>, p: Path, wanted: Option<Snap>, result: Option<Snap>)
    requires p in post && result == Some(post[p]) && (e.Expected? ==> wanted == Some(At(e.tree, p)))
    ensures Diverged(e, post, p) <==> !e.Expected? || wanted != result || result == Some(Unreadable)
  {
  }

  lemma WrittenThere(past: seq<Tree>, tl: Timeline, patch: Patch, touched: seq<Path>, seen: Seen, p: Path)
    requires Happened(past, tl, patch, touched, seen) && p in touched && p in patch
    requires Undisturbed(past, p, tl.writtenAt, tl.postAt[p])
    ensures Some(seen.post[p]) == patch[p].apply(At(past[tl.readAt], p)) && seen.pre[p] == At(past[tl.preAt[p]], p)
  {
    assert GitWrote(past, patch, tl.readAt, tl.writtenAt);
    assert past[tl.writtenAt][p] == Outputs(patch, past[tl.readAt])[p];
  }

  /** Exactly when: for a path that is left alone after the write, what counts is whether the content the
      snapshot read and the content git read lead to the same result, and nothing else. */
  lemma DivergedIff(past: seq<Tree>, tl: Timeline, patch: Patch, touched: seq<Path>, seen: Seen, scratch: Scratch, p: Path)
    requires Happened(past, tl, patch, touched, seen) && p in touched && p in patch
    requires Undisturbed(past, p, tl.writtenAt, tl.postAt[p])
    ensures var e := ExpectedPostApply(scratch, patch, touched, seen.pre);
            var result := patch[p].apply(At(past[tl.readAt], p));
            Diverged(e, seen.post, p)
            <==> !e.Expected?
                 || patch[p].apply(var s := At(past[tl.preAt[p]], p); if s.Unreadable? then Absent else s) != result
                 || result == Some(Unreadable)
  {
    var e := ExpectedPostApply(scratch, patch, touched, seen.pre);
    WrittenThere(past, tl, patch, touched, seen, p);
    if e.Expected? {
      ExpectedAt(scratch, patch, touched, seen.pre, p);
    }
    Compared(e, seen.post, p, patch[p].apply(Seed(seen.pre[p])), patch[p].apply(At(past[tl.readAt], p)));
  }

  /** `more` is the same past with one more save, just before git's write. */
  ghost predicate WithSave(past: seq<Tree>, more: seq<Tree>, writtenAt: nat, saved: Tree, outputs: Tree)
    requires writtenAt < |past|
  {
    && |more| == |past| + 1
    && (forall i {:trigger more[i]} :: 0 <= i < writtenAt ==> more[i] == past[i])
    && more[writtenAt] == saved && more[writtenAt + 1] == saved + outputs
    && (forall i {:trigger more[i]} :: writtenAt + 1 < i < |more| ==> more[i] == past[i - 1])
  }

  function Later(at: map<Path, nat>): map<Path, nat> {
    map p | p in at :: at[p] + 1
  }

  lemma ReadStillBefore(past: seq<Tree>, more: seq<Tree>, from: nat, to: nat, snaps: map<Path, Snap>, at: map<Path, nat>)
    requires ReadBetween(past, from, to, snaps, at) && to < |past| && to < |more|
    requires forall i {:trigger more[i]} :: 0 <= i <= to ==> more[i] == past[i]
    ensures ReadBetween(more, from, to, snaps, at)
  {
  }

  /** Every read-back reads what it read without the save. */
  lemma ReadBackAlike(past: seq<Tree>, more: seq<Tree>, writtenAt: nat, saved: Tree, outputs: Tree,
                      post: map<Path, Snap>, at: map<Path, nat>)
    requires 0 < writtenAt < |past| && past[writtenAt] == past[writtenAt - 1] + outputs
    requires WithSave(past, more, writtenAt, saved, outputs) && ReadBetween(past, writtenAt, |past| - 1, post, at)
    requires post.Keys <= outputs.Keys
    ensures ReadBetween(more, writtenAt + 1, |more| - 1, post, Later(at))
  {
    forall p | p in post
      ensures at[p] + 1 < |more| && post[p] == At(more[at[p] + 1], p)
    {
      var i := at[p];
      assert i + 1 == writtenAt + 1 || more[i + 1] == past[i];
    }
  }

  lemma GitWritesOverIt(past: seq<Tree>, more: seq<Tree>, patch: Patch, readAt: nat, writtenAt: nat, saved: Tree)
    requires readAt < writtenAt < |past| && GitWrote(past, patch, readAt, writtenAt)
    requires WithSave(past, more, writtenAt, saved, Outputs(patch, past[readAt]))
    ensures GitWrote(more, patch, readAt, writtenAt + 1) && more[writtenAt] == saved
  {
    assert more[readAt] == past[readAt];
  }

  /** What came before the save stays as it was. */
  lemma BeforeTheSave(past: seq<Tree>, more: seq<Tree>, writtenAt: nat, saved: Tree, outputs: Tree, recheckAt: nat, readAt: nat,
                      pre: map<Path, Snap>, at: map<Path, nat>)
    requires recheckAt <= readAt < writtenAt < |past| && WithSave(past, more, writtenAt, saved, outputs)
    requires ReadBetween(past, recheckAt, readAt, pre, at)
    ensures more[recheckAt] == past[recheckAt] && more[readAt] == past[readAt]
    ensures ReadBetween(more, recheckAt, readAt, pre, at)
  {
    ReadStillBefore(past, more, recheckAt, readAt, pre, at);
  }

  lemma TouchedAreOutputs(patch: Patch, t: Tree, touched: seq<Path>, post: map<Path, Snap>)
    requires Applies(patch, t) && post.Keys == Members(touched) && forall p :: p in touched ==> p in patch
    ensures post.Keys <= Outputs(patch, t).Keys
  {
  }

  lemma PostOfSave(past: seq<Tree>, more: seq<Tree>, tl: Timeline, patch: Patch, touched: seq<Path>, seen: Seen, saved: Tree)
    requires Happened(past, tl, patch, touched, seen) && forall p :: p in touched ==> p in patch
    requires WithSave(past, more, tl.writtenAt, saved, Outputs(patch, past[tl.readAt]))
    ensures ReadBetween(more, tl.writtenAt + 1, |more| - 1, seen.post, Later(tl.postAt))
  {
    TouchedAreOutputs(patch, past[tl.readAt], touched, seen.post);
    ReadBackAlike(past, more, tl.writtenAt, saved, Outputs(patch, past[tl.readAt]), seen.post, tl.postAt);
  }

  lemma PreOfSave(past: seq<Tree>, more: seq<Tree>, tl: Timeline, patch: Patch, touched: seq<Path>, seen: Seen, saved: Tree)
    requires Happened(past, tl, patch, touched, seen)
    requires WithSave(past, more, tl.writtenAt, saved, Outputs(patch, past[tl.readAt]))
    ensures tl.writtenAt + 1 < |more| && more[tl.writtenAt] == saved && GitWrote(more, patch, tl.readAt, tl.writtenAt + 1)
    ensures ReadBetween(more, tl.recheckAt, tl.readAt, seen.pre, tl.preAt)
    ensures seen.recheck.Some? ==> seen.recheck.value == more[tl.recheckAt]
  {
    GitWritesOverIt(past, more, patch, tl.readAt, tl.writtenAt, saved);
    BeforeTheSave(past, more, tl.writtenAt, saved, Outputs(patch, past[tl.readAt]), tl.recheckAt, tl.readAt, seen.pre, tl.preAt);
  }

  /** So what is saved between git's read and its write never changes the report: whatever happened around
      a write, and whatever state is saved into that gap, the daemon may see exactly the same. */
  lemma SaveBeforeWriteIsInvisible(past: seq<Tree>, more: seq<Tree>, tl: Timeline, patch: Patch, touched: seq<Path>,
                                   seen: Seen, saved: Tree)
    requires Happened(past, tl, patch, touched, seen) && forall p :: p in touched ==> p in patch
    requires WithSave(past, more, tl.writtenAt, saved, Outputs(patch, past[tl.readAt]))
    ensures more[tl.writtenAt] == saved
    ensures Happened(more, Timeline(tl.recheckAt, tl.preAt, tl.readAt, tl.writtenAt + 1, Later(tl.postAt)), patch, touched, seen)
  {
    PreOfSave(past, more, tl, patch, touched, seen, saved);
    PostOfSave(past, more, tl, patch, touched, seen, saved);
  }

  /** For instance, with nothing else going on: the edit is gone and the report is empty.  For every edit
      and every content this happens. */
  lemma OverwriteBetweenReadAndWriteIsSilent(p: Path, edit: Edit, before: Snap, saved: Snap, after: Snap)
    requires edit.apply(before) == Some(after) && !before.Unreadable? && !after.Unreadable? && saved != after
    ensures var patch, touched := map[p := edit], [p];
            var past := [map[p := before], map[p := saved], map[p := after]];
            var tl := Timeline(0, map[p := 0], 0, 2, map[p := 2]);
            var seen := Seen(Some(past[0]), map[p := before], map[p := after]);
            && Happened(past, tl, patch, touched, seen)
            && BadPaths(ExpectedPostApply(Made({}, true), patch, touched, seen.pre), touched, seen.post) == []
            && (forall i :: tl.writtenAt <= i < |past| ==> At(past[i], p) != saved)
  {
    var patch := map[p := edit];
    var past := [map[p := before], map[p := saved], map[p := after]];
    var tl := Timeline(0, map[p := 0], 0, 2, map[p := 2]);
    var seen := Seen(Some(past[0]), map[p := before], map[p := after]);
    OneSaveHappens(p, edit, before, saved, after);
    NothingBelow(p, seen.pre);
    assert Undisturbed(past, p, 2, 2);
    DivergedIff(past, tl, patch, [p], seen, Made({}, true), p);
    BadPathsAre(ExpectedPostApply(Made({}, true), patch, [p], seen.pre), [p], seen.post);
  }

  lemma OneSaveHappens(p: Path, edit: Edit, before: Snap, saved: Snap, after: Snap)
    requires edit.apply(before) == Some(after)
    ensures Happened([map[p := before], map[p := saved], map[p := after]], Timeline(0, map[p := 0], 0, 2, map[p := 2]),
                     map[p := edit], [p], Seen(Some(map[p := before]), map[p := before], map[p := after]))
  {
    assert Outputs(map[p := edit], map[p := before]) == map[p := after];
    assert map[p := saved] + map[p := after] == map[p := after];
    assert Members([p]) == {p};
  }

  lemma NothingBelow(p: Path, pre: map<Path, Snap>)
    requires pre.Keys == {p}
    ensures Fits({}, [p], pre)
  {
  }
}
