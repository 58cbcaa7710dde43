/**
 The explicit affordances over the held backlog: replaying it into the checkout in order, and dropping
 it.  Each held patch brings the outcome of its own file-system and git calls.
 */
module HeldReplay {
  import opened Wrappers
  import opened HeldLedger
  import opened HeldStore

  /** `git apply` (with its checks and the pinned fingerprint) refused, or wrote the patch, or something
      threw before or after the write; `diverged`: bad paths were found, even if keeping a copy of them is
      what threw. */
  datatype WriteResult = Refused | Wrote(diverged: bool) | ThrewBefore | ThrewAfter(diverged: bool) {
    predicate Threw() {
      ThrewBefore? || ThrewAfter?
    }
  }

  function Marks(h: HeldSync, w: WriteResult): seq<nat> {
    if (w.Wrote? || w.ThrewAfter?) && w.diverged then [h.turn] else []
  }

  /** What one patch meets: the write, recording it, and the fingerprint for the next one. */
  datatype PatchCalls = PatchCalls(write: WriteResult, record: Append, bodyGone: bool, metaGone: bool, recaptured: bool)

  /** `diverged` is every divergence detected; `tells`: the way the replay ended passes them on; `threw`:
      it ended in an error its caller catches, not in a report. */
  datatype Replayed = Replayed(disk: Disk, written: seq<string>, diverged: seq<nat>, ok: bool, tells: bool, threw: bool) {
    /** What the operator is told. */
    function Reported(): seq<nat> {
      if tells then diverged else []
    }
  }

  function ListHeld(b: Backlog, agent: string): Backlog {
    if b == [] then [] else (if b[0].agentId == agent then [b[0]] else []) + ListHeld(b[1..], agent)
  }

  function RecordApplied(c: Codec, d: Disk, h: HeldSync, e: PatchCalls): Disk {
    Do(c, d, Resolve(h.id, Applied, e.record, e.bodyGone, e.metaGone))
  }

  /** The replay of `held`, oldest first. */
  function ReplayHeld(c: Codec, d: Disk, held: Backlog, env: seq<PatchCalls>): Replayed
    requires |env| == |held|
    decreases |held|
  {
    if held == [] then Replayed(d, [], [], true, true, false)
    else if held[0].id !in d.bodies || env[0].write.Refused? then Replayed(d, [], [], false, false, false)
    else if env[0].write.Threw() then
      Replayed(d, if env[0].write.ThrewAfter? then [d.bodies[held[0].id]] else [], Marks(held[0], env[0].write), false, false, true)
    else
      var body := d.bodies[held[0].id];
      var div := Marks(held[0], env[0].write);
      var next := RecordApplied(c, d, held[0], env[0]);
      if env[0].record.Cut? || (|held| > 1 && !env[0].recaptured) then Replayed(next, [body], div, false, true, false)
      else
        var rest := ReplayHeld(c, next, held[1..], env[1..]);
        Replayed(rest.disk, [body] + rest.written, div + rest.diverged, rest.ok, rest.tells, rest.threw)
  }

  /** Every record of the replay is a clean append. */
  predicate ReplayIsClean(c: Codec, d: Disk, held: Backlog, env: seq<PatchCalls>)
    requires |env| == |held|
    decreases |held|
  {
    held != [] && held[0].id in d.bodies && env[0].write.Wrote? ==>
      && Clean(c, d, env[0].record)
      && (env[0].record.Whole? && (|held| == 1 || env[0].recaptured) ==>
            ReplayIsClean(c, RecordApplied(c, d, held[0], env[0]), held[1..], env[1..]))
  }

  predicate DropIsClean(c: Codec, d: Disk, targets: Backlog, env: seq<PatchCalls>)
    requires |env| == |targets|
    decreases |targets|
  {
    targets != [] ==>
      && Clean(c, d, env[0].record)
      && (env[0].record.Whole? ==>
            DropIsClean(c, Do(c, d, Resolve(targets[0].id, Discarded, env[0].record, env[0].bodyGone, env[0].metaGone)),
                        targets[1..], env[1..]))
  }

  function DropHeld(c: Codec, d: Disk, targets: Backlog, env: seq<PatchCalls>): (Disk, nat)
    requires |env| == |targets|
    decreases |targets|
  {
    if targets == [] then (d, 0)
    else
      var next := Do(c, d, Resolve(targets[0].id, Discarded, env[0].record, env[0].bodyGone, env[0].metaGone));
      if env[0].record.Cut? then (next, 0)
      else
        var rest := DropHeld(c, next, targets[1..], env[1..]);
        (rest.0, rest.1 + 1)
  }

  // ---------------------------------------------------------------------------------------------
  // Lists by owner

  lemma {:induction false} ListHeldWithout(b: Backlog, agent: string, id: HoldId)
    ensures ListHeld(WithoutId(b, id), agent) == WithoutId(ListHeld(b, agent), id)
  {
    if b != [] {
      ListHeldWithout(b[1..], agent, id);
      var rest := WithoutId(b[1..], id);
      if b[0].id != id {
        assert ([b[0]] + rest)[1..] == rest;
      } else {
        assert [] + rest == rest;
      }
      if b[0].agentId == agent {
        assert ([b[0]] + ListHeld(b[1..], agent))[1..] == ListHeld(b[1..], agent);
      } else {
        assert [] + ListHeld(b[1..], agent) == ListHeld(b[1..], agent);
      }
    }
  }

  lemma {:induction false} ListHeldMembers(b: Backlog, agent: string)
    ensures forall h :: h in ListHeld(b, agent) <==> h in b && h.agentId == agent
    ensures UniqueIds(b) ==> UniqueIds(ListHeld(b, agent))
  {
    if b != [] {
      ListHeldMembers(b[1..], agent);
      assert b == [b[0]] + b[1..];
    }
  }

  lemma {:induction false} WithoutAbsent(b: Backlog, id: HoldId)
    requires !HasId(b, id)
    ensures WithoutId(b, id) == b
  {
    if b != [] {
      assert b[0] in b;
      forall h | h in b[1..]
        ensures h.id != id
      {
        assert h in b;
      }
      WithoutAbsent(b[1..], id);
    }
  }

  lemma SameIdSameHold(b: Backlog, g: HeldSync, h: HeldSync)
    requires UniqueIds(b) && g in b && h in b
    ensures g.id == h.id ==> g == h
  {
    var i :| 0 <= i < |b| && b[i] == g;
    var j :| 0 <= j < |b| && b[j] == h;
  }

  lemma OtherOwnersKeep(b: Backlog, other: string, h: HeldSync)
    requires UniqueIds(b) && h in b && h.agentId != other
    ensures ListHeld(WithoutId(b, h.id), other) == ListHeld(b, other)
  {
    ListHeldWithout(b, other, h.id);
    ListHeldMembers(b, other);
    forall g | g in ListHeld(b, other)
      ensures g.id != h.id
    {
      SameIdSameHold(b, g, h);
    }
    WithoutAbsent(ListHeld(b, other), h.id);
  }

  /** Taking one hold off the list takes it off its owner's and leaves other owners alone. */
  lemma TakesOne(b: Backlog, agent: string, other: string, h: HeldSync)
    requires UniqueIds(b) && h in ListHeld(b, agent)
    ensures var after := WithoutId(b, h.id);
            && UniqueIds(after)
            && ListHeld(after, agent) == WithoutId(ListHeld(b, agent), h.id)
            && (other != agent ==> ListHeld(after, other) == ListHeld(b, other))
  {
    WithoutIdProps(b, h.id);
    ListHeldWithout(b, agent, h.id);
    ListHeldMembers(b, agent);
    if other != agent {
      OtherOwnersKeep(b, other, h);
    }
  }

  /** A resolve takes its hold off the list if and only if its line landed. */
  lemma ResolveLists(c: Codec, d: Disk, id: HoldId, o: Outcome, e: PatchCalls)
    requires Sound(c) && Clean(c, d, e.record)
    ensures Listing(c, Do(c, d, Resolve(id, o, e.record, e.bodyGone, e.metaGone)))
            == if Lands(c, d, Resolved(id, o), e.record) then WithoutId(Listing(c, d), id) else Listing(c, d)
  {
    AppendEvents(c, d, Resolved(id, o), e.record);
  }

  /** Recording one hold takes exactly that hold off its owner's list and leaves other owners alone. */
  lemma ResolveTakesOne(c: Codec, d: Disk, agent: string, other: string, h: HeldSync, o: Outcome, e: PatchCalls)
    requires Sound(c) && UniqueIds(Listing(c, d)) && e.record.Whole? && Clean(c, d, e.record)
    requires h in ListHeld(Listing(c, d), agent)
    ensures var after := Listing(c, Do(c, d, Resolve(h.id, o, e.record, e.bodyGone, e.metaGone)));
            && UniqueIds(after)
            && ListHeld(after, agent) == WithoutId(ListHeld(Listing(c, d), agent), h.id)
            && (other != agent ==> ListHeld(after, other) == ListHeld(Listing(c, d), other))
  {
    ResolveLists(c, d, h.id, o, e);
    TakesOne(Listing(c, d), agent, other, h);
  }

  lemma WithoutFirst(b: Backlog)
    requires b != [] && UniqueIds(b)
    ensures WithoutId(b, b[0].id) == b[1..]
  {
    forall h | h in b[1..]
      ensures h.id != b[0].id
    {
      var i :| 0 <= i < |b[1..]| && b[1..][i] == h;
      assert h == b[i + 1];
    }
    WithoutAbsent(b[1..], b[0].id);
  }

  // ---------------------------------------------------------------------------------------------
  // What a replay does

  /** Nothing is skipped and nothing is reordered: the written patches are the bodies of a prefix of the
      backlog, all of it when the replay reports success, whatever goes wrong on the way. */
  lemma {:induction false} WritesAPrefix(c: Codec, d: Disk, held: Backlog, env: seq<PatchCalls>)
    requires |env| == |held| && UniqueIds(held)
    ensures var r := ReplayHeld(c, d, held, env);
            && |r.written| <= |held|
            && (r.ok ==> |r.written| == |held|)
            && forall k :: 0 <= k < |r.written| ==> held[k].id in d.bodies && r.written[k] == d.bodies[held[k].id]
    decreases |held|
  {
    if held != [] && held[0].id in d.bodies && env[0].write.Wrote? && env[0].record.Whole? {
      var next := RecordApplied(c, d, held[0], env[0]);
      WritesAPrefix(c, next, held[1..], env[1..]);
      var rest := ReplayHeld(c, next, held[1..], env[1..]);
      forall k | 1 <= k < |rest.written| + 1
        ensures held[k].id in d.bodies && rest.written[k - 1] == d.bodies[held[k].id]
      {
        assert held[1..][k - 1] == held[k] && held[0].id != held[k].id;
      }
    }
  }

  /** The write happened but was not recorded: the record failed, or something threw in between. */
  predicate Unrecorded(e: PatchCalls) {
    (e.write.Wrote? && e.record.Cut?) || e.write.ThrewAfter?
  }

  /** The backlog afterwards is the backlog before without the written prefix, in the same order; when
      the last write went unrecorded, that one patch may still be listed. */
  lemma {:induction false} BacklogAfterReplay(c: Codec, d: Disk, agent: string, env: seq<PatchCalls>)
    requires Sound(c) && UniqueIds(Listing(c, d)) && |env| == |ListHeld(Listing(c, d), agent)|
    requires ReplayIsClean(c, d, ListHeld(Listing(c, d), agent), env)
    ensures var held := ListHeld(Listing(c, d), agent);
            var r := ReplayHeld(c, d, held, env);
            Left(held, env, |r.written|, ListHeld(Listing(c, r.disk), agent))
    decreases |ListHeld(Listing(c, d), agent)|
  {
    var held := ListHeld(Listing(c, d), agent);
    if held != [] && held[0].id in d.bodies && env[0].write.Wrote? {
      ReplayFirst(c, d, held, env);
      if GoesOn(held, env) {
        OneRecorded(c, d, agent, env);
        BacklogAfterReplay(c, RecordApplied(c, d, held[0], env[0]), agent, env[1..]);
        var rest := ReplayHeld(c, RecordApplied(c, d, held[0], env[0]), held[1..], env[1..]);
        LeftOfRest(held, env, |rest.written|, ListHeld(Listing(c, rest.disk), agent));
      } else {
        StopsAfterOne(c, d, agent, env);
      }
    }
  }

  predicate GoesOn(held: Backlog, env: seq<PatchCalls>)
    requires held != [] && |env| == |held|
  {
    env[0].record.Whole? && (|held| == 1 || env[0].recaptured)
  }

  lemma ReplayFirst(c: Codec, d: Disk, held: Backlog, env: seq<PatchCalls>)
    requires |env| == |held| && held != [] && held[0].id in d.bodies && env[0].write.Wrote?
    ensures var r, next := ReplayHeld(c, d, held, env), RecordApplied(c, d, held[0], env[0]);
            if GoesOn(held, env)
            then var rest := ReplayHeld(c, next, held[1..], env[1..]); r.disk == rest.disk && |r.written| == |rest.written| + 1
            else r.disk == next && |r.written| == 1
  {
  }

  /** Recording the oldest patch takes it off the list. */
  lemma OneRecorded(c: Codec, d: Disk, agent: string, env: seq<PatchCalls>)
    requires Sound(c) && UniqueIds(Listing(c, d)) && |env| == |ListHeld(Listing(c, d), agent)|
    requires ListHeld(Listing(c, d), agent) != [] && env[0].record.Whole? && Clean(c, d, env[0].record)
    ensures var held := ListHeld(Listing(c, d), agent);
            var after := Listing(c, RecordApplied(c, d, held[0], env[0]));
            UniqueIds(after) && ListHeld(after, agent) == held[1..]
  {
    var held := ListHeld(Listing(c, d), agent);
    ListHeldMembers(Listing(c, d), agent);
    assert held[0] in held;
    WithoutFirst(held);
    ResolveTakesOne(c, d, agent, agent, held[0], Applied, env[0]);
  }

  lemma StopsAfterOne(c: Codec, d: Disk, agent: string, env: seq<PatchCalls>)
    requires Sound(c) && UniqueIds(Listing(c, d)) && |env| == |ListHeld(Listing(c, d), agent)|
    requires ListHeld(Listing(c, d), agent) != [] && env[0].write.Wrote? && Clean(c, d, env[0].record)
    ensures var held := ListHeld(Listing(c, d), agent);
            Left(held, env, 1, ListHeld(Listing(c, RecordApplied(c, d, held[0], env[0])), agent))
  {
    var held := ListHeld(Listing(c, d), agent);
    if env[0].record.Whole? {
      OneRecorded(c, d, agent, env);
    } else {
      ListHeldMembers(Listing(c, d), agent);
      assert held[0] in held;
      WithoutFirst(held);
      CutResolve(c, d, agent, agent, held[0], Applied, env[0]);
    }
  }

  /** What is left of a list after its first `n` patches were written. */
  predicate Left(held: Backlog, env: seq<PatchCalls>, n: nat, after: Backlog) {
    && n <= |held| == |env|
    && (after == held[n..] || (n > 0 && Unrecorded(env[n - 1]) && after == held[n - 1..]))
  }

  lemma LeftOfRest(held: Backlog, env: seq<PatchCalls>, n: nat, after: Backlog)
    requires held != [] && |env| == |held| && Left(held[1..], env[1..], n, after)
    ensures Left(held, env, n + 1, after)
  {
    assert held[1..][n..] == held[n + 1..];
    if n > 0 {
      assert held[1..][n - 1..] == held[n..] && env[1..][n - 1] == env[n];
    }
  }

  /** Other owners keep their lists. */
  lemma {:induction false} OthersAfterReplay(c: Codec, d: Disk, agent: string, other: string, env: seq<PatchCalls>)
    requires Sound(c) && UniqueIds(Listing(c, d)) && |env| == |ListHeld(Listing(c, d), agent)| && other != agent
    requires ReplayIsClean(c, d, ListHeld(Listing(c, d), agent), env)
    ensures var r := ReplayHeld(c, d, ListHeld(Listing(c, d), agent), env);
            ListHeld(Listing(c, r.disk), other) == ListHeld(Listing(c, d), other)
    decreases |ListHeld(Listing(c, d), agent)|
  {
    var held := ListHeld(Listing(c, d), agent);
    ListHeldMembers(Listing(c, d), agent);
    if held != [] && held[0].id in d.bodies && env[0].write.Wrote? {
      assert held[0] in held;
      WithoutFirst(held);
      ReplayFirst(c, d, held, env);
      if env[0].record.Cut? {
        CutResolve(c, d, agent, other, held[0], Applied, env[0]);
      } else {
        ResolveTakesOne(c, d, agent, other, held[0], Applied, env[0]);
        if GoesOn(held, env) {
          OthersAfterReplay(c, RecordApplied(c, d, held[0], env[0]), agent, other, env[1..]);
        }
      }
    }
  }

  /** A resolve line that was cut either landed whole or changed nothing. */
  lemma CutResolve(c: Codec, d: Disk, agent: string, other: string, h: HeldSync, o: Outcome, e: PatchCalls)
    requires Sound(c) && UniqueIds(Listing(c, d)) && e.record.Cut? && Clean(c, d, e.record) && h in ListHeld(Listing(c, d), agent)
    ensures var after := Listing(c, Do(c, d, Resolve(h.id, o, e.record, e.bodyGone, e.metaGone)));
            && (ListHeld(after, agent) == ListHeld(Listing(c, d), agent)
                || ListHeld(after, agent) == WithoutId(ListHeld(Listing(c, d), agent), h.id))
            && (other != agent ==> ListHeld(after, other) == ListHeld(Listing(c, d), other))
  {
    ResolveLists(c, d, h.id, o, e);
    TakesOne(Listing(c, d), agent, other, h);
  }

  /** What is left of a list after its first `n` targets were dropped. */
  predicate DroppedFrom(held: Backlog, targets: Backlog, env: seq<PatchCalls>, n: nat, after: Backlog) {
    && n <= |targets| == |env|
    && (n < |targets| ==> env[n].record.Cut?)
    && (after == WithoutAll(held, targets[..n]) || (n < |targets| && after == WithoutAll(held, targets[..n + 1])))
  }

  /** Dropping takes the targets off their owner's list in order, up to the first one whose record
      failed, and that one too if its line landed all the same; it keeps everything else. */
  lemma {:induction false} BacklogAfterDrop(c: Codec, d: Disk, agent: string, targets: Backlog, env: seq<PatchCalls>)
    requires Sound(c) && UniqueIds(Listing(c, d)) && |env| == |targets|
    requires UniqueIds(targets) && forall h :: h in targets ==> h in ListHeld(Listing(c, d), agent)
    requires DropIsClean(c, d, targets, env)
    ensures var r := DropHeld(c, d, targets, env);
            DroppedFrom(ListHeld(Listing(c, d), agent), targets, env, r.1, ListHeld(Listing(c, r.0), agent))
    decreases |targets|
  {
    if targets != [] {
      var held := ListHeld(Listing(c, d), agent);
      var next := Do(c, d, Resolve(targets[0].id, Discarded, env[0].record, env[0].bodyGone, env[0].metaGone));
      assert targets[0] in targets;
      DropFirst(c, d, targets, env);
      if env[0].record.Whole? {
        ResolveTakesOne(c, d, agent, agent, targets[0], Discarded, env[0]);
        OthersStay(held, targets);
        BacklogAfterDrop(c, next, agent, targets[1..], env[1..]);
        var rest := DropHeld(c, next, targets[1..], env[1..]);
        DroppedOneMore(held, targets, env, rest.1, ListHeld(Listing(c, rest.0), agent));
      } else {
        CutResolve(c, d, agent, agent, targets[0], Discarded, env[0]);
        DroppedNone(held, targets, env, ListHeld(Listing(c, next), agent));
      }
    }
  }

  /** Which targets went. */
  lemma DroppedPart(held: Backlog, targets: Backlog, env: seq<PatchCalls>, n: nat, after: Backlog) returns (dropped: Backlog)
    requires DroppedFrom(held, targets, env, n, after)
    ensures after == WithoutAll(held, dropped)
  {
    dropped := if after == WithoutAll(held, targets[..n]) then targets[..n] else targets[..n + 1];
  }

  lemma DropFirst(c: Codec, d: Disk, targets: Backlog, env: seq<PatchCalls>)
    requires targets != [] && |env| == |targets|
    ensures var r := DropHeld(c, d, targets, env);
            var next := Do(c, d, Resolve(targets[0].id, Discarded, env[0].record, env[0].bodyGone, env[0].metaGone));
            if env[0].record.Cut? then r == (next, 0)
            else var rest := DropHeld(c, next, targets[1..], env[1..]); r == (rest.0, rest.1 + 1)
  {
  }

  lemma DroppedNone(held: Backlog, targets: Backlog, env: seq<PatchCalls>, after: Backlog)
    requires targets != [] && |env| == |targets| && env[0].record.Cut?
    requires after == held || after == WithoutId(held, targets[0].id)
    ensures DroppedFrom(held, targets, env, 0, after)
  {
    assert targets[..0] == [] && targets[..1][1..] == [];
  }

  lemma DroppedOneMore(held: Backlog, targets: Backlog, env: seq<PatchCalls>, n: nat, after: Backlog)
    requires targets != [] && |env| == |targets| && DroppedFrom(WithoutId(held, targets[0].id), targets[1..], env[1..], n, after)
    ensures DroppedFrom(held, targets, env, n + 1, after)
  {
    assert targets[..n + 1][1..] == targets[1..][..n];
    if n < |targets[1..]| {
      assert targets[..n + 2][1..] == targets[1..][..n + 1];
    }
  }

  lemma OthersStay(held: Backlog, targets: Backlog)
    requires targets != [] && UniqueIds(targets) && forall h :: h in targets ==> h in held
    ensures forall h :: h in targets[1..] ==> h in WithoutId(held, targets[0].id)
  {
    WithoutIdProps(held, targets[0].id);
    forall h | h in targets[1..]
      ensures h.id != targets[0].id && h in targets
    {
      var i :| 0 <= i < |targets[1..]| && targets[1..][i] == h;
      assert targets[i + 1] == h;
    }
  }

  /** A failed record stops the replay, so only the last write can have one, and then it reports it. */
  lemma {:induction false} OnlyTheLastIsCut(c: Codec, d: Disk, held: Backlog, env: seq<PatchCalls>)
    requires |env| == |held|
    ensures var r := ReplayHeld(c, d, held, env);
            && |r.written| <= |held|
            && (r.ok ==> |r.written| == |held|)
            && (r.written != [] && Unrecorded(env[|r.written| - 1]) ==> !r.ok)
    decreases |held|
  {
    if held != [] && held[0].id in d.bodies && env[0].write.Wrote? && env[0].record.Whole? {
      OnlyTheLastIsCut(c, RecordApplied(c, d, held[0], env[0]), held[1..], env[1..]);
    }
  }

  function WithoutAll(b: Backlog, targets: Backlog): Backlog
    decreases |targets|
  {
    if targets == [] then b else WithoutAll(WithoutId(b, targets[0].id), targets[1..])
  }

  lemma {:induction false} WithoutOneCount(b: Backlog, h: HeldSync)
    requires UniqueIds(b) && h in b
    ensures |WithoutId(b, h.id)| == |b| - 1
  {
    if b[0].id == h.id {
      WithoutFirst(b);
    } else {
      assert b == [b[0]] + b[1..];
      WithoutOneCount(b[1..], h);
    }
  }

  /** Each target takes one hold off the list. */
  lemma {:induction false} WithoutAllCount(b: Backlog, targets: Backlog)
    requires UniqueIds(b) && UniqueIds(targets) && forall h :: h in targets ==> h in b
    ensures |WithoutAll(b, targets)| == |b| - |targets|
    decreases |targets|
  {
    if targets != [] {
      assert targets[0] in targets;
      WithoutOneCount(b, targets[0]);
      WithoutIdProps(b, targets[0].id);
      OthersStay(b, targets);
      WithoutAllCount(WithoutId(b, targets[0].id), targets[1..]);
    }
  }

  // ---------------------------------------------------------------------------------------------
  // What a replay tells

  /** The replay goes on to patch `k`. */
  predicate GetsTo(d: Disk, held: Backlog, env: seq<PatchCalls>, k: nat)
    requires |env| == |held|
  {
    && k < |held|
    && forall i :: 0 <= i < k ==> held[i].id in d.bodies && env[i].write.Wrote? && env[i].record.Whole? && env[i].recaptured
  }

  /** It stops there at a missing body, a refusal or a throw. */
  predicate StopsSilently(d: Disk, held: Backlog, env: seq<PatchCalls>, k: nat)
    requires |env| == |held|
  {
    GetsTo(d, held, env, k) && (held[k].id !in d.bodies || !env[k].write.Wrote?)
  }

  /** It writes patch `k` there and finds it diverging. */
  predicate SeesDivergence(d: Disk, held: Backlog, env: seq<PatchCalls>, k: nat)
    requires |env| == |held|
  {
    && GetsTo(d, held, env, k) && held[k].id in d.bodies
    && (env[k].write.Wrote? || env[k].write.ThrewAfter?) && env[k].write.diverged
  }

  /** Recording the first patch touches no later body. */
  lemma LaterBodies(c: Codec, d: Disk, held: Backlog, env: seq<PatchCalls>)
    requires |env| == |held| && held != [] && UniqueIds(held)
    ensures var next := RecordApplied(c, d, held[0], env[0]);
            forall k :: 0 <= k < |held| - 1 ==> (held[1..][k].id in next.bodies <==> held[k + 1].id in d.bodies)
  {
  }

  /** One patch further on. */
  lemma GetsOn(c: Codec, d: Disk, held: Backlog, env: seq<PatchCalls>, k: nat)
    requires |env| == |held| && held != [] && UniqueIds(held) && held[0].id in d.bodies
    requires env[0].write.Wrote? && env[0].record.Whole? && env[0].recaptured
    ensures var next := RecordApplied(c, d, held[0], env[0]);
            && (GetsTo(next, held[1..], env[1..], k) <==> GetsTo(d, held, env, k + 1))
            && (StopsSilently(next, held[1..], env[1..], k) <==> StopsSilently(d, held, env, k + 1))
            && (SeesDivergence(next, held[1..], env[1..], k) <==> SeesDivergence(d, held, env, k + 1))
  {
    LaterBodies(c, d, held, env);
    assert forall i :: 1 <= i < |held| ==> held[i] == held[1..][i - 1] && env[i] == env[1..][i - 1];
  }

  /** How a replay ends: whether it passes on what it saw, and what it saw. */
  lemma {:induction false} ReplayEnds(c: Codec, d: Disk, held: Backlog, env: seq<PatchCalls>)
    requires |env| == |held| && UniqueIds(held)
    ensures var r := ReplayHeld(c, d, held, env);
            && (r.tells <==> forall k: nat :: !StopsSilently(d, held, env, k))
            && (r.diverged == [] <==> forall k: nat :: !SeesDivergence(d, held, env, k))
    decreases |held|
  {
    if held != [] {
      var first := held[0].id in d.bodies && env[0].write.Wrote?;
      assert StopsSilently(d, held, env, 0) <==> !first;
      assert SeesDivergence(d, held, env, 0) <==> held[0].id in d.bodies && Marks(held[0], env[0].write) != [];
      if first && env[0].record.Whole? && env[0].recaptured {
        var next := RecordApplied(c, d, held[0], env[0]);
        ReplayEnds(c, next, held[1..], env[1..]);
        EndsOneOn(c, d, held, env);
      } else {
        assert forall k: nat :: k > 0 ==> !GetsTo(d, held, env, k);
      }
    }
  }

  lemma EndsOneOn(c: Codec, d: Disk, held: Backlog, env: seq<PatchCalls>)
    requires |env| == |held| && held != [] && UniqueIds(held) && held[0].id in d.bodies
    requires env[0].write.Wrote? && env[0].record.Whole? && env[0].recaptured
    ensures var next := RecordApplied(c, d, held[0], env[0]);
            && ((forall k: nat :: !StopsSilently(next, held[1..], env[1..], k)) <==> (forall k: nat :: !StopsSilently(d, held, env, k)))
            && ((forall k: nat :: !SeesDivergence(next, held[1..], env[1..], k))
                <==> (forall k: nat :: k > 0 ==> !SeesDivergence(d, held, env, k)))
  {
    var next := RecordApplied(c, d, held[0], env[0]);
    forall k: nat
      ensures StopsSilently(next, held[1..], env[1..], k) <==> StopsSilently(d, held, env, k + 1)
      ensures SeesDivergence(next, held[1..], env[1..], k) <==> SeesDivergence(d, held, env, k + 1)
    {
      GetsOn(c, d, held, env, k);
    }
    forall k: nat | k > 0
      ensures StopsSilently(next, held[1..], env[1..], k - 1) <==> StopsSilently(d, held, env, k)
      ensures SeesDivergence(next, held[1..], env[1..], k - 1) <==> SeesDivergence(d, held, env, k)
    {
      GetsOn(c, d, held, env, k - 1);
    }
  }

  /** Every detected divergence is reported if and only if none was detected by the time the replay stopped at
      a missing body, a refusal or a throw. */
  lemma DivergencesReportedIff(c: Codec, d: Disk, held: Backlog, env: seq<PatchCalls>)
    requires |env| == |held| && UniqueIds(held)
    ensures var r := ReplayHeld(c, d, held, env);
            r.Reported() == r.diverged
            <==> ((exists k: nat :: StopsSilently(d, held, env, k)) ==> forall k: nat :: !SeesDivergence(d, held, env, k))
  {
    ReplayEnds(c, d, held, env);
  }

  /** For instance: the first patch is written and diverges, the second is refused. */
  lemma DivergenceIsLost(c: Codec, d: Disk, g: HeldSync, h: HeldSync, tailRead: bool)
    requires g.id != h.id && g.id in d.bodies
    ensures var env := [PatchCalls(Wrote(true), Whole(tailRead), true, true, true),
                        PatchCalls(Refused, Whole(tailRead), true, true, true)];
            var r := ReplayHeld(c, d, [g, h], env);
            r.written == [d.bodies[g.id]] && r.diverged == [g.turn] && r.Reported() == []
  {
    var env := [PatchCalls(Wrote(true), Whole(tailRead), true, true, true),
                PatchCalls(Refused, Whole(tailRead), true, true, true)];
    assert [g, h][1..] == [h] && env[1..] == [env[1]];
    var next := RecordApplied(c, d, g, env[0]);
    assert ReplayHeld(c, next, [h], [env[1]]) == Replayed(next, [], [], false, false, false);
  }

  // ---------------------------------------------------------------------------------------------
  // How far a replay and a discard get

  /** It writes patch `k`. */
  predicate WritesAt(d: Disk, held: Backlog, env: seq<PatchCalls>, k: nat)
    requires |env| == |held|
  {
    GetsTo(d, held, env, k) && held[k].id in d.bodies && (env[k].write.Wrote? || env[k].write.ThrewAfter?)
  }

  predicate ThrowsAt(d: Disk, held: Backlog, env: seq<PatchCalls>, k: nat)
    requires |env| == |held|
  {
    GetsTo(d, held, env, k) && held[k].id in d.bodies && env[k].write.Threw()
  }

  /** Every patch is there, written and recorded, and the checkout is captured again before each next one. */
  predicate AllGo(d: Disk, held: Backlog, env: seq<PatchCalls>)
    requires |env| == |held|
  {
    forall k :: 0 <= k < |held| ==>
      && held[k].id in d.bodies && env[k].write.Wrote? && env[k].record.Whole?
      && (k + 1 < |held| ==> env[k].recaptured)
  }

  lemma GetsOnFurther(c: Codec, d: Disk, held: Backlog, env: seq<PatchCalls>, k: nat)
    requires |env| == |held| && held != [] && UniqueIds(held) && held[0].id in d.bodies
    requires env[0].write.Wrote? && env[0].record.Whole? && env[0].recaptured
    ensures var next := RecordApplied(c, d, held[0], env[0]);
            && (WritesAt(next, held[1..], env[1..], k) <==> WritesAt(d, held, env, k + 1))
            && (ThrowsAt(next, held[1..], env[1..], k) <==> ThrowsAt(d, held, env, k + 1))
  {
    GetsOn(c, d, held, env, k);
    LaterBodies(c, d, held, env);
  }

  lemma AllGoOn(c: Codec, d: Disk, held: Backlog, env: seq<PatchCalls>)
    requires |env| == |held| && held != [] && UniqueIds(held) && held[0].id in d.bodies
    requires env[0].write.Wrote? && env[0].record.Whole? && (|held| > 1 ==> env[0].recaptured)
    ensures AllGo(RecordApplied(c, d, held[0], env[0]), held[1..], env[1..]) <==> AllGo(d, held, env)
  {
    LaterBodies(c, d, held, env);
    var next := RecordApplied(c, d, held[0], env[0]);
    assert forall i :: 1 <= i < |held| ==> held[i] == held[1..][i - 1] && env[i] == env[1..][i - 1];
    if AllGo(next, held[1..], env[1..]) {
      forall k | 0 <= k < |held|
        ensures held[k].id in d.bodies && env[k].write.Wrote? && env[k].record.Whole? && (k + 1 < |held| ==> env[k].recaptured)
      {
        if k > 0 {
          assert held[1..][k - 1].id in next.bodies;
        }
      }
    }
  }

  /** Exactly how far a replay gets: patch `k` is written if and only if it is reached, which takes each earlier
      one to be written, recorded and followed by a capture, its body is there and the write does not fail; the
      replay reports success if and only if that is so of all, and throws if and only if a reached patch does. */
  lemma {:induction false} ReplayGetsTo(c: Codec, d: Disk, held: Backlog, env: seq<PatchCalls>)
    requires |env| == |held| && UniqueIds(held)
    ensures var r := ReplayHeld(c, d, held, env);
            && (forall k: nat :: k < |r.written| <==> WritesAt(d, held, env, k))
            && (r.threw <==> exists k: nat :: ThrowsAt(d, held, env, k))
            && (r.ok <==> AllGo(d, held, env))
    decreases |held|
  {
    if held != [] {
      var r := ReplayHeld(c, d, held, env);
      assert WritesAt(d, held, env, 0) <==> held[0].id in d.bodies && (env[0].write.Wrote? || env[0].write.ThrewAfter?);
      assert ThrowsAt(d, held, env, 0) <==> held[0].id in d.bodies && env[0].write.Threw();
      if held[0].id in d.bodies && env[0].write.Wrote? && env[0].record.Whole? && (|held| > 1 ==> env[0].recaptured) {
        var next := RecordApplied(c, d, held[0], env[0]);
        var rest := ReplayHeld(c, next, held[1..], env[1..]);
        ReplayGetsTo(c, next, held[1..], env[1..]);
        AllGoOn(c, d, held, env);
        if env[0].recaptured {
          GetsToLater(c, d, held, env, r, rest);
        } else {
          assert forall k: nat :: !GetsTo(next, held[1..], env[1..], k);
          assert forall k: nat :: k > 0 ==> !GetsTo(d, held, env, k);
        }
      } else {
        assert forall k: nat :: k > 0 ==> !GetsTo(d, held, env, k);
      }
    }
  }

  lemma GetsToLater(c: Codec, d: Disk, held: Backlog, env: seq<PatchCalls>, r: Replayed, rest: Replayed)
    requires |env| == |held| && held != [] && UniqueIds(held) && held[0].id in d.bodies
    requires env[0].write.Wrote? && env[0].record.Whole? && env[0].recaptured
    requires |r.written| == |rest.written| + 1 && r.threw == rest.threw
    requires var next := RecordApplied(c, d, held[0], env[0]);
             && (forall k: nat :: k < |rest.written| <==> WritesAt(next, held[1..], env[1..], k))
             && (rest.threw <==> exists k: nat :: ThrowsAt(next, held[1..], env[1..], k))
    ensures forall k: nat :: k < |r.written| <==> WritesAt(d, held, env, k)
    ensures r.threw <==> exists k: nat :: ThrowsAt(d, held, env, k)
  {
    var next := RecordApplied(c, d, held[0], env[0]);
    forall k: nat
      ensures k < |r.written| <==> WritesAt(d, held, env, k)
      ensures k > 0 ==> (ThrowsAt(d, held, env, k) <==> ThrowsAt(next, held[1..], env[1..], k - 1))
    {
      if k > 0 {
        GetsOnFurther(c, d, held, env, k - 1);
      }
    }
    if k: nat :| ThrowsAt(next, held[1..], env[1..], k) {
      GetsOnFurther(c, d, held, env, k);
    }
  }

  /** The resolve lines of these holds. */
  function Resolves(b: Backlog, o: Outcome): seq<Event> {
    if b == [] then [] else [Resolved(b[0].id, o)] + Resolves(b[1..], o)
  }

  lemma ResolvesFirst(b: Backlog, n: nat, o: Outcome)
    requires n < |b|
    ensures Resolves(b[..n + 1], o) == [Resolved(b[0].id, o)] + Resolves(b[1..][..n], o)
    ensures b[..0] == [] && Resolves(b[..1], o) == [Resolved(b[0].id, o)]
  {
    assert b[..n + 1][0] == b[0] && b[..n + 1][1..] == b[1..][..n];
    assert b[..1][0] == b[0] && b[..1][1..] == [];
  }

  /** What the ledger says afterwards: the written patches were applied, in order, but for the last one if its
      record did not land. */
  lemma {:induction false} ReplayRecords(c: Codec, d: Disk, held: Backlog, env: seq<PatchCalls>) returns (n: nat)
    requires Sound(c) && |env| == |held| && ReplayIsClean(c, d, held, env)
    ensures var r := ReplayHeld(c, d, held, env);
            && n <= |r.written| <= |held| && |r.written| <= n + 1
            && (n < |r.written| ==> Unrecorded(env[n]))
            && Events(c, r.disk.ledger) == Events(c, d.ledger) + Resolves(held[..n], Applied)
    decreases |held|
  {
    n := 0;
    assert Events(c, d.ledger) + [] == Events(c, d.ledger) && held[..0] == [];
    if held != [] && held[0].id in d.bodies && env[0].write.Wrote? {
      var e, next := Resolved(held[0].id, Applied), RecordApplied(c, d, held[0], env[0]);
      AppendEvents(c, d, e, env[0].record);
      ResolvesFirst(held, 0, Applied);
      if GoesOn(held, env) {
        n := ReplayRecords(c, next, held[1..], env[1..]);
        ResolvesFirst(held, n, Applied);
        Regroup(Events(c, d.ledger), [e], Resolves(held[1..][..n], Applied));
        n := n + 1;
      } else if Lands(c, d, e, env[0].record) {
        n := 1;
      }
    }
  }

  /** A discard drops its targets in order as far as recording them works, and says so in the ledger. */
  lemma {:induction false} DropRecords(c: Codec, d: Disk, targets: Backlog, env: seq<PatchCalls>) returns (n: nat)
    requires Sound(c) && |env| == |targets| && DropIsClean(c, d, targets, env)
    ensures var r := DropHeld(c, d, targets, env);
            && r.1 <= n <= |targets| && n <= r.1 + 1
            && Events(c, r.0.ledger) == Events(c, d.ledger) + Resolves(targets[..n], Discarded)
            && (forall i :: 0 <= i < r.1 ==> env[i].record.Whole?) && (r.1 < |targets| ==> env[r.1].record.Cut?)
    decreases |targets|
  {
    n := 0;
    assert Events(c, d.ledger) + [] == Events(c, d.ledger) && targets[..0] == [];
    if targets != [] {
      var e := Resolved(targets[0].id, Discarded);
      var next := Do(c, d, Resolve(targets[0].id, Discarded, env[0].record, env[0].bodyGone, env[0].metaGone));
      AppendEvents(c, d, e, env[0].record);
      ResolvesFirst(targets, 0, Discarded);
      if env[0].record.Whole? {
        n := DropRecords(c, next, targets[1..], env[1..]);
        ResolvesFirst(targets, n, Discarded);
        Regroup(Events(c, d.ledger), [e], Resolves(targets[1..][..n], Discarded));
        n := n + 1;
      } else if Lands(c, d, e, env[0].record) {
        n := 1;
      }
    }
  }

  lemma {:induction false} DropsAllIff(c: Codec, d: Disk, targets: Backlog, env: seq<PatchCalls>)
    requires |env| == |targets|
    ensures DropHeld(c, d, targets, env).1 <= |targets|
    ensures DropHeld(c, d, targets, env).1 == |targets| <==> forall e :: e in env ==> e.record.Whole?
    decreases |targets|
  {
    if targets != [] {
      assert env == [env[0]] + env[1..];
      DropsAllIff(c, Do(c, d, Resolve(targets[0].id, Discarded, env[0].record, env[0].bodyGone, env[0].metaGone)),
                  targets[1..], env[1..]);
    }
  }

  /** A discard without a name drops everything, one with a name that hold alone, and nothing if it is not on
      the list. */
  lemma {:induction false} TargetsAre(held: Backlog, patchId: Option<HoldId>)
    requires UniqueIds(held)
    ensures patchId.None? ==> Targets(held, patchId) == held
    ensures patchId.Some? ==> forall h :: h in held && h.id == patchId.value ==> Targets(held, patchId) == [h]
    ensures patchId.Some? && !HasId(held, patchId.value) ==> Targets(held, patchId) == []
  {
    if held != [] && patchId.Some? {
      assert held == [held[0]] + held[1..] && held[0] in held;
      TargetsAre(held[1..], patchId);
      WithoutFirst(held);
      WithoutIdProps(held, held[0].id);
    }
  }

  // ---------------------------------------------------------------------------------------------
  // The affordances, carried out on the store

  datatype ApplyHeldResult = ApplyHeldResult(ok: bool, applied: nat, remaining: nat, diverged: seq<nat>)

  /** The replay loop. */
  method ReplayAll(store: HeldSyncStore, held: Backlog, env: seq<PatchCalls>)
    returns (ok: bool, written: seq<string>, diverged: seq<nat>, tells: bool, threw: bool)
    requires |env| == |held|
    modifies store
    ensures Replayed(store.View(), written, diverged, ok, tells, threw) == ReplayHeld(store.codec, old(store.View()), held, env)
  {
    written, diverged, tells, threw := [], [], true, false;
    ghost var goal := ReplayHeld(store.codec, store.View(), held, env);
    for i := 0 to |held|
      invariant goal == Extend(written, diverged, ReplayHeld(store.codec, store.View(), held[i..], env[i..]))
    {
      var h, e := held[i], env[i];
      ReplayUnfold(store.codec, store.View(), held, env, i);
      ghost var rest := ReplayHeld(store.codec, RecordApplied(store.codec, store.View(), h, e), held[i + 1..], env[i + 1..]);
      if h.id !in store.bodies || e.write.Refused? {
        return false, written, diverged, false, false;
      }
      ghost var before, marks := written, diverged;
      var body := store.bodies[h.id];
      var div := Marks(h, e.write);
      if e.write.Threw() {
        return false, if e.write.ThrewAfter? then written + [body] else written, diverged + div, false, true;
      }
      written := written + [body];
      diverged := diverged + div;
      var recorded := store.ResolveHold(h.id, Applied, e.record, e.bodyGone, e.metaGone);
      if !recorded || (i + 1 < |held| && !e.recaptured) {
        return false, written, diverged, true, false;
      }
      ExtendTwice(before, marks, [body], div, rest);
    }
    ok := true;
  }

  /** `None` is a thrown error: an unreadable ledger, or a patch whose apply threw. */
  method ApplyHeldNow(store: HeldSyncStore, agent: string, captured: bool, readable: bool, env: seq<PatchCalls>)
    returns (r: Option<ApplyHeldResult>, written: seq<string>)
    requires |env| == |ListHeld(Listing(store.codec, store.View()), agent)|
    modifies store
    ensures !readable ==> r.None?
    ensures !readable || !captured ==> store.View() == old(store.View()) && written == []
    ensures readable && !captured ==> r == Some(ApplyHeldResult(false, 0, |env|, []))
    ensures readable && captured ==>
              var held := ListHeld(Listing(store.codec, old(store.View())), agent);
              var replayed := ReplayHeld(store.codec, old(store.View()), held, env);
              && store.View() == replayed.disk && written == replayed.written && |written| <= |held|
              && r == if replayed.threw then None
                      else Some(ApplyHeldResult(replayed.ok, |written|, |held| - |written|, replayed.Reported()))
  {
    var all := store.ListAllHeld(readable);
    if all.None? {
      return None, [];
    }
    var held := ListHeld(all.value, agent);
    if !captured {
      return Some(ApplyHeldResult(false, 0, |held|, [])), [];
    }
    ReplayIsBounded(store.codec, store.View(), held, env);
    var ok, patches, diverged, tells, threw := ReplayAll(store, held, env);
    if threw {
      return None, patches;
    }
    r, written := Some(ApplyHeldResult(ok, |patches|, |held| - |patches|, if tells then diverged else [])), patches;
  }

  lemma {:induction false} ReplayIsBounded(c: Codec, d: Disk, held: Backlog, env: seq<PatchCalls>)
    requires |env| == |held|
    ensures |ReplayHeld(c, d, held, env).written| <= |held|
    decreases |held|
  {
    if held != [] {
      ReplayIsBounded(c, RecordApplied(c, d, held[0], env[0]), held[1..], env[1..]);
    }
  }

  method DiscardHeldNow(store: HeldSyncStore, agent: string, patchId: Option<HoldId>, readable: bool, env: seq<PatchCalls>)
    returns (r: Option<(bool, nat, nat)>)
    requires |env| == |Targets(ListHeld(Listing(store.codec, store.View()), agent), patchId)|
    modifies store
    ensures r.None? <==> !readable
    ensures readable ==>
              var held := ListHeld(Listing(store.codec, old(store.View())), agent);
              var targets := Targets(held, patchId);
              var e := DropHeld(store.codec, old(store.View()), targets, env);
              && store.View() == e.0
              && r.value.1 == e.1
              && r.value.2 as int == |held| - e.1
              && (r.value.0 <==> held == [] || (targets != [] && e.1 == |targets|))
    ensures !readable ==> store.View() == old(store.View())
  {
    var all := store.ListAllHeld(readable);
    if all.None? {
      return None;
    }
    var held := ListHeld(all.value, agent);
    var targets := Targets(held, patchId);
    TargetsAreFewer(held, patchId);
    ghost var goal := DropHeld(store.codec, store.View(), targets, env);
    for i := 0 to |targets|
      invariant goal.0 == DropHeld(store.codec, store.View(), targets[i..], env[i..]).0
      invariant goal.1 == i + DropHeld(store.codec, store.View(), targets[i..], env[i..]).1
    {
      assert targets[i..][0] == targets[i] && env[i..][0] == env[i];
      assert targets[i..][1..] == targets[i + 1..] && env[i..][1..] == env[i + 1..];
      var e := env[i];
      var recorded := store.ResolveHold(targets[i].id, Discarded, e.record, e.bodyGone, e.metaGone);
      if !recorded {
        return Some((false, i, |held| - i));
      }
    }
    r := Some((held == [] || targets != [], |targets|, |held| - |targets|));
  }

  /** The whole list, or the one hold named. */
  function Targets(held: Backlog, patchId: Option<HoldId>): Backlog {
    match patchId
    case None => held
    case Some(id) => OnlyId(held, id)
  }

  function OnlyId(b: Backlog, id: HoldId): Backlog {
    if b == [] then [] else (if b[0].id == id then [b[0]] else []) + OnlyId(b[1..], id)
  }

  lemma {:induction false} TargetsAreFewer(b: Backlog, patchId: Option<HoldId>)
    ensures |Targets(b, patchId)| <= |b|
    ensures b == [] ==> Targets(b, patchId) == []
  {
    if b != [] && patchId.Some? {
      TargetsAreFewer(b[1..], patchId);
    }
  }

  lemma {:induction false} TargetsAreHeld(b: Backlog, patchId: Option<HoldId>)
    requires UniqueIds(b)
    ensures UniqueIds(Targets(b, patchId)) && forall h :: h in Targets(b, patchId) ==> h in b
  {
    if b != [] && patchId.Some? {
      TargetsAreHeld(b[1..], patchId);
      assert b == [b[0]] + b[1..];
      forall h | h in OnlyId(b[1..], patchId.value)
        ensures h.id != b[0].id
      {
        var i :| 0 <= i < |b[1..]| && b[1..][i] == h;
        assert b[i + 1] == h;
      }
    }
  }

  lemma ExtendTwice(w: seq<string>, v: seq<nat>, w': seq<string>, v': seq<nat>, r: Replayed)
    ensures Extend(w, v, Extend(w', v', r)) == Extend(w + w', v + v', r)
  {
    assert w + (w' + r.written) == w + w' + r.written;
    assert v + (v' + r.diverged) == v + v' + r.diverged;
  }

  ghost function Extend(written: seq<string>, diverged: seq<nat>, r: Replayed): Replayed {
    Replayed(r.disk, written + r.written, diverged + r.diverged, r.ok, r.tells, r.threw)
  }

  lemma ReplayUnfold(c: Codec, d: Disk, held: Backlog, env: seq<PatchCalls>, i: nat)
    requires |env| == |held| && i < |held|
    ensures ReplayHeld(c, d, held[i..], env[i..])
            == var h, e := held[i], env[i];
               if h.id !in d.bodies || e.write.Refused? then Replayed(d, [], [], false, false, false)
               else if e.write.Threw() then
                 Replayed(d, if e.write.ThrewAfter? then [d.bodies[h.id]] else [], Marks(h, e.write), false, false, true)
               else
                 var next, body, div := RecordApplied(c, d, h, e), d.bodies[h.id], Marks(h, e.write);
                 if e.record.Cut? || (i + 1 < |held| && !e.recaptured) then Replayed(next, [body], div, false, true, false)
                 else Extend([body], div, ReplayHeld(c, next, held[i + 1..], env[i + 1..]))
  {
    assert held[i..][0] == held[i] && env[i..][0] == env[i];
    assert held[i..][1..] == held[i + 1..] && env[i..][1..] == env[i + 1..];
  }
}
