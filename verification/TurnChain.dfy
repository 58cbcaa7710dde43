/**
 The turn chain of one `here` session: what each turn end does with the turn's patch, how the end tree
 moves or deliberately stays put, and which attention rows stand.  A patch is seen as the pair of
 worktree trees it leads between; a diff is empty exactly when the two trees are equal.
 */
module TurnChain {
  import opened Wrappers

  type Tree = string
  type Fingerprint = string

  /** What turn start established; a failed capture is recorded, never defaulted. */
  datatype Start = Start(tree: Option<Tree>, finger: Option<Fingerprint>)

  datatype WriteCall = Refused | Wrote(diverged: bool)

  /** The store's answer to a hold: listed; nothing durable; or the body saved while the ledger append
      threw, with or without its line having landed. */
  datatype HoldCall = Listed | NotWritten | Untracked(landed: bool)

  datatype Throw = NoThrow | BeforeWrite | AfterWrite

  /** The outcome of every call a turn end makes. */
  datatype EndCalls = EndCalls(endTree: Option<Tree>, diffOk: bool, finger: Option<Fingerprint>,
                               write: WriteCall, threw: Throw, hold: HoldCall)

  datatype SyncOutcome = NoopTurn(end: Tree) | AppliedTurn(end: Tree, diverged: bool) | HeldTurn(end: Tree, tracked: bool) | Uncapturable

  /** The outcome, and whether the patch was written to the checkout and listed in the ledger. */
  datatype Decision = Decision(outcome: SyncOutcome, wrote: bool, listed: bool)

  function HoldTurn(end: Tree, wrote: bool, hold: HoldCall): Decision {
    match hold
    case Listed => Decision(HeldTurn(end, true), wrote, true)
    case Untracked(landed) => Decision(HeldTurn(end, false), wrote, landed)
    case NotWritten => Decision(Uncapturable, wrote, false)
  }

  /** The turn-end decision. */
  function SyncTurnEnd(start: Start, backlog: nat, e: EndCalls): Decision {
    if start.tree.None? || e.endTree.None? then Decision(Uncapturable, false, false)
    else if start.tree == e.endTree then Decision(NoopTurn(e.endTree.value), false, false)
    else if !e.diffOk then Decision(Uncapturable, false, false)
    else
      var end := e.endTree.value;
      if e.threw.BeforeWrite? || backlog > 0 then HoldTurn(end, false, e.hold)
      else if start.finger.None? || e.finger.None? || start.finger != e.finger then HoldTurn(end, false, e.hold)
      else if e.write.Refused? then HoldTurn(end, false, e.hold)
      else if e.threw.AfterWrite? then HoldTurn(end, true, e.hold)
      else Decision(AppliedTurn(end, e.write.diverged), true, false)
  }

  /** One turn's patch that reached the checkout, the ledger, or both. */
  datatype Delta = Delta(from: Tree, to: Tree, turn: nat, written: bool, waiting: bool, dropped: bool)

  datatype Row = HeldRow | UncapturableRow | DivergenceRow

  /** The session slice of the lane, with the patches it has produced in order. */
  datatype Session = Session(turn: nat, start: Option<Start>, endTree: Option<Tree>, deltas: seq<Delta>, rows: set<Row>)

  const FRESH := Session(0, None, None, [], {})

  function Waiting(ds: seq<Delta>): nat {
    if ds == [] then 0 else (if ds[0].waiting then 1 else 0) + Waiting(ds[1..])
  }

  datatype Event =
    | TurnStart(live: Option<Tree>, finger: Option<Fingerprint>)
    | TurnEnd(calls: EndCalls)
      // the first `n` waiting patches are written; recording the last of them may fail, landed or not;
      // `diverged`: the report names a divergence
    | ApplyHeld(n: nat, ok: bool, failedRecord: Option<bool>, diverged: bool)
      // the waiting patches of these turns are dropped, and so many are reported as remaining; not ok when
      // recording one of them failed, none was named, or the ledger could not be read
    | Discard(turns: set<nat>, ok: bool, remaining: nat)
    | AckDivergence

  function StartTurn(s: Session, live: Option<Tree>, finger: Option<Fingerprint>): Session {
    s.(turn := s.turn + 1, start := Some(Start(if s.endTree.Some? then s.endTree else live, finger)))
  }

  predicate Captured(o: SyncOutcome) {
    o.NoopTurn? || o.AppliedTurn? || (o.HeldTurn? && o.tracked)
  }

  function RowsAfter(rows: set<Row>, o: SyncOutcome, spanned: bool): set<Row> {
    var cleared := if spanned then rows - {UncapturableRow} else rows;
    match o
    case NoopTurn(_) => cleared
    case AppliedTurn(_, diverged) => cleared - {HeldRow} + if diverged then {DivergenceRow} else {}
    case HeldTurn(_, tracked) => cleared + if tracked then {HeldRow} else {UncapturableRow}
    case Uncapturable => rows + {UncapturableRow}
  }

  predicate Spans(s: Session, start: Start) {
    start.tree.Some? && s.endTree.Some? && start.tree == s.endTree
  }

  function EndTurn(s: Session, e: EndCalls): Session {
    if s.start.None? then s
    else
      var start := s.start.value;
      var d := SyncTurnEnd(start, Waiting(s.deltas), e);
      s.(start := None,
         endTree := if Captured(d.outcome) then Some(d.outcome.end) else s.endTree,
         deltas := s.deltas + if d.wrote || d.listed
                              then [Delta(start.tree.value, e.endTree.value, s.turn, d.wrote, d.listed, false)] else [],
         rows := RowsAfter(s.rows, d.outcome, Spans(s, start)))
  }

  /** Writes the first `n` waiting patches; the last one stays listed when recording it failed. */
  function MarkWritten(ds: seq<Delta>, n: nat, failedRecord: Option<bool>): seq<Delta> {
    if ds == [] || n == 0 then ds
    else if !ds[0].waiting then [ds[0]] + MarkWritten(ds[1..], n, failedRecord)
    else [ds[0].(written := true, waiting := n == 1 && failedRecord == Some(false))] + MarkWritten(ds[1..], n - 1, failedRecord)
  }

  function ReplayBacklog(s: Session, n: nat, ok: bool, failedRecord: Option<bool>, diverged: bool): Session {
    var rows := if ok then s.rows - {HeldRow} else s.rows + {HeldRow};
    s.(deltas := MarkWritten(s.deltas, n, failedRecord), rows := rows + if diverged then {DivergenceRow} else {})
  }

  function Drop(d: Delta): Delta {
    if d.waiting then d.(waiting := false, dropped := true) else d
  }

  function DropTurns(ds: seq<Delta>, turns: set<nat>): seq<Delta> {
    if ds == [] then [] else [if ds[0].turn in turns then Drop(ds[0]) else ds[0]] + DropTurns(ds[1..], turns)
  }

  /** The report decides the row; one that counts nothing and is not ok leaves it as it is. */
  function DropHeld(s: Session, turns: set<nat>, ok: bool, remaining: nat): Session {
    s.(deltas := DropTurns(s.deltas, turns),
       rows := if ok && remaining == 0 then s.rows - {HeldRow} else if remaining > 0 then s.rows + {HeldRow} else s.rows)
  }

  function Step(s: Session, e: Event): Session {
    match e
    case TurnStart(live, finger) => StartTurn(s, live, finger)
    case TurnEnd(calls) => EndTurn(s, calls)
    case ApplyHeld(n, ok, failedRecord, diverged) => ReplayBacklog(s, n, ok, failedRecord, diverged)
    case Discard(turns, ok, remaining) => DropHeld(s, turns, ok, remaining)
    case AckDivergence => s.(rows := s.rows - {DivergenceRow})
  }

  /** A replay writes no more than what waits, and reports success only when all of it was written and
      recorded; a discard that reports success counts what still waits. */
  predicate Possible(s: Session, e: Event) {
    && (e.ApplyHeld? ==>
          && e.n <= Waiting(s.deltas)
          && (e.ok ==> e.n == Waiting(s.deltas) && e.failedRecord.None?)
          && (e.failedRecord.Some? ==> e.n > 0))
    && (e.Discard? && e.ok ==> e.remaining == Waiting(DropTurns(s.deltas, e.turns)))
  }

  /** A turn end keeps track of its own effect: what it wrote or listed moves the end tree. */
  predicate KeepsTrack(s: Session, e: Event) {
    e.TurnEnd? && s.start.Some? ==>
      var d := SyncTurnEnd(s.start.value, Waiting(s.deltas), e.calls);
      (d.wrote || d.listed) ==> Captured(d.outcome)
  }

  predicate AllTracked(s: Session, es: seq<Event>)
    decreases |es|
  {
    es == [] || (KeepsTrack(s, es[0]) && AllTracked(Step(s, es[0]), es[1..]))
  }

  ghost predicate Runs(s: Session, es: seq<Event>, t: Session)
    decreases |es|
  {
    if es == [] then s == t else Possible(s, es[0]) && Runs(Step(s, es[0]), es[1..], t)
  }

  // ---------------------------------------------------------------------------------------------
  // Conservation

  /** The patches lead from one tree to another without a gap. */
  predicate Chained(ds: seq<Delta>, from: Tree, to: Tree) {
    if ds == [] then from == to else ds[0].from == from && Chained(ds[1..], ds[0].to, to)
  }

  /** No patch is in the checkout ahead of an older one that still waits. */
  predicate InOrder(ds: seq<Delta>) {
    forall i, j :: 0 <= i < j < |ds| && ds[i].waiting ==> !ds[j].written
  }

  predicate Accounted(ds: seq<Delta>) {
    forall i :: 0 <= i < |ds| ==> ds[i].written || ds[i].waiting || ds[i].dropped
  }

  /** Turn labels follow execution order. */
  predicate Labelled(s: Session) {
    && (forall i, j :: 0 <= i < j < |s.deltas| ==> s.deltas[i].turn < s.deltas[j].turn)
    && (forall i :: 0 <= i < |s.deltas| ==> s.deltas[i].turn <= s.turn && (s.start.Some? ==> s.deltas[i].turn < s.turn))
  }

  ghost predicate Gapless(s: Session, origin: Tree) {
    && (s.endTree.None? ==> s.deltas == [])
    && (s.endTree.Some? ==> Chained(s.deltas, origin, s.endTree.value))
    && (s.start.Some? && s.endTree.Some? ==> s.start.value.tree == s.endTree)
  }

  /** What every step keeps, whatever goes wrong. */
  ghost predicate Orderly(s: Session) {
    InOrder(s.deltas) && Accounted(s.deltas) && Labelled(s)
  }

  ghost predicate Inv(s: Session, origin: Tree) {
    Gapless(s, origin) && Orderly(s) && (Waiting(s.deltas) > 0 ==> HeldRow in s.rows)
  }

  /** The trees a captured turn leads between. */
  datatype Span = Span(from: Tree, to: Tree, turn: nat)

  function SpanOf(s: Session, e: Event): seq<Span> {
    if !e.TurnEnd? || s.start.None? then []
    else
      var d := SyncTurnEnd(s.start.value, Waiting(s.deltas), e.calls);
      if Captured(d.outcome) then [Span(s.start.value.tree.value, d.outcome.end, s.turn)] else []
  }

  /** The captured turns of a run, in order. */
  function CapturedSpans(s: Session, es: seq<Event>): seq<Span>
    decreases |es|
  {
    if es == [] then [] else SpanOf(s, es[0]) + CapturedSpans(Step(s, es[0]), es[1..])
  }

  /** Where the chain starts: it is fixed once there is an end tree, and before that by the start tree of
      the first captured turn. */
  function FirstFrom(s: Session, spans: seq<Span>, origin: Tree): Tree {
    if s.endTree.Some? || spans == [] then origin else spans[0].from
  }

  function Baseline(s: Session, e: Event, origin: Tree): Tree {
    FirstFrom(s, SpanOf(s, e), origin)
  }

  lemma {:induction false} ChainedAppend(ds: seq<Delta>, from: Tree, d: Delta)
    requires Chained(ds, from, d.from)
    ensures Chained(ds + [d], from, d.to)
  {
    if ds == [] {
      assert ds + [d] == [d];
    } else {
      ChainedAppend(ds[1..], ds[0].to, d);
      assert (ds + [d])[1..] == ds[1..] + [d];
    }
  }

  /** Marking patches written or dropped moves none of them. */
  lemma {:induction false} ChainedAlike(ds: seq<Delta>, es: seq<Delta>, from: Tree, to: Tree)
    requires |ds| == |es| && Chained(ds, from, to)
    requires forall i :: 0 <= i < |ds| ==> es[i].from == ds[i].from && es[i].to == ds[i].to
    ensures Chained(es, from, to)
  {
    if ds != [] {
      ChainedAlike(ds[1..], es[1..], ds[0].to, to);
    }
  }

  lemma {:induction false} WaitingZero(ds: seq<Delta>)
    ensures Waiting(ds) == 0 <==> forall i :: 0 <= i < |ds| ==> !ds[i].waiting
  {
    if ds != [] {
      WaitingZero(ds[1..]);
      assert forall i :: 1 <= i < |ds| ==> ds[i] == ds[1..][i - 1];
      assert forall i :: 0 <= i < |ds[1..]| ==> ds[1..][i] == ds[i + 1];
    }
  }

  /** A replay leaves every patch in place, writes a prefix of what waited, and leaves at most one
      written patch listed. */
  lemma {:induction false} MarkWrittenProps(ds: seq<Delta>, n: nat, f: Option<bool>)
    ensures var es := MarkWritten(ds, n, f);
            && |es| == |ds|
            && (forall i :: 0 <= i < |ds| ==>
                  && es[i].(written := ds[i].written, waiting := ds[i].waiting) == ds[i]
                  && (es[i].waiting ==> ds[i].waiting)
                  && (ds[i].written ==> es[i].written)
                  && (!ds[i].waiting ==> es[i] == ds[i])
                  && (ds[i].waiting ==> es[i].waiting || es[i].written))
            && (forall i, j :: 0 <= i < j < |ds| && es[i].waiting && ds[j].waiting ==> es[j] == ds[j])
            && (f != Some(false) ==> forall i :: 0 <= i < |ds| && es[i].waiting ==> es[i] == ds[i])
            && (n >= Waiting(ds) && f != Some(false) ==> Waiting(es) == 0)
  {
    if ds != [] && n > 0 {
      var es := MarkWritten(ds, n, f);
      var m := if ds[0].waiting then n - 1 else n;
      MarkWrittenProps(ds[1..], m, f);
      var rest := MarkWritten(ds[1..], m, f);
      assert es[1..] == rest;
      assert forall i :: 1 <= i < |ds| ==> ds[i] == ds[1..][i - 1] && es[i] == rest[i - 1];
      if ds[0].waiting && es[0].waiting {
        assert m == 0 && rest == ds[1..];
      }
    }
    if n == 0 {
      WaitingZero(ds);
    }
  }

  /** Exactly which patches a replay writes: the waiting ones with fewer than `n` waiting before them; the
      last of these stays listed when its record failed without landing. */
  lemma {:induction false} MarkWrittenExactly(ds: seq<Delta>, n: nat, f: Option<bool>, i: nat)
    requires i < |ds|
    ensures |MarkWritten(ds, n, f)| == |ds|
    ensures MarkWritten(ds, n, f)[i] == if ds[i].waiting && Waiting(ds[..i]) < n
                                        then ds[i].(written := true, waiting := Waiting(ds[..i]) == n - 1 && f == Some(false))
                                        else ds[i]
  {
    MarkWrittenProps(ds, n, f);
    if n > 0 {
      var m := if ds[0].waiting then n - 1 else n;
      assert MarkWritten(ds, n, f)[1..] == MarkWritten(ds[1..], m, f);
      if i == 0 {
        assert ds[..0] == [];
      } else {
        MarkWrittenExactly(ds[1..], m, f, i - 1);
        assert ds[..i][1..] == ds[1..][..i - 1];
      }
    }
  }

  lemma {:induction false} WaitingAppend(ds: seq<Delta>, d: Delta)
    ensures Waiting(ds + [d]) == Waiting(ds) + if d.waiting then 1 else 0
  {
    if ds == [] {
      assert [] + [d] == [d] && [d][1..] == [];
    } else {
      WaitingAppend(ds[1..], d);
      assert (ds + [d])[1..] == ds[1..] + [d];
    }
  }

  /** The patch this turn end adds, if any. */
  function Added(s: Session, e: EndCalls): seq<Delta>
    requires s.start.Some?
  {
    var d := SyncTurnEnd(s.start.value, Waiting(s.deltas), e);
    if d.wrote || d.listed
    then [Delta(s.start.value.tree.value, e.endTree.value, s.turn, d.wrote, d.listed, false)] else []
  }

  /** A turn end keeps the chain if and only if it keeps track of its own effect. */
  lemma EndTurnGaplessIff(s: Session, e: EndCalls, origin: Tree)
    requires Gapless(s, origin)
    ensures Gapless(EndTurn(s, e), Baseline(s, TurnEnd(e), origin)) <==> KeepsTrack(s, TurnEnd(e))
  {
    if s.start.Some? {
      var add, base := Added(s, e), Baseline(s, TurnEnd(e), origin);
      if add == [] {
        assert s.deltas + add == s.deltas;
      } else if s.endTree.Some? || KeepsTrack(s, TurnEnd(e)) {
        ChainedAppend(s.deltas, base, add[0]);
        ChainedEnd(s.deltas + add, base, add[0].to);
      }
    }
  }

  /** A chain from one tree ends in one tree. */
  lemma {:induction false} ChainedEnd(ds: seq<Delta>, from: Tree, to: Tree)
    requires Chained(ds, from, to)
    ensures forall other :: Chained(ds, from, other) ==> other == to
  {
    if ds != [] {
      ChainedEnd(ds[1..], ds[0].to, to);
    }
  }

  /** The turn has a patch, and it is not empty. */
  predicate HasPatch(start: Start, e: EndCalls) {
    start.tree.Some? && e.endTree.Some? && start.tree != e.endTree && e.diffOk
  }

  /** Something stands in the way of the write: an earlier throw, a backlog, fingerprints that are not
      both captured and equal, or a refusal. */
  predicate Blocked(start: Start, backlog: nat, e: EndCalls) {
    || e.threw.BeforeWrite? || backlog > 0
    || start.finger.None? || e.finger.None? || start.finger != e.finger
    || e.write.Refused?
  }

  /** When a turn end loses track: its patch was kept from the checkout and the hold's line landed although
      its append threw; or the patch was written, something threw after it, and the hold did not get it
      listed, or got it listed without knowing. */
  lemma LosesTrackIff(s: Session, e: EndCalls)
    requires s.start.Some?
    ensures var start, backlog := s.start.value, Waiting(s.deltas);
            !KeepsTrack(s, TurnEnd(e))
            <==> HasPatch(start, e)
                 && if Blocked(start, backlog, e) then e.hold == Untracked(true) else e.threw.AfterWrite? && !e.hold.Listed?
  {
  }

  /** The patch is written, and nothing throws after that. */
  predicate Applies(start: Start, backlog: nat, e: EndCalls) {
    HasPatch(start, e) && !Blocked(start, backlog, e) && !e.threw.AfterWrite?
  }

  /** Both trees are known, and the turn changed nothing, or its patch was applied, or is listed. */
  predicate Settles(start: Start, backlog: nat, e: EndCalls) {
    && start.tree.Some? && e.endTree.Some?
    && (start.tree == e.endTree || Applies(start, backlog, e) || (e.diffOk && e.hold.Listed?))
  }

  /** What a turn end leaves: the turn is consumed; its patch goes to the checkout unless something stands in
      the way, and to the ledger if it does or something throws after the write, as far as the hold succeeds;
      the end tree moves on exactly when the turn settles. */
  lemma TurnEndLeaves(s: Session, e: EndCalls)
    requires s.start.Some?
    ensures var t, start, backlog := Step(s, TurnEnd(e)), s.start.value, Waiting(s.deltas);
            var wrote := HasPatch(start, e) && !Blocked(start, backlog, e);
            var listed := HasPatch(start, e) && !Applies(start, backlog, e) && (e.hold.Listed? || e.hold == Untracked(true));
            && t.start.None? && t.turn == s.turn
            && t.deltas == s.deltas + (if wrote || listed then [Delta(start.tree.value, e.endTree.value, s.turn, wrote, listed, false)]
                                       else [])
            && t.endTree == if Settles(start, backlog, e) then e.endTree else s.endTree
  {
  }

  /** A turn that starts and ends with equal fingerprints, nothing waiting and every call working is in the
      checkout afterwards, from the end tree before it, or else from the live tree it started in. */
  lemma UndisturbedTurnIsApplied(s: Session, live: Option<Tree>, finger: Fingerprint, e: EndCalls)
    requires Waiting(s.deltas) == 0 && (s.endTree.Some? || live.Some?)
    requires e.diffOk && e.finger == Some(finger) && e.threw.NoThrow? && e.write == Wrote(false)
    requires e.endTree.Some? && e.endTree != (if s.endTree.Some? then s.endTree else live)
    ensures var t := Step(Step(s, TurnStart(live, Some(finger))), TurnEnd(e));
            var from := if s.endTree.Some? then s.endTree.value else live.value;
            && t.deltas == s.deltas + [Delta(from, e.endTree.value, s.turn + 1, true, false, false)]
            && t.endTree == e.endTree && t.turn == s.turn + 1
            && t.rows == s.rows - {HeldRow} - (if s.endTree.Some? then {UncapturableRow} else {})
  {
    TurnEndLeaves(Step(s, TurnStart(live, Some(finger))), e);
  }

  /** A write happens only when nothing waits. */
  lemma EndTurnOrdered(s: Session, e: EndCalls)
    requires Orderly(s)
    ensures Orderly(EndTurn(s, e))
  {
    if s.start.Some? {
      WaitingZero(s.deltas);
      assert EndTurn(s, e).deltas == s.deltas + Added(s, e);
    }
  }

  lemma EndTurnRow(s: Session, e: EndCalls, origin: Tree)
    requires Inv(s, origin) && KeepsTrack(s, TurnEnd(e)) && s.start.Some?
    ensures var t := EndTurn(s, e); Waiting(t.deltas) > 0 ==> HeldRow in t.rows
  {
    var add := Added(s, e);
    if add == [] {
      assert s.deltas + add == s.deltas;
    } else {
      WaitingAppend(s.deltas, add[0]);
    }
  }

  lemma EndTurnKeepsInv(s: Session, e: EndCalls, origin: Tree)
    requires Inv(s, origin) && KeepsTrack(s, TurnEnd(e))
    ensures Inv(EndTurn(s, e), Baseline(s, TurnEnd(e), origin))
  {
    EndTurnGaplessIff(s, e, origin);
    EndTurnOrdered(s, e);
    if s.start.Some? {
      EndTurnRow(s, e, origin);
    }
  }

  lemma ReplayKeepsOrder(s: Session, e: Event)
    requires Orderly(s) && e.ApplyHeld?
    ensures Orderly(Step(s, e))
  {
    var ds, es := s.deltas, MarkWritten(s.deltas, e.n, e.failedRecord);
    MarkWrittenProps(ds, e.n, e.failedRecord);
    forall i, j | 0 <= i < j < |es| && es[i].waiting
      ensures !es[j].written
    {
      assert ds[i].waiting && !ds[j].written;
      assert ds[j].waiting ==> es[j] == ds[j];
    }
    assert forall i :: 0 <= i < |ds| ==> es[i].turn == ds[i].turn;
  }

  lemma ReplayKeepsInv(s: Session, e: Event, origin: Tree)
    requires Inv(s, origin) && e.ApplyHeld? && Possible(s, e)
    ensures Inv(Step(s, e), origin)
  {
    var ds, es := s.deltas, MarkWritten(s.deltas, e.n, e.failedRecord);
    MarkWrittenProps(ds, e.n, e.failedRecord);
    ReplayKeepsOrder(s, e);
    if s.endTree.Some? {
      ChainedAlike(ds, es, origin, s.endTree.value);
    }
  }

  lemma {:induction false} DropTurnsProps(ds: seq<Delta>, turns: set<nat>)
    ensures var es := DropTurns(ds, turns);
            |es| == |ds| && forall i :: 0 <= i < |ds| ==> es[i] == if ds[i].turn in turns then Drop(ds[i]) else ds[i]
  {
    if ds != [] {
      DropTurnsProps(ds[1..], turns);
      assert forall i :: 1 <= i < |ds| ==> ds[i] == ds[1..][i - 1];
    }
  }

  /** Dropping some of what waits moves nothing, writes nothing and loses no account of a patch. */
  lemma DropKeepsOrder(s: Session, turns: set<nat>, ok: bool, remaining: nat)
    requires Orderly(s)
    ensures Orderly(DropHeld(s, turns, ok, remaining))
  {
    var ds, es := s.deltas, DropTurns(s.deltas, turns);
    DropTurnsProps(ds, turns);
    assert DropHeld(s, turns, ok, remaining).deltas == es;
    forall i, j | 0 <= i < j < |es| && es[i].waiting
      ensures !es[j].written
    {
      assert ds[i].waiting && !ds[j].written;
    }
    assert forall i :: 0 <= i < |es| ==> es[i].turn == ds[i].turn;
  }

  lemma DropKeepsInv(s: Session, turns: set<nat>, ok: bool, remaining: nat, origin: Tree)
    requires Inv(s, origin) && Possible(s, Discard(turns, ok, remaining))
    ensures Inv(DropHeld(s, turns, ok, remaining), origin)
  {
    DropTurnsProps(s.deltas, turns);
    DropKeepsOrder(s, turns, ok, remaining);
    WaitingZero(s.deltas);
    WaitingZero(DropTurns(s.deltas, turns));
    if s.endTree.Some? {
      ChainedAlike(s.deltas, DropTurns(s.deltas, turns), origin, s.endTree.value);
    }
  }

  /** Labels follow execution order whatever else goes wrong. */
  lemma StepKeepsLabels(s: Session, e: Event)
    requires Labelled(s)
    ensures Labelled(Step(s, e))
  {
    match e
    case ApplyHeld(n, _, f, _) =>
      MarkWrittenProps(s.deltas, n, f);
      assert forall i :: 0 <= i < |s.deltas| ==> MarkWritten(s.deltas, n, f)[i].turn == s.deltas[i].turn;
    case Discard(turns, _, _) => DropTurnsProps(s.deltas, turns);
    case _ =>
  }

  lemma StepKeepsOrder(s: Session, e: Event)
    requires Orderly(s)
    ensures Orderly(Step(s, e))
  {
    match e
    case TurnEnd(calls) => EndTurnOrdered(s, calls);
    case ApplyHeld(_, _, _, _) => ReplayKeepsOrder(s, e);
    case Discard(turns, ok, remaining) => DropKeepsOrder(s, turns, ok, remaining);
    case _ =>
  }

  lemma StepKeepsInv(s: Session, e: Event, origin: Tree)
    requires Inv(s, origin) && Possible(s, e) && KeepsTrack(s, e)
    ensures Inv(Step(s, e), Baseline(s, e, origin))
  {
    match e
    case TurnEnd(calls) => EndTurnKeepsInv(s, calls, origin);
    case ApplyHeld(_, _, _, _) => ReplayKeepsInv(s, e, origin);
    case Discard(turns, ok, remaining) => DropKeepsInv(s, turns, ok, remaining, origin);
    case _ =>
  }

  /** The end tree is set by the first captured turn and never unset. */
  lemma BaselineOfRest(s: Session, e: Event, more: seq<Span>, origin: Tree)
    ensures FirstFrom(s, SpanOf(s, e) + more, origin) == FirstFrom(Step(s, e), more, Baseline(s, e, origin))
  {
    if SpanOf(s, e) == [] {
      assert SpanOf(s, e) + more == more;
    }
  }

  /** Conservation over every run that keeps track: from the start tree of its first captured turn the
      patches lead to the end tree without a gap and in order, every one of them is in the checkout, in
      the ledger or explicitly dropped, none is in the checkout ahead of an older one that waits, and
      while one waits its row stands. */
  lemma {:induction false} RunConserves(s: Session, es: seq<Event>, t: Session, origin: Tree)
    requires Inv(s, origin) && Runs(s, es, t) && AllTracked(s, es)
    ensures Inv(t, FirstFrom(s, CapturedSpans(s, es), origin))
    decreases |es|
  {
    if es != [] {
      var next := Step(s, es[0]);
      StepKeepsInv(s, es[0], origin);
      RunConserves(next, es[1..], t, Baseline(s, es[0], origin));
      BaselineOfRest(s, es[0], CapturedSpans(next, es[1..]), origin);
    }
  }

  /** The chain is without a gap after every event of a run. */
  ghost predicate AlwaysGapless(s: Session, es: seq<Event>, origin: Tree)
    decreases |es|
  {
    Gapless(s, origin) && (es == [] || AlwaysGapless(Step(s, es[0]), es[1..], Baseline(s, es[0], origin)))
  }

  /** And the condition is exact: the patches form a chain after every event of a run if and only if no
      turn end of the run lost track. */
  lemma {:induction false} AlwaysGaplessIff(s: Session, es: seq<Event>, t: Session, origin: Tree)
    requires Inv(s, origin) && Runs(s, es, t)
    ensures AlwaysGapless(s, es, origin) <==> AllTracked(s, es)
    decreases |es|
  {
    if es != [] {
      if KeepsTrack(s, es[0]) {
        StepKeepsInv(s, es[0], origin);
        AlwaysGaplessIff(Step(s, es[0]), es[1..], t, Baseline(s, es[0], origin));
      } else {
        EndTurnGaplessIff(s, es[0].calls, origin);
      }
    }
  }

  /** The spans lead from one tree to another without a gap. */
  predicate SpansChained(spans: seq<Span>, from: Tree, to: Tree) {
    if spans == [] then from == to else spans[0].from == from && SpansChained(spans[1..], spans[0].to, to)
  }

  /** A turn starts from the end tree once there is one. */
  predicate Anchored(s: Session) {
    s.start.Some? && s.endTree.Some? ==> s.start.value.tree == s.endTree
  }

  /** The patch of a span is in the checkout, in the ledger, or dropped. */
  predicate Carried(sp: Span, ds: seq<Delta>) {
    exists i :: 0 <= i < |ds| && ds[i].turn == sp.turn && ds[i].from == sp.from && ds[i].to == sp.to
                && (ds[i].written || ds[i].waiting || ds[i].dropped)
  }

  lemma StepCarries(s: Session, e: Event, sp: Span)
    ensures Carried(sp, s.deltas) ==> Carried(sp, Step(s, e).deltas)
  {
    if Carried(sp, s.deltas) {
      var ds, es := s.deltas, Step(s, e).deltas;
      match e
      case ApplyHeld(n, _, f, _) => MarkWrittenProps(ds, n, f);
      case Discard(turns, _, _) => DropTurnsProps(ds, turns);
      case _ =>
      var i :| 0 <= i < |ds| && ds[i].turn == sp.turn && ds[i].from == sp.from && ds[i].to == sp.to
               && (ds[i].written || ds[i].waiting || ds[i].dropped);
      assert es[i].turn == sp.turn && es[i].from == sp.from && es[i].to == sp.to;
    }
  }

  lemma {:induction false} RunCarries(s: Session, es: seq<Event>, t: Session, sp: Span)
    requires Runs(s, es, t) && Carried(sp, s.deltas)
    ensures Carried(sp, t.deltas)
    decreases |es|
  {
    if es != [] {
      StepCarries(s, es[0], sp);
      RunCarries(Step(s, es[0]), es[1..], t, sp);
    }
  }

  /** The span a turn end adds starts at the end tree, if there is one, and its patch is carried. */
  lemma SpanIsCarried(s: Session, e: Event)
    requires Anchored(s) && SpanOf(s, e) != []
    ensures var sp, t := SpanOf(s, e)[0], Step(s, e);
            && SpanOf(s, e) == [sp]
            && (s.endTree.Some? ==> sp.from == s.endTree.value)
            && t.endTree == Some(sp.to)
            && (sp.from != sp.to ==> Carried(sp, t.deltas))
  {
    var sp, t := SpanOf(s, e)[0], Step(s, e);
    if sp.from != sp.to {
      assert t.deltas == s.deltas + Added(s, e.calls);
      assert t.deltas[|s.deltas|] == Added(s, e.calls)[0];
    }
  }

  /** With every fault allowed: the captured turns lead without a gap from the end tree the run began
      with, or else from the first captured turn's start, to its end tree. */
  lemma {:induction false} CapturedTurnsChain(s: Session, es: seq<Event>, t: Session)
    requires Anchored(s) && Runs(s, es, t)
    ensures var spans := CapturedSpans(s, es);
            && (t.endTree.None? <==> s.endTree.None? && spans == [])
            && (t.endTree.Some? ==>
                  SpansChained(spans, FirstFrom(s, spans, if s.endTree.Some? then s.endTree.value else ""), t.endTree.value))
    decreases |es|
  {
    if es != [] {
      var next, rest := Step(s, es[0]), CapturedSpans(Step(s, es[0]), es[1..]);
      CapturedTurnsChain(next, es[1..], t);
      if SpanOf(s, es[0]) == [] {
        assert SpanOf(s, es[0]) + rest == rest && next.endTree == s.endTree;
      } else {
        SpanIsCarried(s, es[0]);
        assert (SpanOf(s, es[0]) + rest)[1..] == rest;
      }
    }
  }

  /** At least once, with every fault allowed: whatever a captured turn changed is in the checkout, in the
      ledger or dropped, under its own turn, and patches stay in order. */
  lemma {:induction false} CapturedIsCarried(s: Session, es: seq<Event>, t: Session)
    requires Anchored(s) && Orderly(s) && Runs(s, es, t)
    ensures forall sp :: sp in CapturedSpans(s, es) && sp.from != sp.to ==> Carried(sp, t.deltas)
    ensures Orderly(t)
    decreases |es|
  {
    if es != [] {
      var next := Step(s, es[0]);
      StepKeepsOrder(s, es[0]);
      CapturedIsCarried(next, es[1..], t);
      if SpanOf(s, es[0]) != [] {
        SpanIsCarried(s, es[0]);
        var sp := SpanOf(s, es[0])[0];
        if sp.from != sp.to {
          RunCarries(next, es[1..], t, sp);
        }
      }
    }
  }

  lemma {:induction false} ChainedSplit(ds: seq<Delta>, k: nat, from: Tree, to: Tree)
    requires k <= |ds| && Chained(ds, from, to)
    ensures exists mid :: Chained(ds[..k], from, mid) && Chained(ds[k..], mid, to)
  {
    if k == 0 {
      assert ds[..0] == [] && ds[0..] == ds;
      assert Chained(ds[..0], from, from);
    } else {
      ChainedSplit(ds[1..], k - 1, ds[0].to, to);
      var mid :| Chained(ds[1..][..k - 1], ds[0].to, mid) && Chained(ds[1..][k - 1..], mid, to);
      assert ds[..k][1..] == ds[1..][..k - 1] && ds[k..] == ds[1..][k - 1..];
    }
  }

  lemma FirstWaiting(ds: seq<Delta>) returns (k: nat)
    ensures k <= |ds| && (forall i :: 0 <= i < k ==> !ds[i].waiting) && (k < |ds| ==> ds[k].waiting)
  {
    k := 0;
    while k < |ds| && !ds[k].waiting
      invariant k <= |ds| && forall i :: 0 <= i < k ==> !ds[i].waiting
    {
      k := k + 1;
    }
  }

  predicate NoneDropped(ds: seq<Delta>) {
    forall i :: 0 <= i < |ds| ==> !ds[i].dropped
  }

  predicate DropsNothing(e: Event) {
    e.Discard? ==> e.turns == {}
  }

  /** Only a discard drops. */
  lemma {:induction false} OnlyDiscardDrops(s: Session, es: seq<Event>, t: Session)
    requires Runs(s, es, t) && NoneDropped(s.deltas) && forall e :: e in es ==> DropsNothing(e)
    ensures NoneDropped(t.deltas)
    decreases |es|
  {
    if es != [] {
      var e := es[0];
      assert e in es;
      if e.ApplyHeld? {
        MarkWrittenProps(s.deltas, e.n, e.failedRecord);
        assert forall i :: 0 <= i < |s.deltas| ==> MarkWritten(s.deltas, e.n, e.failedRecord)[i].dropped == s.deltas[i].dropped;
      }
      if e.Discard? {
        DropTurnsProps(s.deltas, e.turns);
      }
      OnlyDiscardDrops(Step(s, e), es[1..], t);
    }
  }

  /** As long as nothing was dropped, the chain is the applied patches followed by the held backlog. */
  lemma AppliedThenHeld(s: Session, origin: Tree)
    requires Inv(s, origin) && s.endTree.Some? && NoneDropped(s.deltas)
    ensures exists k: nat, mid ::
              && k <= |s.deltas|
              && Chained(s.deltas[..k], origin, mid) && Chained(s.deltas[k..], mid, s.endTree.value)
              && (forall i :: 0 <= i < k ==> s.deltas[i].written && !s.deltas[i].waiting)
              && (forall i :: k <= i < |s.deltas| ==> s.deltas[i].waiting)
  {
    var k := FirstWaiting(s.deltas);
    ChainedSplit(s.deltas, k, origin, s.endTree.value);
  }

  /** No call failed after a write. */
  predicate Faultless(e: Event) {
    && (e.TurnEnd? ==> !e.calls.threw.AfterWrite? && !(e.calls.hold == Untracked(true)))
    && (e.ApplyHeld? ==> e.failedRecord.None?)
  }

  predicate OnePlace(d: Delta) {
    (d.written && !d.waiting && !d.dropped) || (!d.written && d.waiting && !d.dropped) || (!d.written && !d.waiting && d.dropped)
  }

  predicate AllOnePlace(ds: seq<Delta>) {
    forall i :: 0 <= i < |ds| ==> OnePlace(ds[i])
  }

  /** Without such faults every patch is in exactly one place. */
  lemma {:induction false} ExactlyOnce(s: Session, es: seq<Event>, t: Session)
    requires Runs(s, es, t) && forall e :: e in es ==> Faultless(e)
    requires AllOnePlace(s.deltas)
    ensures AllOnePlace(t.deltas)
    decreases |es|
  {
    if es != [] {
      var e := es[0];
      assert e in es;
      if e.ApplyHeld? {
        MarkWrittenProps(s.deltas, e.n, e.failedRecord);
        WrittenOnce(s.deltas, e.n);
      }
      if e.Discard? {
        DropTurnsProps(s.deltas, e.turns);
      }
      ExactlyOnce(Step(s, e), es[1..], t);
    }
  }

  lemma {:induction false} WrittenOnce(ds: seq<Delta>, n: nat)
    requires AllOnePlace(ds)
    ensures AllOnePlace(MarkWritten(ds, n, None))
  {
    if ds != [] && n > 0 {
      var m := if ds[0].waiting then n - 1 else n;
      WrittenOnce(ds[1..], m);
      var es, rest := MarkWritten(ds, n, None), MarkWritten(ds[1..], m, None);
      assert OnePlace(es[0]) && es == [es[0]] + rest;
    }
  }

  /** For instance: when a hold's line landed although its append threw, the end tree stays put, so the
      next turn's patch starts where the listed one starts and the patches no longer form a chain. */
  lemma LandedButUntrackedBreaksChain(a: Tree, b: Tree, c: Tree, p: Fingerprint)
    requires a != b && a != c
    ensures var first := EndCalls(Some(b), true, None, Refused, NoThrow, Untracked(true));
            var second := EndCalls(Some(c), true, None, Refused, NoThrow, Listed);
            var s0 := Session(1, Some(Start(Some(a), Some(p))), Some(a), [], {});
            var s := Step(Step(Step(s0, TurnEnd(first)), TurnStart(None, None)), TurnEnd(second));
            Inv(s0, a) && !Chained(s.deltas, a, c) && s.endTree == Some(c)
  {
    var first := EndCalls(Some(b), true, None, Refused, NoThrow, Untracked(true));
    var s0 := Session(1, Some(Start(Some(a), Some(p))), Some(a), [], {});
    var s1 := Step(s0, TurnEnd(first));
    assert s1.deltas == [Delta(a, b, 1, false, true, false)];
  }

  // ---------------------------------------------------------------------------------------------
  // The "only in your worktree" warning

  /** `missed`: a finished turn since the end tree was set is covered by no patch yet.  `lostEarly`: a
      turn went uncaptured before any end tree existed.  `captured`: captured turn ends so far. */
  datatype History = History(missed: bool, lostEarly: bool, captured: nat)

  function Note(s: Session, h: History, e: Event): History {
    if !e.TurnEnd? || s.start.None? then h
    else if Captured(SyncTurnEnd(s.start.value, Waiting(s.deltas), e.calls).outcome) then h.(missed := false, captured := h.captured + 1)
    else if s.endTree.Some? then h.(missed := true)
    else h.(lostEarly := true)
  }

  ghost predicate RunsNoting(s: Session, h: History, es: seq<Event>, t: Session, g: History)
    decreases |es|
  {
    if es == [] then s == t && h == g
    else Possible(s, es[0]) && RunsNoting(Step(s, es[0]), Note(s, h, es[0]), es[1..], t, g)
  }

  ghost predicate WarningInv(s: Session, h: History) {
    && (UncapturableRow in s.rows <==> h.missed || (h.lostEarly && h.captured < 2))
    && (s.endTree.Some? <==> h.captured > 0)
    && (h.missed ==> s.endTree.Some?)
    && (s.start.Some? && s.endTree.Some? ==> s.start.value.tree == s.endTree)
  }

  /** Exactly when the warning stands: while a turn that went uncaptured after an end tree existed is
      still uncovered, and, for a turn lost before any end tree existed, only until the second captured
      turn end, although no patch ever carries that turn's edits. */
  lemma {:induction false} WarningStandsIff(s: Session, h: History, es: seq<Event>, t: Session, g: History)
    requires WarningInv(s, h) && RunsNoting(s, h, es, t, g)
    ensures WarningInv(t, g)
    decreases |es|
  {
    if es != [] {
      WarningStandsIff(Step(s, es[0]), Note(s, h, es[0]), es[1..], t, g);
    }
  }

  // ---------------------------------------------------------------------------------------------
  // When a row stands

  /** The event reports what the row is about: a patch went to the ledger or is still there; a turn did not
      settle; a write was found to diverge. */
  predicate Raises(row: Row, s: Session, e: Event) {
    match e
    case TurnEnd(calls) =>
      s.start.Some?
      && var start, backlog := s.start.value, Waiting(s.deltas);
         (match row
          case HeldRow => HasPatch(start, calls) && !Applies(start, backlog, calls) && calls.hold.Listed?
          case UncapturableRow => !Settles(start, backlog, calls)
          case DivergenceRow => Applies(start, backlog, calls) && calls.write == Wrote(true))
    case ApplyHeld(_, ok, _, diverged) => (row.HeldRow? && !ok) || (row.DivergenceRow? && diverged)
    case Discard(_, _, remaining) => row.HeldRow? && remaining > 0
    case _ => false
  }

  /** The event settles it: a write with nothing waiting, a full replay or a full discard; a turn that starts
      from the end tree and settles; an acknowledgement. */
  predicate Clears(row: Row, s: Session, e: Event) {
    match e
    case TurnEnd(calls) =>
      s.start.Some?
      && var start, backlog := s.start.value, Waiting(s.deltas);
         (match row
          case HeldRow => Applies(start, backlog, calls)
          case UncapturableRow => Settles(start, backlog, calls) && Spans(s, start)
          case DivergenceRow => false)
    case ApplyHeld(_, ok, _, _) => row.HeldRow? && ok
    case Discard(_, ok, remaining) => row.HeldRow? && ok && remaining == 0
    case AckDivergence => row.DivergenceRow?
    case TurnStart(_, _) => false
  }

  function After(s: Session, es: seq<Event>): Session
    decreases |es|
  {
    if es == [] then s else After(Step(s, es[0]), es[1..])
  }

  lemma RowAfterStep(row: Row, s: Session, e: Event)
    ensures row in Step(s, e).rows <==> Raises(row, s, e) || (row in s.rows && !Clears(row, s, e))
  {
  }

  ghost predicate NeverCleared(row: Row, s: Session, es: seq<Event>)
    decreases |es|
  {
    es == [] || (!Clears(row, s, es[0]) && NeverCleared(row, Step(s, es[0]), es[1..]))
  }

  /** Event `k` raises the row and nothing after it clears it. */
  ghost predicate StandsSince(row: Row, s: Session, es: seq<Event>, k: nat)
    requires k < |es|
  {
    Raises(row, After(s, es[..k]), es[k]) && NeverCleared(row, After(s, es[..k + 1]), es[k + 1..])
  }

  lemma StandsSinceOn(row: Row, s: Session, es: seq<Event>, k: nat)
    requires k + 1 < |es|
    ensures StandsSince(row, s, es, k + 1) <==> StandsSince(row, Step(s, es[0]), es[1..], k)
  {
    assert es[..k + 1][1..] == es[1..][..k] && es[..k + 2][1..] == es[1..][..k + 1];
    assert es[1..][k + 1..] == es[k + 2..];
  }

  /** Exactly when a row stands after a run, with every fault allowed: some event raised it, or it stood
      before, and no event has cleared it since. */
  lemma {:induction false} RowStandsIff(row: Row, s: Session, es: seq<Event>)
    ensures row in After(s, es).rows
            <==> (row in s.rows && NeverCleared(row, s, es)) || exists k: nat :: k < |es| && StandsSince(row, s, es, k)
    decreases |es|
  {
    if es != [] {
      var next, rest := Step(s, es[0]), es[1..];
      RowStandsIff(row, next, rest);
      RowAfterStep(row, s, es[0]);
      assert es[..0] == [] && es[..1][1..] == [] && es[..1][0] == es[0];
      assert After(s, es[..1]) == next;
      assert StandsSince(row, s, es, 0) <==> Raises(row, s, es[0]) && NeverCleared(row, next, rest);
      forall k: nat | k < |rest|
        ensures StandsSince(row, s, es, k + 1) <==> StandsSince(row, next, rest, k)
      {
        StandsSinceOn(row, s, es, k);
      }
      assert forall k: nat :: 0 < k < |es| && StandsSince(row, s, es, k) ==> StandsSince(row, next, rest, k - 1);
    }
  }

  lemma {:induction false} OnlyAckClears(s: Session, es: seq<Event>)
    ensures NeverCleared(DivergenceRow, s, es) <==> AckDivergence !in es
    decreases |es|
  {
    if es != [] {
      OnlyAckClears(Step(s, es[0]), es[1..]);
      assert es == [es[0]] + es[1..];
    }
  }

  /** The divergence row stands exactly when a divergence was found, at a turn end or by an apply, since the
      last acknowledgement. */
  lemma DivergenceStandsIff(s: Session, es: seq<Event>)
    requires DivergenceRow !in s.rows
    ensures DivergenceRow in After(s, es).rows
            <==> exists k: nat :: k < |es| && Raises(DivergenceRow, After(s, es[..k]), es[k]) && AckDivergence !in es[k + 1..]
  {
    RowStandsIff(DivergenceRow, s, es);
    forall k: nat | k < |es|
      ensures StandsSince(DivergenceRow, s, es, k)
              <==> Raises(DivergenceRow, After(s, es[..k]), es[k]) && AckDivergence !in es[k + 1..]
    {
      OnlyAckClears(After(s, es[..k + 1]), es[k + 1..]);
    }
  }

  /** So it goes only when the operator acknowledges it. */
  lemma {:induction false} DivergenceRowPersists(s: Session, es: seq<Event>, t: Session)
    requires Runs(s, es, t) && DivergenceRow in s.rows && AckDivergence !in es
    ensures DivergenceRow in t.rows
    decreases |es|
  {
    if es != [] {
      assert es[0] in es;
      DivergenceRowPersists(Step(s, es[0]), es[1..], t);
    }
  }

  // ---------------------------------------------------------------------------------------------
  // The lane's session record

  class BoundarySession {
    var turn: nat
    var start: Option<Start>
    var endTree: Option<Tree>
    var deltas: seq<Delta>
    var rows: set<Row>

    ghost function View(): Session
      reads this
    {
      Session(turn, start, endTree, deltas, rows)
    }

    constructor ()
      ensures View() == FRESH
    {
      turn, start, endTree, deltas, rows := 0, None, None, [], {};
    }

    method TurnStarts(live: Option<Tree>, finger: Option<Fingerprint>)
      modifies this
      ensures View() == Step(old(View()), TurnStart(live, finger))
    {
      turn := turn + 1;
      var tree := live;
      if endTree.Some? {
        tree := endTree;
      }
      start := Some(Start(tree, finger));
    }

    method TurnEnds(e: EndCalls)
      modifies this
      ensures View() == Step(old(View()), TurnEnd(e))
    {
      if start.None? {
        return;
      }
      var begun := start.value;
      start := None;
      var spanned := begun.tree.Some? && endTree.Some? && begun.tree == endTree;
      var d := SyncTurnEnd(begun, Waiting(deltas), e);
      if d.wrote || d.listed {
        deltas := deltas + [Delta(begun.tree.value, e.endTree.value, turn, d.wrote, d.listed, false)];
      }
      var appendFailed := d.outcome.HeldTurn? && !d.outcome.tracked;
      if !d.outcome.Uncapturable? && !appendFailed {
        endTree := Some(d.outcome.end);
      }
      match d.outcome {
        case NoopTurn(_) =>
          if spanned {
            rows := rows - {UncapturableRow};
          }
        case AppliedTurn(_, diverged) =>
          rows := rows - {HeldRow};
          if spanned {
            rows := rows - {UncapturableRow};
          }
          if diverged {
            rows := rows + {DivergenceRow};
          }
        case HeldTurn(_, tracked) =>
          if spanned {
            rows := rows - {UncapturableRow};
          }
          rows := rows + {if tracked then HeldRow else UncapturableRow};
        case Uncapturable =>
          rows := rows + {UncapturableRow};
      }
    }

    /** What the explicit apply leaves: its report decides the rows. */
    method HeldApplied(n: nat, ok: bool, failedRecord: Option<bool>, diverged: bool)
      modifies this`deltas, this`rows
      ensures View() == Step(old(View()), ApplyHeld(n, ok, failedRecord, diverged))
    {
      deltas := MarkWritten(deltas, n, failedRecord);
      if ok {
        rows := rows - {HeldRow};
      } else {
        rows := rows + {HeldRow};
      }
      if diverged {
        rows := rows + {DivergenceRow};
      }
    }

    /** What the explicit discard leaves: its report decides the row. */
    method HeldDiscarded(turns: set<nat>, ok: bool, remaining: nat)
      modifies this`deltas, this`rows
      ensures View() == Step(old(View()), Discard(turns, ok, remaining))
    {
      deltas := DropTurns(deltas, turns);
      if ok && remaining == 0 {
        rows := rows - {HeldRow};
      } else if remaining > 0 {
        rows := rows + {HeldRow};
      }
    }

    method AcknowledgeDivergence()
      modifies this`rows
      ensures View() == Step(old(View()), AckDivergence)
    {
      rows := rows - {DivergenceRow};
    }
  }
}
