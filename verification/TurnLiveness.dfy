/**
 The driver's outbound requests and the timers that watch them: plain calls with a fixed deadline, and
 turns with a silence window that a live stream renews, that an outstanding tool call suspends, and that
 a hard cap bounds.  Time is a logical clock that cannot pass an armed deadline.
 */
module TurnLiveness {
  import opened Wrappers

  type ToolId = string

  datatype Limits = Limits(silence: nat, cap: nat)

  datatype Request = Call | Turn

  datatype Cause = Answered(failed: bool) | CallTimeout | SilenceTimeout | HardCapTimeout | AgentExited

  datatype Settlement = Settlement(id: nat, cause: Cause, at: nat)

  /** `calls`, `caps` and `silence` are the armed timers with their deadlines; `suspended` holds the
      turns whose own tool-call flag is up; `hook` is the turn that updates and tool-call transitions
      are delivered to (two callbacks, always set and cleared together); `settled` is the log of
      promises settled so far. */
  datatype Driver = Driver(now: nat, seqNo: nat, pending: map<nat, Request>,
                           calls: map<nat, nat>, caps: map<nat, nat>, silence: map<nat, nat>,
                           suspended: set<nat>, hook: Option<nat>, tools: set<ToolId>,
                           exited: bool, settled: seq<Settlement>)

  const IDLE := Driver(0, 0, map[], map[], map[], map[], {}, None, {}, false, [])

  datatype Update = ToolCall(id: Option<ToolId>, terminal: bool) | OtherUpdate

  datatype Timer = CallTimer(id: nat) | SilenceTimer(id: nat) | CapTimer(id: nat)

  datatype Event =
    | Send(timeout: nat)
    | SendTurn
    | Response(id: nat, failed: bool)
      // `ours`: the notification names this session, or names none
    | Notification(ours: bool, update: Update)
    | Fire(timer: Timer)
    | Exit
    | Advance(dt: nat)

  // ---------------------------------------------------------------------------------------------
  // Steps

  function ClearAll(d: Driver, id: nat): Driver {
    d.(silence := d.silence - {id}, caps := d.caps - {id}, hook := if d.hook == Some(id) then None else d.hook)
  }

  function ArmSilence(l: Limits, d: Driver, id: nat): Driver {
    if id in d.suspended then d else d.(silence := d.silence[id := d.now + l.silence])
  }

  function ToolCallChange(l: Limits, d: Driver, id: nat, outstanding: bool): Driver {
    if outstanding then d.(suspended := d.suspended + {id}, silence := d.silence - {id})
    else ArmSilence(l, d.(suspended := d.suspended - {id}), id)
  }

  function TrackToolCall(l: Limits, d: Driver, tool: Option<ToolId>, terminal: bool): Driver {
    if tool.None? || tool.value == "" then d
    else
      var tools := if terminal then d.tools - {tool.value} else d.tools + {tool.value};
      var e := d.(tools := tools);
      if (d.tools == {}) != (tools == {}) && d.hook.Some? then ToolCallChange(l, e, d.hook.value, tools != {}) else e
  }

  function HandleNotification(l: Limits, d: Driver, ours: bool, u: Update): Driver {
    var bumped := if ours && d.hook.Some? then ArmSilence(l, d, d.hook.value) else d;
    match u
    case ToolCall(id, terminal) => TrackToolCall(l, bumped, id, terminal)
    case OtherUpdate => bumped
  }

  function StartCall(d: Driver, timeout: nat): Driver {
    if d.exited then d
    else
      var id := d.seqNo + 1;
      d.(seqNo := id, calls := d.calls[id := d.now + timeout], pending := d.pending[id := Call])
  }

  function StartTurn(l: Limits, d: Driver): Driver {
    if d.exited then d
    else
      var id := d.seqNo + 1;
      var capped := d.(seqNo := id, tools := {}, caps := d.caps[id := d.now + l.cap]);
      ArmSilence(l, capped, id).(hook := Some(id), pending := d.pending[id := Turn])
  }

  /** A pending promise is settled: its own timers and hook go with it. */
  function Settle(d: Driver, id: nat, cause: Cause): Driver
    requires id in d.pending
  {
    var cleared := if d.pending[id].Turn? then ClearAll(d, id) else d.(calls := d.calls - {id});
    cleared.(pending := d.pending - {id}, settled := d.settled + [Settlement(id, cause, d.now)])
  }

  /** Rejects what is pending among the first `n` ids, oldest first. */
  function RejectUpTo(d: Driver, n: nat): Driver {
    if n == 0 then d
    else
      var e := RejectUpTo(d, n - 1);
      if n in e.pending then Settle(e, n, AgentExited) else e
  }

  function CauseOf(t: Timer): Cause {
    match t
    case CallTimer(_) => CallTimeout
    case SilenceTimer(_) => SilenceTimeout
    case CapTimer(_) => HardCapTimeout
  }

  predicate Armed(d: Driver, t: Timer) {
    match t
    case CallTimer(id) => id in d.calls
    case SilenceTimer(id) => id in d.silence
    case CapTimer(id) => id in d.caps
  }

  function Deadline(d: Driver, t: Timer): nat
    requires Armed(d, t)
  {
    match t
    case CallTimer(id) => d.calls[id]
    case SilenceTimer(id) => d.silence[id]
    case CapTimer(id) => d.caps[id]
  }

  /** A timer's callback: it clears what its request armed, forgets the request and rejects it. */
  function FireTimer(d: Driver, t: Timer): Driver {
    var cleared := if t.CallTimer? then d.(calls := d.calls - {t.id}) else ClearAll(d, t.id);
    cleared.(pending := d.pending - {t.id}, settled := d.settled + [Settlement(t.id, CauseOf(t), d.now)])
  }

  function Step(l: Limits, d: Driver, e: Event): Driver {
    match e
    case Send(timeout) => StartCall(d, timeout)
    case SendTurn => StartTurn(l, d)
    case Response(id, failed) => if id in d.pending then Settle(d, id, Answered(failed)) else d
    case Notification(ours, update) => HandleNotification(l, d, ours, update)
    case Fire(timer) => FireTimer(d, timer)
    case Exit => RejectUpTo(d, d.seqNo).(exited := true)
    case Advance(dt) => d.(now := d.now + dt)
  }

  /** A timer fires at its deadline; time passes only up to the nearest deadline. */
  ghost predicate Possible(d: Driver, e: Event) {
    && (e.Fire? ==> Armed(d, e.timer) && Deadline(d, e.timer) == d.now)
    && (e.Advance? ==> forall t :: Armed(d, t) ==> d.now + e.dt <= Deadline(d, t))
  }

  ghost predicate Runs(l: Limits, d: Driver, es: seq<Event>, t: Driver)
    decreases |es|
  {
    if es == [] then d == t else Possible(d, es[0]) && Runs(l, Step(l, d, es[0]), es[1..], t)
  }

  // ---------------------------------------------------------------------------------------------
  // What every step keeps

  /** Timers belong to pending requests, and every pending request is watched. */
  ghost predicate Watched(d: Driver) {
    && (forall id :: id in d.calls <==> id in d.pending && d.pending[id].Call?)
    && (forall id :: id in d.caps <==> id in d.pending && d.pending[id].Turn?)
    && (forall id :: id in d.silence ==> id in d.caps && id !in d.suspended)
    && (forall id :: id in d.suspended ==> id <= d.seqNo)
    && (d.hook.Some? ==> d.hook.value in d.caps)
  }

  /** No armed deadline has passed, and none is further off than its limit. */
  ghost predicate OnTime(l: Limits, d: Driver) {
    && (forall id :: id in d.calls ==> d.now <= d.calls[id])
    && (forall id :: id in d.caps ==> d.now <= d.caps[id] <= d.now + l.cap)
    && (forall id :: id in d.silence ==> d.now <= d.silence[id] <= d.now + l.silence)
  }

  predicate IsSettled(log: seq<Settlement>, id: nat) {
    exists s :: s in log && s.id == id
  }

  predicate NoRepeats(log: seq<Settlement>) {
    forall i, j :: 0 <= i < j < |log| ==> log[i].id != log[j].id
  }

  /** Every id handed out so far is either still pending or settled, never both, and no id is settled
      twice. */
  ghost predicate SettledOnce(pending: map<nat, Request>, seqNo: nat, settled: seq<Settlement>) {
    && (forall id :: id in pending ==> 0 < id <= seqNo && !IsSettled(settled, id))
    && (forall id :: 0 < id <= seqNo ==> id in pending || IsSettled(settled, id))
    && (forall s :: s in settled ==> s.id <= seqNo)
    && NoRepeats(settled)
  }

  ghost predicate Inv(l: Limits, d: Driver) {
    Watched(d) && OnTime(l, d) && SettledOnce(d.pending, d.seqNo, d.settled)
  }

  lemma IsSettledAppend(log: seq<Settlement>, s: Settlement)
    ensures forall id :: IsSettled(log + [s], id) <==> IsSettled(log, id) || id == s.id
  {
    forall id
      ensures IsSettled(log + [s], id) <==> IsSettled(log, id) || id == s.id
    {
      assert forall x :: x in log + [s] <==> x in log || x == s;
      assert s in log + [s];
    }
  }

  lemma AppendKeepsUnique(log: seq<Settlement>, s: Settlement)
    requires NoRepeats(log) && !IsSettled(log, s.id)
    ensures NoRepeats(log + [s])
  {
    assert forall i :: 0 <= i < |log| ==> log[i] in log;
  }

  /** What settling one pending request leaves behind. */
  ghost predicate Settles(d: Driver, id: nat, s: Settlement, t: Driver) {
    && s.id == id && id in d.pending
    && t.pending == d.pending - {id} && t.settled == d.settled + [s]
    && t.calls == d.calls - {id} && t.caps == d.caps - {id} && t.silence == d.silence - {id}
    && t.hook == (if d.hook == Some(id) then None else d.hook)
    && t.now == d.now && t.seqNo == d.seqNo && t.suspended == d.suspended && t.tools == d.tools && t.exited == d.exited
  }

  lemma SettlesKeepsInv(l: Limits, d: Driver, id: nat, s: Settlement, t: Driver)
    requires Inv(l, d) && Settles(d, id, s, t)
    ensures Inv(l, t)
  {
    IsSettledAppend(d.settled, s);
    AppendKeepsUnique(d.settled, s);
  }

  lemma SettleSettles(d: Driver, id: nat, cause: Cause)
    requires Watched(d) && id in d.pending
    ensures Settles(d, id, Settlement(id, cause, d.now), Settle(d, id, cause))
  {
    if d.pending[id].Turn? {
      assert d.calls - {id} == d.calls;
    } else {
      assert d.caps - {id} == d.caps && d.silence - {id} == d.silence;
    }
  }

  lemma FireSettles(l: Limits, d: Driver, t: Timer)
    requires Watched(d) && Armed(d, t)
    ensures Settles(d, t.id, Settlement(t.id, CauseOf(t), d.now), FireTimer(d, t))
  {
    if t.CallTimer? {
      assert d.caps - {t.id} == d.caps && d.silence - {t.id} == d.silence;
    } else {
      assert d.calls - {t.id} == d.calls;
    }
  }

  /** The log only grows. */
  ghost predicate Grows(a: seq<Settlement>, b: seq<Settlement>) {
    |a| <= |b| && forall i :: 0 <= i < |a| ==> b[i] == a[i]
  }

  /** What rejecting the first `n` ids leaves behind. */
  ghost predicate Rejected(l: Limits, d: Driver, n: nat, t: Driver) {
    && Inv(l, t)
    && t.seqNo == d.seqNo && t.now == d.now && t.tools == d.tools && t.suspended == d.suspended
    && (forall id :: id in t.pending <==> id in d.pending && id > n)
    && Grows(d.settled, t.settled)
    && (forall i :: |d.settled| <= i < |t.settled| ==> t.settled[i].cause == AgentExited && t.settled[i].id in d.pending)
  }

  lemma {:induction false} RejectKeepsInv(l: Limits, d: Driver, n: nat)
    requires Inv(l, d)
    ensures Rejected(l, d, n, RejectUpTo(d, n))
  {
    if n > 0 {
      RejectKeepsInv(l, d, n - 1);
      var e := RejectUpTo(d, n - 1);
      if n in e.pending {
        var s := Settlement(n, AgentExited, e.now);
        SettleSettles(e, n, AgentExited);
        SettlesKeepsInv(l, e, n, s, Settle(e, n, AgentExited));
        RejectOne(l, d, n, e, s, Settle(e, n, AgentExited));
      }
    }
  }

  lemma RejectOne(l: Limits, d: Driver, n: nat, e: Driver, s: Settlement, t: Driver)
    requires n > 0 && Rejected(l, d, n - 1, e) && Settles(e, n, s, t) && s.cause == AgentExited && Inv(l, t)
    ensures Rejected(l, d, n, t)
  {
  }

  /** An exit leaves nothing pending, no timer and no hook. */
  lemma ExitClears(l: Limits, d: Driver)
    requires Inv(l, d)
    ensures var t := Step(l, d, Exit);
            && Inv(l, t) && t.pending == map[] && t.calls == map[] && t.caps == map[] && t.silence == map[] && t.hook.None?
            && t.seqNo == d.seqNo && t.now == d.now && t.suspended == d.suspended
            && Grows(d.settled, t.settled)
            && (forall i :: |d.settled| <= i < |t.settled| ==> t.settled[i].cause == AgentExited && t.settled[i].id in d.pending)
  {
    RejectKeepsInv(l, d, d.seqNo);
    var t := Step(l, d, Exit);
    NothingPending(t);
  }

  lemma NothingPending(d: Driver)
    requires Watched(d) && forall id :: id !in d.pending
    ensures d.pending == map[] && d.calls == map[] && d.caps == map[] && d.silence == map[] && d.hook.None?
  {
    assert forall id :: id !in d.calls && id !in d.caps && id !in d.silence;
  }

  lemma FreshId(pending: map<nat, Request>, seqNo: nat, settled: seq<Settlement>, r: Request)
    requires SettledOnce(pending, seqNo, settled)
    ensures SettledOnce(pending[seqNo + 1 := r], seqNo + 1, settled)
  {
    assert !IsSettled(settled, seqNo + 1);
  }

  lemma CallKeepsInv(l: Limits, d: Driver, timeout: nat)
    requires Inv(l, d)
    ensures Inv(l, StartCall(d, timeout))
  {
    FreshId(d.pending, d.seqNo, d.settled, Call);
  }

  lemma TurnKeepsInv(l: Limits, d: Driver)
    requires Inv(l, d)
    ensures Inv(l, StartTurn(l, d))
  {
    FreshId(d.pending, d.seqNo, d.settled, Turn);
    TurnKeepsWatched(l, d);
    TurnKeepsOnTime(l, d);
  }

  lemma TurnKeepsOnTime(l: Limits, d: Driver)
    requires OnTime(l, d)
    ensures OnTime(l, StartTurn(l, d))
  {
  }

  lemma TurnKeepsWatched(l: Limits, d: Driver)
    requires Watched(d) && (forall id :: id in d.pending ==> id <= d.seqNo)
    ensures Watched(StartTurn(l, d))
  {
  }

  /** A notification touches nothing but the tool set and the hooked turn's window and flag; the window,
      if armed afterwards, is a fresh one or the one that was running. */
  ghost predicate TouchesHook(l: Limits, d: Driver, t: Driver) {
    && t == d.(silence := t.silence, suspended := t.suspended, tools := t.tools)
    && (forall id :: d.hook != Some(id) ==>
          && (id in t.silence <==> id in d.silence)
          && (id in t.silence ==> t.silence[id] == d.silence[id])
          && (id in t.suspended <==> id in d.suspended))
    && (d.hook.Some? ==>
          var h := d.hook.value;
          && (h in t.silence ==> h !in t.suspended)
          && (h in t.silence ==> t.silence[h] == d.now + l.silence || (h in d.silence && t.silence[h] == d.silence[h])))
  }

  lemma ArmTouches(l: Limits, d: Driver)
    requires Watched(d) && d.hook.Some?
    ensures TouchesHook(l, d, ArmSilence(l, d, d.hook.value))
  {
  }

  lemma TrackTouches(l: Limits, d: Driver, tool: Option<ToolId>, terminal: bool)
    requires forall id :: id in d.silence ==> id !in d.suspended
    ensures TouchesHook(l, d, TrackToolCall(l, d, tool, terminal))
  {
  }

  lemma NotificationTouches(l: Limits, d: Driver, ours: bool, u: Update)
    requires Watched(d)
    ensures TouchesHook(l, d, HandleNotification(l, d, ours, u))
  {
    var bumped := if ours && d.hook.Some? then ArmSilence(l, d, d.hook.value) else d;
    if ours && d.hook.Some? {
      ArmTouches(l, d);
    }
    if u.ToolCall? {
      TrackTouches(l, bumped, u.id, u.terminal);
    }
  }

  lemma NotificationKeepsInv(l: Limits, d: Driver, t: Driver)
    requires Inv(l, d) && TouchesHook(l, d, t) && (forall id :: id in t.suspended ==> id in d.suspended || d.hook == Some(id))
    ensures Inv(l, t)
  {
  }

  /** What the clock may pass. */
  lemma AdvanceBound(d: Driver, dt: nat)
    requires Possible(d, Advance(dt))
    ensures forall id :: id in d.calls ==> d.now + dt <= d.calls[id]
    ensures forall id :: id in d.caps ==> d.now + dt <= d.caps[id]
    ensures forall id :: id in d.silence ==> d.now + dt <= d.silence[id]
  {
    forall id | id in d.calls
      ensures d.now + dt <= d.calls[id]
    {
      assert Armed(d, CallTimer(id));
    }
    forall id | id in d.caps
      ensures d.now + dt <= d.caps[id]
    {
      assert Armed(d, CapTimer(id));
    }
    forall id | id in d.silence
      ensures d.now + dt <= d.silence[id]
    {
      assert Armed(d, SilenceTimer(id));
    }
  }

  lemma AdvanceKeepsInv(l: Limits, d: Driver, dt: nat)
    requires Inv(l, d) && Possible(d, Advance(dt))
    ensures Inv(l, d.(now := d.now + dt))
  {
    AdvanceBound(d, dt);
  }

  lemma StepKeepsInv(l: Limits, d: Driver, e: Event)
    requires Inv(l, d) && Possible(d, e)
    ensures Inv(l, Step(l, d, e))
  {
    match e
    case Send(timeout) => CallKeepsInv(l, d, timeout);
    case SendTurn => TurnKeepsInv(l, d);
    case Response(id, failed) =>
      if id in d.pending {
        SettleSettles(d, id, Answered(failed));
        SettlesKeepsInv(l, d, id, Settlement(id, Answered(failed), d.now), Step(l, d, e));
      }
    case Notification(ours, u) =>
      NotificationTouches(l, d, ours, u);
      NotificationKeepsInv(l, d, HandleNotification(l, d, ours, u));
    case Fire(t) =>
      FireSettles(l, d, t);
      SettlesKeepsInv(l, d, t.id, Settlement(t.id, CauseOf(t), d.now), Step(l, d, e));
    case Exit => ExitClears(l, d);
    case Advance(dt) => AdvanceKeepsInv(l, d, dt);
  }

  /** What each event may settle: a response its own id, a timer its own request, an exit whatever is
      pending, anything else nothing. */
  predicate MaySettle(e: Event, s: Settlement) {
    match e
    case Response(id, failed) => s.id == id && s.cause == Answered(failed)
    case Fire(t) => s.id == t.id && s.cause == CauseOf(t)
    case Exit => s.cause == AgentExited
    case _ => false
  }

  predicate Caused(es: seq<Event>, s: Settlement) {
    exists e :: e in es && MaySettle(e, s)
  }

  lemma CausedLater(es: seq<Event>, s: Settlement)
    requires es != [] && Caused(es[1..], s)
    ensures Caused(es, s)
  {
    var e :| e in es[1..] && MaySettle(e, s);
    assert e in es;
  }

  lemma StepSettles(l: Limits, d: Driver, e: Event)
    requires Inv(l, d) && Possible(d, e)
    ensures var t := Step(l, d, e);
            && Grows(d.settled, t.settled)
            && (forall i :: |d.settled| <= i < |t.settled| ==> MaySettle(e, t.settled[i]) && t.settled[i].id in d.pending)
  {
    match e
    case Exit => ExitClears(l, d);
    case Notification(ours, u) => NotificationTouches(l, d, ours, u);
    case Fire(t) => FireSettles(l, d, t);
    case _ =>
  }

  /** Over every run: a settlement, once logged, stands; each new one is the only one for its id and was
      made by a response to that id, by a timer of that request, or by the agent's exit. */
  lemma {:induction false} SettlesExactlyOnce(l: Limits, d: Driver, es: seq<Event>, t: Driver)
    requires Inv(l, d) && Runs(l, d, es, t)
    ensures Inv(l, t) && Grows(d.settled, t.settled) && NoRepeats(t.settled)
    ensures forall i :: |d.settled| <= i < |t.settled| ==> Caused(es, t.settled[i])
    decreases |es|
  {
    if es != [] {
      var next := Step(l, d, es[0]);
      StepKeepsInv(l, d, es[0]);
      StepSettles(l, d, es[0]);
      SettlesExactlyOnce(l, next, es[1..], t);
      forall i | |d.settled| <= i < |t.settled|
        ensures Caused(es, t.settled[i])
      {
        if i < |next.settled| {
          assert es[0] in es && MaySettle(es[0], t.settled[i]);
        } else {
          CausedLater(es, t.settled[i]);
        }
      }
    }
  }

  // ---------------------------------------------------------------------------------------------
  // The hard cap

  lemma StepKeepsCap(l: Limits, d: Driver, e: Event, id: nat)
    requires Inv(l, d) && Possible(d, e) && id <= d.seqNo && id in Step(l, d, e).caps
    ensures id in d.caps && Step(l, d, e).caps[id] == d.caps[id]
  {
    match e
    case Notification(ours, u) => NotificationTouches(l, d, ours, u);
    case Exit => ExitClears(l, d);
    case Response(rid, failed) =>
      if rid in d.pending {
        SettleSettles(d, rid, Answered(failed));
      }
    case _ =>
  }

  /** A turn that is still pending has its hard cap armed at the deadline it was given at the start, and
      that deadline has not passed: every turn settles by its hard cap at the latest. */
  lemma {:induction false} SettledByHardCap(l: Limits, d: Driver, es: seq<Event>, t: Driver, id: nat)
    requires Inv(l, d) && Runs(l, d, es, t) && id <= d.seqNo
    requires id in t.pending && t.pending[id].Turn?
    ensures id in d.caps && id in t.caps && t.caps[id] == d.caps[id] && t.now <= d.caps[id]
    decreases |es|
  {
    if es == [] {
    } else {
      var next := Step(l, d, es[0]);
      StepKeepsInv(l, d, es[0]);
      StepKeepsSeqNo(l, d, es[0]);
      SettledByHardCap(l, next, es[1..], t, id);
      StepKeepsCap(l, d, es[0], id);
    }
  }

  lemma StepKeepsSeqNo(l: Limits, d: Driver, e: Event)
    requires Inv(l, d)
    ensures d.seqNo <= Step(l, d, e).seqNo && d.now <= Step(l, d, e).now
  {
    if e.Exit? {
      ExitClears(l, d);
    } else if e.Notification? {
      NotificationTouches(l, d, e.ours, e.update);
    }
  }

  /** A fresh turn's hard cap and silence window. */
  lemma TurnStartsWatched(l: Limits, d: Driver)
    requires Inv(l, d) && !d.exited
    ensures var t := Step(l, d, SendTurn); var id := t.seqNo;
            id in t.pending && t.caps[id] == d.now + l.cap && id in t.silence && t.silence[id] == d.now + l.silence
  {
  }

  /** The clock is never stuck: time can pass, or a timer is due. */
  lemma ClockOrTimer(l: Limits, d: Driver)
    requires Inv(l, d)
    ensures Possible(d, Advance(1)) || exists t :: Armed(d, t) && Possible(d, Fire(t))
  {
    if !Possible(d, Advance(1)) {
      var t :| Armed(d, t) && Deadline(d, t) < d.now + 1;
      assert d.now <= Deadline(d, t);
      assert Possible(d, Fire(t));
    }
  }

  /** A response settles what is pending under its id, with all that watches it, and nothing else. */
  lemma ResponseSettles(l: Limits, d: Driver, id: nat, failed: bool)
    requires Inv(l, d)
    ensures var t := Step(l, d, Response(id, failed));
            if id in d.pending then Settles(d, id, Settlement(id, Answered(failed), d.now), t) else t == d
  {
    if id in d.pending {
      SettleSettles(d, id, Answered(failed));
    }
  }

  /** A call is watched for its own timeout, and one that is still pending has not reached it. */
  lemma {:induction false} SettledByTimeout(l: Limits, d: Driver, timeout: nat, es: seq<Event>, t: Driver)
    requires Inv(l, d) && !d.exited && Runs(l, Step(l, d, Send(timeout)), es, t)
    ensures var id := d.seqNo + 1;
            id in t.pending ==> id in t.calls && t.calls[id] == d.now + timeout && t.now <= d.now + timeout
  {
    StepKeepsInv(l, d, Send(timeout));
    RunKeepsDeadline(l, Step(l, d, Send(timeout)), es, t, d.seqNo + 1);
  }

  lemma {:induction false} RunKeepsDeadline(l: Limits, d: Driver, es: seq<Event>, t: Driver, id: nat)
    requires Inv(l, d) && Runs(l, d, es, t) && id in d.calls
    ensures id in t.pending ==> id in t.calls && t.calls[id] == d.calls[id] && t.now <= d.calls[id]
    decreases |es|
  {
    if es != [] {
      StepKeepsInv(l, d, es[0]);
      StepKeepsDeadline(l, d, es[0], id);
      if id in Step(l, d, es[0]).pending {
        RunKeepsDeadline(l, Step(l, d, es[0]), es[1..], t, id);
      } else {
        StepKeepsSeqNo(l, d, es[0]);
        StaysGone(l, Step(l, d, es[0]), es[1..], t, id);
      }
    }
  }

  lemma StepKeepsDeadline(l: Limits, d: Driver, e: Event, id: nat)
    requires Inv(l, d) && Possible(d, e) && id in d.calls
    ensures var t := Step(l, d, e); id in t.pending ==> id in t.calls && t.calls[id] == d.calls[id]
  {
    match e
    case Exit => ExitClears(l, d);
    case Notification(ours, u) => NotificationTouches(l, d, ours, u);
    case Response(rid, failed) => ResponseSettles(l, d, rid, failed);
    case Fire(t) => FireSettles(l, d, t);
    case _ =>
  }

  /** An id that was handed out and is no longer pending never is again. */
  lemma {:induction false} StaysGone(l: Limits, d: Driver, es: seq<Event>, t: Driver, id: nat)
    requires Inv(l, d) && Runs(l, d, es, t) && id <= d.seqNo && id !in d.pending
    ensures id !in t.pending
    decreases |es|
  {
    if es != [] {
      StepKeepsInv(l, d, es[0]);
      StepKeepsSeqNo(l, d, es[0]);
      if es[0].Exit? {
        ExitClears(l, d);
      } else if es[0].Notification? {
        NotificationTouches(l, d, es[0].ours, es[0].update);
      }
      StaysGone(l, Step(l, d, es[0]), es[1..], t, id);
    }
  }

  /** Once the agent has exited, whatever is sent or received: nothing is pending and nothing settles. */
  lemma {:induction false} NothingAfterExit(l: Limits, d: Driver, es: seq<Event>, t: Driver)
    requires Inv(l, d) && Runs(l, Step(l, d, Exit), es, t)
    ensures t.exited && t.pending == map[] && t.settled == Step(l, d, Exit).settled
  {
    ExitClears(l, d);
    NothingOnceExited(l, Step(l, d, Exit), es, t);
  }

  lemma {:induction false} NothingOnceExited(l: Limits, d: Driver, es: seq<Event>, t: Driver)
    requires Inv(l, d) && d.exited && d.pending == map[] && Runs(l, d, es, t)
    ensures t.exited && t.pending == map[] && t.settled == d.settled
    decreases |es|
  {
    if es != [] {
      NothingPending(d);
      StepKeepsInv(l, d, es[0]);
      if es[0].Exit? {
        RejectsNothing(d, d.seqNo);
      } else if es[0].Notification? {
        NotificationTouches(l, d, es[0].ours, es[0].update);
      }
      NothingOnceExited(l, Step(l, d, es[0]), es[1..], t);
    }
  }

  lemma {:induction false} RejectsNothing(d: Driver, n: nat)
    requires d.pending == map[]
    ensures RejectUpTo(d, n) == d
  {
    if n > 0 {
      RejectsNothing(d, n - 1);
    }
  }

  // ---------------------------------------------------------------------------------------------
  // Which tool calls are outstanding

  /** A status of this tool call that is not terminal, of whatever session. */
  predicate Opens(e: Event, tool: ToolId) {
    e.Notification? && e.update == ToolCall(Some(tool), false)
  }

  /** A terminal status of this tool call, or the start of a turn, which counts none as its own. */
  predicate Forgets(exited: bool, e: Event, tool: ToolId) {
    (e.Notification? && e.update == ToolCall(Some(tool), true)) || (e.SendTurn? && !exited)
  }

  predicate NeverForgotten(exited: bool, es: seq<Event>, tool: ToolId)
    decreases |es|
  {
    es == [] || (!Forgets(exited, es[0], tool) && NeverForgotten(exited || es[0].Exit?, es[1..], tool))
  }

  /** Event `k` opened the call, and nothing after it closed it. */
  predicate OpenSince(exited: bool, es: seq<Event>, tool: ToolId, k: nat)
    requires k < |es|
  {
    Opens(es[k], tool) && NeverForgotten(exited || Exit in es[..k], es[k + 1..], tool)
  }

  lemma NotificationTools(l: Limits, d: Driver, ours: bool, u: Update)
    ensures var t := HandleNotification(l, d, ours, u);
            && t.exited == d.exited
            && t.tools == (if u.OtherUpdate? || u.id.None? || u.id.value == "" then d.tools
                           else if u.terminal then d.tools - {u.id.value} else d.tools + {u.id.value})
  {
    var bumped := if ours && d.hook.Some? then ArmSilence(l, d, d.hook.value) else d;
    assert bumped.tools == d.tools && bumped.exited == d.exited;
    if u.ToolCall? {
      TrackTools(l, bumped, u.id, u.terminal);
    }
  }

  lemma TrackTools(l: Limits, d: Driver, tool: Option<ToolId>, terminal: bool)
    ensures var t := TrackToolCall(l, d, tool, terminal);
            && t.exited == d.exited
            && t.tools == (if tool.None? || tool.value == "" then d.tools
                           else if terminal then d.tools - {tool.value} else d.tools + {tool.value})
  {
    if tool.Some? && tool.value != "" && d.hook.Some? {
      var tools := if terminal then d.tools - {tool.value} else d.tools + {tool.value};
      ChangeKeepsTools(l, d.(tools := tools), d.hook.value, tools != {});
    }
  }

  lemma ChangeKeepsTools(l: Limits, d: Driver, id: nat, outstanding: bool)
    ensures var t := ToolCallChange(l, d, id, outstanding); t.tools == d.tools && t.exited == d.exited
  {
  }

  /** Nothing but a notification or a fresh turn changes the tool set. */
  lemma OtherTools(l: Limits, d: Driver, e: Event)
    requires Inv(l, d) && Possible(d, e) && !e.Notification?
    ensures var t := Step(l, d, e);
            t.tools == (if e.SendTurn? && !d.exited then {} else d.tools) && (t.exited <==> d.exited || e.Exit?)
  {
    match e
    case Exit => RejectKeepsInv(l, d, d.seqNo);
    case Fire(t) => FireSettles(l, d, t);
    case Response(id, failed) => ResponseSettles(l, d, id, failed);
    case _ =>
  }

  lemma ToolAfterStep(l: Limits, d: Driver, e: Event, tool: ToolId)
    requires Inv(l, d) && Possible(d, e) && tool != ""
    ensures tool in Step(l, d, e).tools <==> Opens(e, tool) || (tool in d.tools && !Forgets(d.exited, e, tool))
    ensures Step(l, d, e).exited <==> d.exited || e.Exit?
  {
    if e.Notification? {
      NotificationTools(l, d, e.ours, e.update);
    } else {
      OtherTools(l, d, e);
    }
  }

  lemma OpenSinceOn(exited: bool, es: seq<Event>, tool: ToolId, k: nat)
    requires k + 1 < |es|
    ensures OpenSince(exited, es, tool, k + 1) <==> OpenSince(exited || es[0].Exit?, es[1..], tool, k)
  {
    assert es[..k + 1] == [es[0]] + es[1..][..k] && es[1..][k + 1..] == es[k + 2..];
  }

  /** Exactly which tool calls are outstanding after a run: those with an id that were opened, or were
      outstanding before, and have been neither closed nor forgotten at the start of a turn since. */
  lemma {:induction false} ToolsAreTheOpenOnes(l: Limits, d: Driver, es: seq<Event>, t: Driver, tool: ToolId)
    requires Inv(l, d) && Runs(l, d, es, t) && tool != ""
    ensures tool in t.tools
            <==> (tool in d.tools && NeverForgotten(d.exited, es, tool)) || exists k: nat :: k < |es| && OpenSince(d.exited, es, tool, k)
    decreases |es|
  {
    if es != [] {
      var next, rest := Step(l, d, es[0]), es[1..];
      StepKeepsInv(l, d, es[0]);
      ToolAfterStep(l, d, es[0], tool);
      ToolsAreTheOpenOnes(l, next, rest, t, tool);
      assert es[..0] == [];
      assert OpenSince(d.exited, es, tool, 0) <==> Opens(es[0], tool) && NeverForgotten(next.exited, rest, tool);
      forall k: nat | k < |rest|
        ensures OpenSince(d.exited, es, tool, k + 1) <==> OpenSince(next.exited, rest, tool, k)
      {
        OpenSinceOn(d.exited, es, tool, k);
      }
      assert forall k: nat :: 0 < k < |es| && OpenSince(d.exited, es, tool, k) ==> OpenSince(next.exited, rest, tool, k - 1);
    }
  }

  /** An update without a tool-call id changes no tool call. */
  lemma {:induction false} NoIdIsNotTracked(l: Limits, d: Driver, es: seq<Event>, t: Driver)
    requires Inv(l, d) && Runs(l, d, es, t) && "" !in d.tools
    ensures "" !in t.tools
    decreases |es|
  {
    if es != [] {
      if es[0].Notification? {
        NotificationTools(l, d, es[0].ours, es[0].update);
      } else {
        OtherTools(l, d, es[0]);
      }
      StepKeepsInv(l, d, es[0]);
      NoIdIsNotTracked(l, Step(l, d, es[0]), es[1..], t);
    }
  }

  // ---------------------------------------------------------------------------------------------
  // The hooked turn

  /** When the last outstanding tool call closes, the hooked turn gets a fresh window. */
  lemma LastCloseResumes(l: Limits, d: Driver, ours: bool, tool: ToolId, id: nat)
    requires Inv(l, d) && HookTracked(d) && d.hook == Some(id) && d.tools == {tool} && tool != ""
    ensures var t := Step(l, d, Notification(ours, ToolCall(Some(tool), true)));
            t.tools == {} && id !in t.suspended && id in t.silence && t.silence[id] == d.now + l.silence
  {
  }

  predicate Stirs(e: Event) {
    e.Notification? && (e.ours || e.update.ToolCall?)
  }

  /** A silence window does run out: as long as no update of the session and no tool call arrives, a turn
      that stays pending keeps the deadline it has, and time does not get past it. */
  lemma {:induction false} QuietTurnTimesOut(l: Limits, d: Driver, es: seq<Event>, t: Driver, id: nat)
    requires Inv(l, d) && Runs(l, d, es, t) && id in d.silence && id in t.pending
    requires forall e :: e in es ==> !Stirs(e)
    ensures id in t.silence && t.silence[id] == d.silence[id] && t.now <= d.silence[id]
    decreases |es|
  {
    if es != [] {
      assert es[0] in es;
      StepKeepsInv(l, d, es[0]);
      StepKeepsSeqNo(l, d, es[0]);
      if id in Step(l, d, es[0]).pending {
        StepKeepsWindow(l, d, es[0], id);
        QuietTurnTimesOut(l, Step(l, d, es[0]), es[1..], t, id);
      } else {
        StaysGone(l, Step(l, d, es[0]), es[1..], t, id);
      }
    }
  }

  lemma StepKeepsWindow(l: Limits, d: Driver, e: Event, id: nat)
    requires Inv(l, d) && Possible(d, e) && !Stirs(e) && id in d.silence && id in Step(l, d, e).pending
    ensures var t := Step(l, d, e); id in t.silence && t.silence[id] == d.silence[id]
  {
    match e
    case Exit => ExitClears(l, d);
    case Response(rid, failed) => ResponseSettles(l, d, rid, failed);
    case Fire(t) => FireSettles(l, d, t);
    case _ =>
  }

  /** The hooked turn's silence window is armed exactly while no tool call is outstanding. */
  ghost predicate HookTracked(d: Driver) {
    d.hook.Some? ==> (d.hook.value in d.silence <==> d.tools == {}) && (d.hook.value in d.suspended <==> d.tools != {})
  }

  lemma StepKeepsTracked(l: Limits, d: Driver, e: Event)
    requires Inv(l, d) && Possible(d, e) && HookTracked(d)
    ensures HookTracked(Step(l, d, e))
  {
    match e
    case Exit => ExitClears(l, d);
    case Notification(ours, u) => NotificationKeepsTracked(l, d, ours, u);
    case Response(id, failed) =>
      if id in d.pending {
        SettleSettles(d, id, Answered(failed));
      }
    case Fire(t) => FireSettles(l, d, t);
    case _ =>
  }

  lemma TrackKeepsTracked(l: Limits, d: Driver, tool: Option<ToolId>, terminal: bool)
    requires HookTracked(d)
    ensures HookTracked(TrackToolCall(l, d, tool, terminal))
  {
  }

  lemma NotificationKeepsTracked(l: Limits, d: Driver, ours: bool, u: Update)
    requires HookTracked(d)
    ensures HookTracked(HandleNotification(l, d, ours, u))
  {
    var bumped := if ours && d.hook.Some? then ArmSilence(l, d, d.hook.value) else d;
    if u.ToolCall? {
      TrackKeepsTracked(l, bumped, u.id, u.terminal);
    }
  }

  /** Over every run, overlapping turns included: the hooked turn's hard cap is armed, and its silence window
      is armed if and only if no tool call is outstanding. */
  lemma {:induction false} HookedTurnIsTracked(l: Limits, d: Driver, es: seq<Event>, t: Driver)
    requires Inv(l, d) && HookTracked(d) && Runs(l, d, es, t)
    ensures Inv(l, t) && HookTracked(t)
    ensures t.hook.Some? ==> t.hook.value in t.caps && (t.hook.value in t.silence <==> t.tools == {})
    decreases |es|
  {
    if es != [] {
      StepKeepsInv(l, d, es[0]);
      StepKeepsTracked(l, d, es[0]);
      HookedTurnIsTracked(l, Step(l, d, es[0]), es[1..], t);
    }
  }

  predicate NoTurn(d: Driver) {
    forall id :: id in d.pending ==> d.pending[id].Call?
  }

  /** No turn is started while another is pending. */
  ghost predicate OneAtATime(l: Limits, d: Driver, es: seq<Event>)
    decreases |es|
  {
    es != [] ==> (es[0].SendTurn? ==> NoTurn(d)) && OneAtATime(l, Step(l, d, es[0]), es[1..])
  }

  /** Every pending turn is the hooked one. */
  ghost predicate AllHooked(d: Driver) {
    forall id :: id in d.caps ==> d.hook == Some(id)
  }

  lemma StepKeepsHooked(l: Limits, d: Driver, e: Event)
    requires Inv(l, d) && Possible(d, e) && AllHooked(d) && (e.SendTurn? ==> NoTurn(d))
    ensures AllHooked(Step(l, d, e))
  {
    match e
    case Exit => ExitClears(l, d);
    case Notification(ours, u) => NotificationTouches(l, d, ours, u);
    case Response(id, failed) =>
      if id in d.pending {
        SettleSettles(d, id, Answered(failed));
      }
    case Fire(t) => FireSettles(l, d, t);
    case _ =>
  }

  /** With one turn in flight at a time that is every pending turn; and when none is pending, no hook and
      no turn timer is left. */
  lemma {:induction false} SilenceIffNoToolCall(l: Limits, d: Driver, es: seq<Event>, t: Driver)
    requires Inv(l, d) && HookTracked(d) && AllHooked(d) && Runs(l, d, es, t) && OneAtATime(l, d, es)
    ensures AllHooked(t)
    ensures NoTurn(t) ==> t.hook.None? && t.silence == map[] && t.caps == map[]
    ensures forall id :: id in t.pending && t.pending[id].Turn? ==> id in t.caps && (id in t.silence <==> t.tools == {})
    decreases |es|
  {
    if es != [] {
      StepKeepsInv(l, d, es[0]);
      StepKeepsTracked(l, d, es[0]);
      StepKeepsHooked(l, d, es[0]);
      SilenceIffNoToolCall(l, Step(l, d, es[0]), es[1..], t);
    }
  }

  predicate Live(e: Event) {
    e.Notification? && e.ours
  }

  /** No tool call is outstanding in any state of the run, and no update of the session arrives. */
  ghost predicate Quiet(l: Limits, d: Driver, es: seq<Event>)
    decreases |es|
  {
    d.tools == {} && (es != [] ==> !Live(es[0]) && Quiet(l, Step(l, d, es[0]), es[1..]))
  }

  /** Any silence deadline of the turn is at least `m`. */
  predicate NotBefore(d: Driver, id: nat, m: nat) {
    id in d.silence ==> m <= d.silence[id]
  }

  /** A window is only ever armed from now on, so a lower bound on its deadline is kept. */
  lemma StepKeepsNotBefore(l: Limits, d: Driver, e: Event, id: nat, m: nat)
    requires Inv(l, d) && NotBefore(d, id, m) && m <= d.now + l.silence
    ensures NotBefore(Step(l, d, e), id, m)
  {
    match e
    case Exit => ExitClears(l, d);
    case Notification(ours, u) => NotificationTouches(l, d, ours, u);
    case Response(rid, failed) =>
      if rid in d.pending {
        SettleSettles(d, rid, Answered(failed));
      }
    case _ =>
  }

  lemma {:induction false} RunKeepsNotBefore(l: Limits, d: Driver, es: seq<Event>, t: Driver, id: nat, m: nat)
    requires Inv(l, d) && Runs(l, d, es, t) && NotBefore(d, id, m) && m <= d.now + l.silence
    ensures NotBefore(t, id, m)
    decreases |es|
  {
    if es != [] {
      StepKeepsInv(l, d, es[0]);
      StepKeepsSeqNo(l, d, es[0]);
      StepKeepsNotBefore(l, d, es[0], id, m);
      RunKeepsNotBefore(l, Step(l, d, es[0]), es[1..], t, id, m);
    }
  }

  /** After a live update the hooked turn's window, if armed at all, runs a full silence period. */
  lemma LiveUpdateRenews(l: Limits, d: Driver, e: Event, id: nat)
    requires Inv(l, d) && HookTracked(d) && Live(e) && d.hook == Some(id)
    ensures NotBefore(Step(l, d, e), id, d.now + l.silence) && Step(l, d, e).now == d.now
  {
  }

  /** A turn that is hooked at the end of a run was hooked at its beginning or started on the way. */
  lemma {:induction false} HookIsNotRegained(l: Limits, d: Driver, es: seq<Event>, t: Driver, id: nat)
    requires Inv(l, d) && Runs(l, d, es, t) && id <= d.seqNo && d.hook != Some(id)
    ensures t.hook != Some(id)
    decreases |es|
  {
    if es != [] {
      StepKeepsInv(l, d, es[0]);
      StepKeepsSeqNo(l, d, es[0]);
      StepKeepsFrozen(l, d, es[0], id);
      HookIsNotRegained(l, Step(l, d, es[0]), es[1..], t, id);
    }
  }

  /** A silence timeout of the hooked turn is never premature, whatever other turns overlapped it: when its
      window expires at time t, then from any point later than t minus the silence period until t there
      was no update of the session and no outstanding tool call. */
  lemma {:induction false} SilenceTimeoutMeansQuiet(l: Limits, d: Driver, es: seq<Event>, t: Driver, id: nat)
    requires Inv(l, d) && HookTracked(d) && Runs(l, d, es, t) && t.hook == Some(id)
    requires id in t.silence && t.silence[id] == t.now
    requires t.now < d.now + l.silence
    ensures Quiet(l, d, es)
    decreases |es|
  {
    var m := d.now + l.silence;
    if d.hook != Some(id) {
      if id <= d.seqNo {
        HookIsNotRegained(l, d, es, t, id);
      } else {
        RunKeepsNotBefore(l, d, es, t, id, m);
      }
      assert false;
    }
    if d.tools != {} || (es != [] && Live(es[0])) {
      if d.tools != {} {
        RunKeepsNotBefore(l, d, es, t, id, m);
      } else {
        LiveUpdateRenews(l, d, es[0], id);
        StepKeepsInv(l, d, es[0]);
        RunKeepsNotBefore(l, Step(l, d, es[0]), es[1..], t, id, m);
      }
      assert false;
    }
    if es != [] {
      StepKeepsInv(l, d, es[0]);
      StepKeepsTracked(l, d, es[0]);
      StepKeepsSeqNo(l, d, es[0]);
      SilenceTimeoutMeansQuiet(l, Step(l, d, es[0]), es[1..], t, id);
    }
  }

  // ---------------------------------------------------------------------------------------------
  // Overlapping turns

  /** A turn that another one has displaced from the hook is never renewed, suspended or resumed again:
      as long as it is pending, its window is armed if it was, with the deadline it had. */
  lemma {:induction false} DisplacedTurnIsFrozen(l: Limits, d: Driver, es: seq<Event>, t: Driver, id: nat)
    requires Inv(l, d) && Runs(l, d, es, t) && id <= d.seqNo && d.hook != Some(id)
    ensures id in t.silence ==> id in d.silence && t.silence[id] == d.silence[id]
    ensures id in t.caps ==> id in d.caps && (id in t.silence <==> id in d.silence)
    ensures id in t.suspended <==> id in d.suspended
    decreases |es|
  {
    if es != [] {
      var next := Step(l, d, es[0]);
      StepKeepsInv(l, d, es[0]);
      StepKeepsSeqNo(l, d, es[0]);
      StepKeepsFrozen(l, d, es[0], id);
      DisplacedTurnIsFrozen(l, next, es[1..], t, id);
      if id in next.caps {
        StepKeepsCap(l, d, es[0], id);
      }
    }
  }

  lemma StepKeepsFrozen(l: Limits, d: Driver, e: Event, id: nat)
    requires Inv(l, d) && id <= d.seqNo && d.hook != Some(id)
    ensures var t := Step(l, d, e);
            && t.hook != Some(id)
            && (id in t.silence ==> id in d.silence && t.silence[id] == d.silence[id])
            && (id in t.caps ==> (id in t.silence <==> id in d.silence))
            && (id in t.suspended <==> id in d.suspended)
  {
    match e
    case Exit => ExitClears(l, d);
    case Notification(ours, u) => NotificationTouches(l, d, ours, u);
    case Response(rid, failed) =>
      if rid in d.pending {
        SettleSettles(d, rid, Answered(failed));
      }
    case _ =>
  }

  /** The state before event `k` of a run. */
  function Before(l: Limits, d: Driver, es: seq<Event>, k: nat): Driver
    requires k <= |es|
    decreases k
  {
    if k == 0 then d else Before(l, Step(l, d, es[0]), es[1..], k - 1)
  }

  /** The turn was hooked before event `k`, which started another turn; since then its window is what it
      was, armed if and only if no tool call was outstanding at that moment. */
  ghost predicate DisplacedAt(l: Limits, d: Driver, es: seq<Event>, t: Driver, id: nat, k: nat) {
    && k < |es| && es[k].SendTurn?
    && var m := Before(l, d, es, k);
       && m.hook == Some(id)
       && (id in t.silence <==> m.tools == {})
       && (id in t.silence ==> id in m.silence && t.silence[id] == m.silence[id])
  }

  /** The account of every pending turn, overlaps included: it is the hooked one, with its window armed if
      and only if no tool call is outstanding; or another turn displaced it, and its window stands as it
      did then. */
  lemma {:induction false} PendingTurnAccount(l: Limits, d: Driver, es: seq<Event>, t: Driver, id: nat)
    requires Inv(l, d) && HookTracked(d) && Runs(l, d, es, t) && d.hook == Some(id) && id in t.caps
    ensures t.hook == Some(id) ==> (id in t.silence <==> t.tools == {})
    ensures t.hook != Some(id) ==> exists k: nat :: DisplacedAt(l, d, es, t, id, k)
    decreases |es|
  {
    if es != [] {
      var next := Step(l, d, es[0]);
      StepKeepsInv(l, d, es[0]);
      StepKeepsTracked(l, d, es[0]);
      StepKeepsSeqNo(l, d, es[0]);
      if next.hook == Some(id) {
        PendingTurnAccount(l, next, es[1..], t, id);
        if k: nat :| DisplacedAt(l, next, es[1..], t, id, k) {
          assert DisplacedAt(l, d, es, t, id, k + 1);
        }
      } else {
        RunKeepsNoCap(l, next, es[1..], t, id);
        LosesHook(l, d, es[0], id);
        DisplacedTurnIsFrozen(l, next, es[1..], t, id);
        HookIsNotRegained(l, next, es[1..], t, id);
        assert DisplacedAt(l, d, es, t, id, 0);
      }
    }
  }

  /** A settled turn does not come back. */
  lemma {:induction false} RunKeepsNoCap(l: Limits, d: Driver, es: seq<Event>, t: Driver, id: nat)
    requires Inv(l, d) && Runs(l, d, es, t) && id <= d.seqNo && id in t.caps
    ensures id in d.caps
    decreases |es|
  {
    if es != [] {
      StepKeepsInv(l, d, es[0]);
      StepKeepsSeqNo(l, d, es[0]);
      RunKeepsNoCap(l, Step(l, d, es[0]), es[1..], t, id);
      StepKeepsCap(l, d, es[0], id);
    }
  }

  /** A turn that loses the hook and stays pending lost it to a new turn, which left its window alone. */
  lemma LosesHook(l: Limits, d: Driver, e: Event, id: nat)
    requires Inv(l, d) && Possible(d, e) && d.hook == Some(id)
    requires Step(l, d, e).hook != Some(id) && id in Step(l, d, e).caps
    ensures e.SendTurn?
    ensures var t := Step(l, d, e); (id in t.silence <==> id in d.silence) && (id in t.silence ==> t.silence[id] == d.silence[id])
  {
    match e
    case Exit => ExitClears(l, d);
    case Notification(ours, u) => NotificationTouches(l, d, ours, u);
    case Response(rid, failed) =>
      if rid in d.pending {
        SettleSettles(d, rid, Answered(failed));
      }
    case Fire(t) => FireSettles(l, d, t);
    case _ =>
  }

  /** For instance: a second turn sent while the first waits on a tool call leaves the first suspended
      although no tool call is outstanding any more. */
  lemma OverlapBreaksTracking(l: Limits)
    ensures var open := Notification(true, ToolCall(Some("t"), false));
            var d := Step(l, Step(l, Step(l, IDLE, SendTurn), open), SendTurn);
            1 in d.pending && d.tools == {} && 1 !in d.silence && d.hook == Some(2)
  {
    var d1 := Step(l, IDLE, SendTurn);
    var d2 := Step(l, d1, Notification(true, ToolCall(Some("t"), false)));
    assert d1.hook == Some(1) && d1.tools == {};
    assert "t" in d2.tools;
  }

  // ---------------------------------------------------------------------------------------------
  // The driver object

  class AcpAgentDriver {
    const limits: Limits
    var now: nat
    var seqNo: nat
    var pending: map<nat, Request>
    var callTimers: map<nat, nat>
    var hardCapTimers: map<nat, nat>
    var silenceTimers: map<nat, nat>
    var toolCallOutstanding: set<nat>
    var hook: Option<nat>
    var outstandingToolCalls: set<ToolId>
    var exited: bool
    var settled: seq<Settlement>

    ghost function View(): Driver
      reads this
    {
      Driver(now, seqNo, pending, callTimers, hardCapTimers, silenceTimers, toolCallOutstanding, hook,
             outstandingToolCalls, exited, settled)
    }

    constructor (limits: Limits)
      ensures View() == IDLE && this.limits == limits
    {
      this.limits := limits;
      now, seqNo, pending, callTimers, hardCapTimers, silenceTimers := 0, 0, map[], map[], map[], map[];
      toolCallOutstanding, hook, outstandingToolCalls, exited, settled := {}, None, {}, false, [];
    }

    method ArmTurnSilence(id: nat)
      modifies this`silenceTimers
      ensures View() == ArmSilence(limits, old(View()), id)
    {
      if id in toolCallOutstanding {
        return;
      }
      silenceTimers := silenceTimers[id := now + limits.silence];
    }

    method OnToolCallChange(id: nat, outstanding: bool)
      modifies this`silenceTimers, this`toolCallOutstanding
      ensures View() == ToolCallChange(limits, old(View()), id, outstanding)
    {
      if outstanding {
        toolCallOutstanding := toolCallOutstanding + {id};
        silenceTimers := silenceTimers - {id};
      } else {
        toolCallOutstanding := toolCallOutstanding - {id};
        ArmTurnSilence(id);
      }
    }

    method ClearTurn(id: nat)
      modifies this`silenceTimers, this`hardCapTimers, this`hook
      ensures View() == ClearAll(old(View()), id)
    {
      silenceTimers := silenceTimers - {id};
      hardCapTimers := hardCapTimers - {id};
      if hook == Some(id) {
        hook := None;
      }
    }

    method BeginTurn() returns (id: Option<nat>)
      modifies this
      ensures View() == Step(limits, old(View()), SendTurn)
      ensures id == if old(exited) then None else Some(seqNo)
    {
      if exited {
        return None;
      }
      seqNo := seqNo + 1;
      outstandingToolCalls := {};
      hardCapTimers := hardCapTimers[seqNo := now + limits.cap];
      ArmTurnSilence(seqNo);
      hook := Some(seqNo);
      pending := pending[seqNo := Turn];
      return Some(seqNo);
    }

    method BeginCall(timeout: nat) returns (id: Option<nat>)
      modifies this
      ensures View() == Step(limits, old(View()), Send(timeout))
      ensures id == if old(exited) then None else Some(seqNo)
    {
      if exited {
        return None;
      }
      seqNo := seqNo + 1;
      callTimers := callTimers[seqNo := now + timeout];
      pending := pending[seqNo := Call];
      return Some(seqNo);
    }

    method SettlePending(id: nat, cause: Cause)
      requires id in pending
      modifies this
      ensures View() == Settle(old(View()), id, cause)
    {
      if pending[id].Turn? {
        ClearTurn(id);
      } else {
        callTimers := callTimers - {id};
      }
      pending := pending - {id};
      settled := settled + [Settlement(id, cause, now)];
    }

    method ResolvePending(id: nat, failed: bool)
      modifies this
      ensures View() == Step(limits, old(View()), Response(id, failed))
    {
      if id !in pending {
        return;
      }
      SettlePending(id, Answered(failed));
    }

    method TrackTool(tool: Option<ToolId>, terminal: bool)
      modifies this
      ensures View() == TrackToolCall(limits, old(View()), tool, terminal)
      ensures outstandingToolCalls == if tool.None? || tool.value == "" then old(outstandingToolCalls)
                                      else if terminal then old(outstandingToolCalls) - {tool.value}
                                      else old(outstandingToolCalls) + {tool.value}
      // the last one to close gives the hooked turn a fresh window
      ensures hook.Some? && old(outstandingToolCalls) != {} && outstandingToolCalls == {} ==>
                && hook.value in silenceTimers && silenceTimers[hook.value] == now + limits.silence
                && hook.value !in toolCallOutstanding
    {
      if tool.None? || tool.value == "" {
        return;
      }
      var wasEmpty := outstandingToolCalls == {};
      if terminal {
        outstandingToolCalls := outstandingToolCalls - {tool.value};
      } else {
        outstandingToolCalls := outstandingToolCalls + {tool.value};
      }
      var isEmpty := outstandingToolCalls == {};
      if wasEmpty != isEmpty && hook.Some? {
        OnToolCallChange(hook.value, !isEmpty);
      }
    }

    method Notify(ours: bool, update: Update)
      modifies this
      ensures View() == Step(limits, old(View()), Notification(ours, update))
    {
      if ours && hook.Some? {
        ArmTurnSilence(hook.value);
      }
      match update {
        case ToolCall(id, terminal) => TrackTool(id, terminal);
        case OtherUpdate =>
      }
    }

    method TimerFires(timer: Timer)
      modifies this
      ensures View() == Step(limits, old(View()), Fire(timer))
    {
      match timer {
        case CallTimer(id) => callTimers := callTimers - {id};
        case SilenceTimer(id) => ClearTurn(id);
        case CapTimer(id) => ClearTurn(id);
      }
      pending := pending - {timer.id};
      settled := settled + [Settlement(timer.id, CauseOf(timer), now)];
    }

    method AgentExits()
      modifies this
      ensures View() == Step(limits, old(View()), Exit)
    {
      ghost var before := View();
      var n := 0;
      while n < seqNo
        invariant n <= seqNo && seqNo == before.seqNo
        invariant View() == RejectUpTo(before, n)
      {
        n := n + 1;
        if n in pending {
          SettlePending(n, AgentExited);
        }
      }
      exited := true;
    }
  }
}
