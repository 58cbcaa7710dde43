/**
 The convergence engine: one iteration of plan, dispatch, validate, ratchet, decide; the budgeted loop
 over it; and the same loop carried across processes by three files on disk.
 */
module Convergence {
  import opened TextLines
  import opened Wrappers

  datatype Decision = Continue | Converged | Escalate | BudgetExhausted

  /** `gap` is `None` until it is first measured. */
  datatype State = State(goalId: string, iteration: nat, gap: Option<real>, epsilon: real, pendingEscalation: bool,
                         spent: nat, cap: real, decision: Decision)

  /** Thresholds, and the identity a failure is compared under. */
  datatype Config = Config(floor: real, budgetCap: real, epsilon: real, identity: string -> string)

  type Failures = seq<string>

  /** What validation found: a scored run of the suite, or a suite that never ran. */
  datatype Reading = Ran(gap: real, confidence: real, failures: Failures) | NeverRan(gap: real)

  datatype Score = Score(gap: real, confidence: real, failures: Failures)

  /** A suite that never ran scores confidence -1 and hands back the failures its driver carried in: the
      recorded ones across processes, none in process. */
  function Validate(r: Reading, carried: Option<Failures>): Score {
    match r
    case Ran(gap, confidence, failures) => Score(gap, confidence, failures)
    case NeverRan(gap) => Score(gap, -1.0, carried.GetOr([]))
  }

  function Identities(cfg: Config, fs: Failures): set<string> {
    set f | f in fs :: cfg.identity(f)
  }

  function NewRegressions(cfg: Config, prev: Failures, curr: Failures): set<string> {
    Identities(cfg, curr) - Identities(cfg, prev)
  }

  /** The baseline turn is never ratcheted. */
  predicate Allowed(cfg: Config, prev: Option<Failures>, curr: Failures) {
    prev.None? || NewRegressions(cfg, prev.value, curr) == {}
  }

  datatype Cycle = Cycle(next: State, failures: Failures)

  function RunIteration(cfg: Config, s: State, prev: Option<Failures>, carried: Option<Failures>, r: Reading): Cycle {
    var v := Validate(r, carried);
    var spent := s.spent + 1;
    var low := v.confidence < cfg.floor;
    var decision :=
      if !Allowed(cfg, prev, v.failures) then Escalate
      else if low then Escalate
      else if v.gap <= cfg.epsilon then Converged
      else if spent as real >= cfg.budgetCap then BudgetExhausted
      else Continue;
    Cycle(s.(iteration := s.iteration + 1, gap := Some(v.gap), spent := spent, decision := decision,
             pendingEscalation := Allowed(cfg, prev, v.failures) && low),
          v.failures)
  }

  // ---------------------------------------------------------------------------------------------
  // The in-process loop

  function Ceiling(x: real): int {
    -((-x).Floor)
  }

  /** How many cycles a run from this state can still take. */
  function Budget(cfg: Config, s: State): nat {
    if s.decision != Continue then 0
    else if Ceiling(cfg.budgetCap - s.spent as real) <= 1 then 1
    else Ceiling(cfg.budgetCap - s.spent as real)
  }

  lemma BudgetShrinks(cfg: Config, s: State, prev: Option<Failures>, carried: Option<Failures>, r: Reading)
    requires s.decision.Continue?
    ensures Budget(cfg, RunIteration(cfg, s, prev, carried, r).next) < Budget(cfg, s)
  {
  }

  /** Every cycle of the run, given what validation finds at each; nothing is carried into validation. */
  function Cycles(cfg: Config, s: State, prev: Option<Failures>, env: nat -> Reading, at: nat): seq<Cycle>
    decreases Budget(cfg, s)
  {
    if !s.decision.Continue? then []
    else
      var c := RunIteration(cfg, s, prev, None, env(at));
      BudgetShrinks(cfg, s, prev, None, env(at));
      [c] + Cycles(cfg, c.next, Some(c.failures), env, at + 1)
  }

  function FinalState(s: State, cycles: seq<Cycle>): State {
    if cycles == [] then s else cycles[|cycles| - 1].next
  }

  /** The loop: it ends, within the budget, in a terminal decision. */
  method RunToConvergence(cfg: Config, initial: State, env: nat -> Reading) returns (state: State, cycles: nat)
    ensures !state.decision.Continue?
    ensures state == FinalState(initial, Cycles(cfg, initial, None, env, 0))
    ensures cycles == |Cycles(cfg, initial, None, env, 0)|
    ensures cycles == 0 || cycles == 1 || (initial.spent + cycles - 1) as real < cfg.budgetCap
  {
    state, cycles := initial, 0;
    var failures: Option<Failures> := None;
    ghost var all := Cycles(cfg, initial, None, env, 0);
    while state.decision.Continue?
      invariant cycles <= |all| && all[cycles..] == Cycles(cfg, state, failures, env, cycles)
      invariant state == FinalState(initial, all[..cycles])
      invariant state.spent == initial.spent + cycles
      invariant cycles > 0 && state.decision.Continue? ==> state.spent as real < cfg.budgetCap
      invariant cycles > 1 ==> (initial.spent + cycles - 1) as real < cfg.budgetCap
      decreases Budget(cfg, state)
    {
      var c := RunIteration(cfg, state, failures, None, env(cycles));
      BudgetShrinks(cfg, state, failures, None, env(cycles));
      assert all[cycles] == c && all[cycles + 1..] == all[cycles..][1..];
      assert all[..cycles + 1] == all[..cycles] + [c];
      state, failures, cycles := c.next, Some(c.failures), cycles + 1;
    }
    assert all[..cycles] == all;
  }

  /** At most `max(1, budgetCap - spent)` cycles, rounded up. */
  lemma {:induction false} CyclesWithinBudget(cfg: Config, s: State, prev: Option<Failures>, env: nat -> Reading, at: nat)
    ensures |Cycles(cfg, s, prev, env, at)| <= Budget(cfg, s)
    ensures s.decision.Continue? ==> !FinalState(s, Cycles(cfg, s, prev, env, at)).decision.Continue?
    decreases Budget(cfg, s)
  {
    if s.decision.Continue? {
      var c := RunIteration(cfg, s, prev, None, env(at));
      BudgetShrinks(cfg, s, prev, None, env(at));
      CyclesWithinBudget(cfg, c.next, Some(c.failures), env, at + 1);
    }
  }

  /** A regression is the one way to escalate without a proposal waiting. */
  predicate Regressed(c: Cycle) {
    c.next.decision.Escalate? && !c.next.pendingEscalation
  }

  lemma RegressedIff(cfg: Config, s: State, prev: Option<Failures>, carried: Option<Failures>, r: Reading)
    ensures Regressed(RunIteration(cfg, s, prev, carried, r)) <==> !Allowed(cfg, prev, Validate(r, carried).failures)
  {
  }

  /** Where a cycle stands in its run. */
  lemma {:induction false} CycleAt(cfg: Config, s: State, prev: Option<Failures>, env: nat -> Reading, at: nat, j: nat)
    requires j < |Cycles(cfg, s, prev, env, at)|
    ensures var cs := Cycles(cfg, s, prev, env, at);
            && cs[j] == RunIteration(cfg, if j == 0 then s else cs[j - 1].next, if j == 0 then prev else Some(cs[j - 1].failures), None, env(at + j))
            && (j + 1 < |cs| ==> cs[j].next.decision.Continue?)
    decreases Budget(cfg, s)
  {
    var c := RunIteration(cfg, s, prev, None, env(at));
    BudgetShrinks(cfg, s, prev, None, env(at));
    if j > 0 {
      CycleAt(cfg, c.next, Some(c.failures), env, at + 1, j - 1);
    }
  }

  /** Along every run the failure sets descend: each cycle that is no regression fails only where the
      one before it failed, hence only where the baseline failed. */
  lemma {:induction false} FailuresDescend(cfg: Config, s: State, prev: Option<Failures>, env: nat -> Reading, at: nat, i: nat, j: nat)
    requires i <= j < |Cycles(cfg, s, prev, env, at)| && !Regressed(Cycles(cfg, s, prev, env, at)[j])
    ensures var cs := Cycles(cfg, s, prev, env, at);
            Identities(cfg, cs[j].failures) <= Identities(cfg, cs[i].failures)
    decreases j
  {
    if i < j {
      var cs := Cycles(cfg, s, prev, env, at);
      CycleAt(cfg, s, prev, env, at, j);
      CycleAt(cfg, s, prev, env, at, j - 1);
      RegressedIff(cfg, cs[j - 1].next, Some(cs[j - 1].failures), None, env(at + j));
      NoneNew(Identities(cfg, cs[j].failures), Identities(cfg, cs[j - 1].failures));
      FailuresDescend(cfg, s, prev, env, at, i, j - 1);
    }
  }

  lemma NoneNew<T>(curr: set<T>, prev: set<T>)
    ensures curr - prev == {} ==> curr <= prev
  {
    if x :| x in curr && x !in prev {
      assert x in curr - prev;
    }
  }

  /** What a converged run has shown: the gap is closed, the confidence is not below the floor, and
      nothing fails that did not fail at the baseline. */
  lemma ConvergedMeans(cfg: Config, s: State, env: nat -> Reading, j: nat)
    requires j < |Cycles(cfg, s, None, env, 0)| && Cycles(cfg, s, None, env, 0)[j].next.decision.Converged?
    ensures var cs := Cycles(cfg, s, None, env, 0);
            && j == |cs| - 1
            && cs[j].next.gap.Some? && cs[j].next.gap.value <= cfg.epsilon
            && Validate(env(j), None).confidence >= cfg.floor
            && Identities(cfg, cs[j].failures) <= Identities(cfg, cs[0].failures)
  {
    CycleAt(cfg, s, None, env, 0, j);
    FailuresDescend(cfg, s, None, env, 0, 0, j);
  }

  /** Cycle `i` may go by: the confidence is not below the floor, and nothing fails that did not fail in the
      cycle before; the baseline is compared with nothing. */
  predicate Passes(cfg: Config, prev: Option<Failures>, env: nat -> Reading, i: nat) {
    var before := if i == 0 then prev else Some(Validate(env(i - 1), None).failures);
    && Validate(env(i), None).confidence >= cfg.floor
    && (before.Some? ==>
          forall f :: f in Validate(env(i), None).failures ==>
            exists g :: g in before.value && cfg.identity(g) == cfg.identity(f))
  }

  /** And the loop goes on after it: the gap is still open, and the budget allows another turn. */
  predicate GoesOn(cfg: Config, spent: nat, prev: Option<Failures>, env: nat -> Reading, i: nat) {
    Passes(cfg, prev, env, i) && env(i).gap > cfg.epsilon && (spent + i + 1) as real < cfg.budgetCap
  }

  lemma AllowedMeans(cfg: Config, prev: Failures, curr: Failures)
    ensures NewRegressions(cfg, prev, curr) == {}
            <==> forall f :: f in curr ==> exists g :: g in prev && cfg.identity(g) == cfg.identity(f)
  {
    if forall f :: f in curr ==> exists g :: g in prev && cfg.identity(g) == cfg.identity(f) {
      assert forall x :: x in Identities(cfg, curr) ==> x in Identities(cfg, prev);
    } else {
      var f :| f in curr && !exists g :: g in prev && cfg.identity(g) == cfg.identity(f);
      assert cfg.identity(f) in NewRegressions(cfg, prev, curr);
    }
  }

  /** What one cycle decides. */
  lemma FirstDecides(cfg: Config, s: State, prev: Option<Failures>, env: nat -> Reading)
    ensures var t := RunIteration(cfg, s, prev, None, env(0)).next;
            && (t.decision.Continue? <==> GoesOn(cfg, s.spent, prev, env, 0))
            && (!t.decision.Continue? ==>
                  t.decision == if !Passes(cfg, prev, env, 0) then Escalate
                                else if env(0).gap <= cfg.epsilon then Converged else BudgetExhausted)
            && t == s.(gap := Some(env(0).gap), spent := s.spent + 1, iteration := s.iteration + 1, decision := t.decision,
                       pendingEscalation := t.pendingEscalation)
  {
    if prev.Some? {
      AllowedMeans(cfg, prev.value, Validate(env(0), None).failures);
    }
  }

  function From(env: nat -> Reading, at: nat): nat -> Reading {
    (n: nat) => env(at + n)
  }

  lemma {:induction false} CyclesFrom(cfg: Config, s: State, prev: Option<Failures>, env: nat -> Reading, at: nat)
    ensures Cycles(cfg, s, prev, env, at + 1) == Cycles(cfg, s, prev, From(env, 1), at)
    decreases Budget(cfg, s)
  {
    if s.decision.Continue? {
      var c := RunIteration(cfg, s, prev, None, env(at + 1));
      BudgetShrinks(cfg, s, prev, None, env(at + 1));
      CyclesFrom(cfg, c.next, Some(c.failures), env, at + 1);
    }
  }

  /** What a cycle may do does not depend on where the counting starts. */
  lemma OneCycleOn(cfg: Config, spent: nat, prev: Option<Failures>, env: nat -> Reading, i: nat)
    ensures var failures := Validate(env(0), None).failures;
            && (Passes(cfg, Some(failures), From(env, 1), i) <==> Passes(cfg, prev, env, i + 1))
            && (GoesOn(cfg, spent + 1, Some(failures), From(env, 1), i) <==> GoesOn(cfg, spent, prev, env, i + 1))
  {
    assert From(env, 1)(i) == env(i + 1);
    assert i > 0 ==> From(env, 1)(i - 1) == env(i);
  }

  /** The loop is its first cycle, and then the loop on the readings after that. */
  lemma LoopBegins(cfg: Config, s: State, prev: Option<Failures>, env: nat -> Reading)
    requires s.decision.Continue?
    ensures var c := RunIteration(cfg, s, prev, None, env(0));
            var rest := Cycles(cfg, c.next, Some(c.failures), From(env, 1), 0);
            && Cycles(cfg, s, prev, env, 0) == [c] + rest
            && FinalState(s, [c] + rest) == FinalState(c.next, rest)
            && (!c.next.decision.Continue? ==> rest == [])
  {
    var c := RunIteration(cfg, s, prev, None, env(0));
    BudgetShrinks(cfg, s, prev, None, env(0));
    CyclesFrom(cfg, c.next, Some(c.failures), env, 0);
  }

  /** The outcome of the whole loop from its readings alone: if `n` is the first cycle that does not go on,
      the loop takes exactly `n + 1` cycles and ends as that one's reading says. */
  lemma {:induction false} LoopOutcome(cfg: Config, s: State, prev: Option<Failures>, env: nat -> Reading, n: nat)
    requires s.decision.Continue? && (forall i: nat :: i < n ==> GoesOn(cfg, s.spent, prev, env, i))
    requires !GoesOn(cfg, s.spent, prev, env, n)
    ensures var cs := Cycles(cfg, s, prev, env, 0); var t := FinalState(s, cs);
            && |cs| == n + 1
            && t == s.(gap := Some(env(n).gap), spent := s.spent + n + 1, iteration := s.iteration + n + 1, decision := t.decision,
                       pendingEscalation := t.pendingEscalation)
            && t.decision == if !Passes(cfg, prev, env, n) then Escalate
                             else if env(n).gap <= cfg.epsilon then Converged else BudgetExhausted
    decreases n
  {
    var c := RunIteration(cfg, s, prev, None, env(0));
    FirstDecides(cfg, s, prev, env);
    LoopBegins(cfg, s, prev, env);
    if n > 0 {
      assert GoesOn(cfg, s.spent, prev, env, 0);
      forall i: nat
        ensures GoesOn(cfg, c.next.spent, Some(c.failures), From(env, 1), i) <==> GoesOn(cfg, s.spent, prev, env, i + 1)
        ensures Passes(cfg, Some(c.failures), From(env, 1), i) <==> Passes(cfg, prev, env, i + 1)
      {
        OneCycleOn(cfg, s.spent, prev, env, i);
      }
      LoopOutcome(cfg, c.next, Some(c.failures), From(env, 1), n - 1);
    }
  }

  /** And there is such a cycle within the budget. */
  lemma {:induction false} LoopHasOutcome(cfg: Config, s: State, prev: Option<Failures>, env: nat -> Reading)
    requires s.decision.Continue?
    ensures exists n: nat :: n < Budget(cfg, s) && !GoesOn(cfg, s.spent, prev, env, n)
                             && forall i: nat :: i < n ==> GoesOn(cfg, s.spent, prev, env, i)
  {
    var n: nat := 0;
    while GoesOn(cfg, s.spent, prev, env, n)
      invariant forall i: nat :: i < n ==> GoesOn(cfg, s.spent, prev, env, i)
      invariant n < Budget(cfg, s)
      decreases Budget(cfg, s) - n
    {
      assert (s.spent + n + 1) as real < cfg.budgetCap;
      assert n as real + 1.0 < cfg.budgetCap - s.spent as real;
      n := n + 1;
    }
  }

  // ---------------------------------------------------------------------------------------------
  // Across processes

  datatype Sidecar = Missing | Corrupt | Recorded(failures: Failures)

  /** The files of the loop; an unreadable oracle reads as none. */
  datatype Disk = Disk(oracle: Option<State>, sidecar: Sidecar, armed: bool)

  const EMPTY := Disk(None, Missing, false)

  function SeedState(cfg: Config, goal: string): State {
    State(goal, 0, None, cfg.epsilon, false, 0, cfg.budgetCap, Continue)
  }

  function Current(cfg: Config, goal: string, d: Disk): State {
    d.oracle.GetOr(SeedState(cfg, goal))
  }

  function Recalled(d: Disk): Option<Failures> {
    if d.sidecar.Recorded? then Some(d.sidecar.failures) else None
  }

  /** One process of the loop. */
  function Once(cfg: Config, goal: string, d: Disk, r: Reading): (Disk, State) {
    var current := Current(cfg, goal, d);
    if !current.decision.Continue? then (d.(sidecar := Missing, armed := false), current)
    else if d.sidecar.Corrupt? then
      var next := current.(decision := Escalate, pendingEscalation := true);
      (d.(oracle := Some(next), armed := false), next)
    else
      var c := RunIteration(cfg, current, Recalled(d), Recalled(d), r);
      if c.next.decision.Continue? then
        (Disk(Some(c.next), if r.NeverRan? then d.sidecar else Recorded(c.failures), true), c.next)
      else (Disk(Some(c.next), Missing, false), c.next)
  }

  /** The files as objects on disk, and the driver that rewrites them. */
  class OnceLoop {
    const cfg: Config
    var oracle: Option<State>
    var sidecar: Sidecar
    var armed: bool

    ghost function View(): Disk
      reads this
    {
      Disk(oracle, sidecar, armed)
    }

    constructor (cfg: Config, disk: Disk)
      ensures View() == disk && this.cfg == cfg
    {
      this.cfg := cfg;
      oracle, sidecar, armed := disk.oracle, disk.sidecar, disk.armed;
    }

    method ReadFailures() returns (prev: Option<Failures>, corrupt: bool)
      ensures prev == Recalled(View()) && (corrupt <==> sidecar.Corrupt?)
    {
      match sidecar {
        case Missing => prev, corrupt := None, false;
        case Corrupt => prev, corrupt := None, true;
        case Recorded(fs) => prev, corrupt := Some(fs), false;
      }
    }

    method RunOnceIteration(goal: string, r: Reading) returns (state: State)
      modifies this
      ensures (View(), state) == Once(cfg, goal, old(View()), r)
    {
      var prev, corrupt := ReadFailures();
      var current := if oracle.Some? then oracle.value else SeedState(cfg, goal);
      if current.decision != Continue {
        armed := false;
        sidecar := Missing;
        return current;
      }
      if corrupt {
        state := current.(decision := Escalate, pendingEscalation := true);
        oracle := Some(state);
        armed := false;
        return;
      }
      armed := true;
      var c := RunIteration(cfg, current, prev, prev, r);
      oracle := Some(c.next);
      if !r.NeverRan? {
        sidecar := Recorded(c.failures);
      }
      if c.next.decision != Continue {
        armed := false;
        sidecar := Missing;
      }
      return c.next;
    }
  }

  /** Where the first process of a goal begins. */
  lemma FirstProcess(cfg: Config, goal: string, r: Reading)
    ensures var s := Once(cfg, goal, EMPTY, r).1;
            && s.goalId == goal && s.iteration == 1 && s.spent == 1 && s.gap == Some(r.gap)
            && s.epsilon == cfg.epsilon && s.cap == cfg.budgetCap
  {
  }

  /** What a process that goes on hands to the next: this turn's failures, or, when the suite never ran, the
      last ones that were really found. */
  lemma HandsOnFailures(cfg: Config, goal: string, d: Disk, r: Reading)
    requires Once(cfg, goal, d, r).1.decision.Continue?
    ensures Recalled(Once(cfg, goal, d, r).0) == if r.Ran? then Some(r.failures) else Recalled(d)
  {
  }

  /** After every completed process the sentinel is armed exactly when the decision is to continue, the
      oracle holds the state returned, and a terminal decision leaves no failure set behind for the next
      goal. */
  lemma ArmedIffContinue(cfg: Config, goal: string, d: Disk, r: Reading)
    ensures var (t, s) := Once(cfg, goal, d, r);
            && (t.armed <==> s.decision.Continue?)
            && t.oracle == Some(s)
            && (!s.decision.Continue? ==> !t.sidecar.Recorded?)
  {
  }

  /** A corrupt sidecar ends in escalation with the file left as it is, provided the loop was still
      going; when the oracle is already terminal the file is removed instead. */
  lemma CorruptSidecarStaysIff(cfg: Config, goal: string, d: Disk, r: Reading)
    requires d.sidecar.Corrupt?
    ensures var (t, s) := Once(cfg, goal, d, r);
            && !s.decision.Continue? && !t.armed
            && (t.sidecar == Corrupt <==> Current(cfg, goal, d).decision.Continue?)
            && (t.sidecar == Corrupt ==> s.decision.Escalate? && s.pendingEscalation)
  {
  }

  /** So the evidence of corruption lasts for one process: the next one clears it. */
  lemma CorruptSidecarIsGoneNextTime(cfg: Config, goal: string, d: Disk, r: Reading, r': Reading)
    requires d.sidecar.Corrupt?
    ensures Once(cfg, goal, Once(cfg, goal, d, r).0, r').0.sidecar == Missing
    ensures Once(cfg, goal, Once(cfg, goal, d, r).0, r').1 == Once(cfg, goal, d, r).1
  {
  }

  /** The states that successive processes return, until one is terminal. */
  function OnceStates(cfg: Config, goal: string, d: Disk, env: nat -> Reading, at: nat): seq<State>
    requires Current(cfg, goal, d).decision.Continue?
    decreases Budget(cfg, Current(cfg, goal, d))
  {
    var (t, s) := Once(cfg, goal, d, env(at));
    if !s.decision.Continue? then [s]
    else
      BudgetShrinks(cfg, Current(cfg, goal, d), Recalled(d), Recalled(d), env(at));
      [s] + OnceStates(cfg, goal, t, env, at + 1)
  }

  function StatesOf(cycles: seq<Cycle>): seq<State> {
    seq(|cycles|, i requires 0 <= i < |cycles| => cycles[i].next)
  }

  /** What is carried into validation makes no difference to the state that follows. */
  lemma SameDecision(cfg: Config, s: State, prev: Option<Failures>, r: Reading)
    ensures RunIteration(cfg, s, prev, prev, r).next == RunIteration(cfg, s, prev, None, r).next
    ensures r.Ran? ==> RunIteration(cfg, s, prev, prev, r) == RunIteration(cfg, s, prev, None, r)
  {
    assert prev.Some? ==> NewRegressions(cfg, prev.value, prev.value) == {};
    assert prev.Some? ==> NewRegressions(cfg, prev.value, []) == {};
  }

  /** Refinement: with a floor above -1, running one iteration per process through the files goes
      through exactly the states of the in-process loop. */
  lemma {:induction false} OnceRefinesLoop(cfg: Config, goal: string, d: Disk, env: nat -> Reading, at: nat)
    requires cfg.floor > -1.0 && !d.sidecar.Corrupt? && Current(cfg, goal, d).decision.Continue?
    ensures OnceStates(cfg, goal, d, env, at) == StatesOf(Cycles(cfg, Current(cfg, goal, d), Recalled(d), env, at))
    decreases Budget(cfg, Current(cfg, goal, d))
  {
    var s := Current(cfg, goal, d);
    var c := RunIteration(cfg, s, Recalled(d), None, env(at));
    BudgetShrinks(cfg, s, Recalled(d), None, env(at));
    SameDecision(cfg, s, Recalled(d), env(at));
    var rest := Cycles(cfg, c.next, Some(c.failures), env, at + 1);
    assert StatesOf([c] + rest) == [c.next] + StatesOf(rest);
    if c.next.decision.Continue? {
      OnceRefinesLoop(cfg, goal, Once(cfg, goal, d, env(at)).0, env, at + 1);
    }
  }

  /** In particular from an empty directory. */
  lemma OnceFromScratch(cfg: Config, goal: string, env: nat -> Reading)
    requires cfg.floor > -1.0
    ensures OnceStates(cfg, goal, EMPTY, env, 0) == StatesOf(Cycles(cfg, SeedState(cfg, goal), None, env, 0))
  {
    OnceRefinesLoop(cfg, goal, EMPTY, env, 0);
  }

  ghost predicate LoopsAgree(cfg: Config, goal: string, env: nat -> Reading) {
    OnceStates(cfg, goal, EMPTY, env, 0) == StatesOf(Cycles(cfg, SeedState(cfg, goal), None, env, 0))
  }

  /** With a budget of one turn both loops end after the first. */
  lemma OneTurnAgrees(cfg: Config, goal: string, env: nat -> Reading)
    requires cfg.budgetCap <= 1.0
    ensures LoopsAgree(cfg, goal, env)
  {
    var c := RunIteration(cfg, SeedState(cfg, goal), None, None, env(0));
    assert !c.next.decision.Continue?;
    BudgetShrinks(cfg, SeedState(cfg, goal), None, None, env(0));
    assert Cycles(cfg, SeedState(cfg, goal), None, env, 0) == [c] + Cycles(cfg, c.next, Some(c.failures), env, 1) == [c];
    assert StatesOf([c]) == [c.next];
  }

  /** The suite does not run in the first turn and is red in the second.  With a floor of -1 or below the
      first turn passes as confident enough; then in process the red turn is a regression, and across
      processes it is the baseline. */
  function NeverRanThenRed(wide: real): nat -> Reading {
    n => if n == 0 then NeverRan(wide) else Ran(wide, 1.0, ["red"])
  }

  lemma LoopsPart(cfg: Config, goal: string)
    requires cfg.floor <= -1.0 && cfg.budgetCap > 1.0
    ensures !LoopsAgree(cfg, goal, NeverRanThenRed(cfg.epsilon + 1.0))
  {
    var wide := cfg.epsilon + 1.0;
    var env := NeverRanThenRed(wide);
    var s0 := SeedState(cfg, goal);
    var c0 := RunIteration(cfg, s0, None, None, env(0));
    assert c0.next.decision.Continue? && c0.failures == [];
    var c1 := RunIteration(cfg, c0.next, Some([]), None, env(1));
    assert cfg.identity("red") in NewRegressions(cfg, [], ["red"]);
    assert c1.next.decision.Escalate?;
    BudgetShrinks(cfg, s0, None, None, env(0));
    var loop := Cycles(cfg, s0, None, env, 0);
    assert loop[0] == c0 && loop[1..] == Cycles(cfg, c0.next, Some([]), env, 1) && loop[1] == c1;
    var d1 := Once(cfg, goal, EMPTY, env(0)).0;
    assert d1 == Disk(Some(c0.next), Missing, true);
    var s1 := Once(cfg, goal, d1, env(1)).1;
    assert !s1.decision.Escalate?;
    var once := OnceStates(cfg, goal, EMPTY, env, 0);
    assert once[1..] == OnceStates(cfg, goal, d1, env, 1) && once[1] == s1;
    assert StatesOf(loop)[1] == c1.next;
  }

  /** Exactly when the two loops agree from an empty directory, whatever the suite does: the floor is above
      -1, or the budget allows only one turn anyway. */
  lemma LoopsAgreeIff(cfg: Config, goal: string)
    ensures (forall env: nat -> Reading :: LoopsAgree(cfg, goal, env)) <==> cfg.floor > -1.0 || cfg.budgetCap <= 1.0
  {
    if cfg.floor > -1.0 || cfg.budgetCap <= 1.0 {
      forall env: nat -> Reading
        ensures LoopsAgree(cfg, goal, env)
      {
        if cfg.floor > -1.0 {
          OnceFromScratch(cfg, goal, env);
        } else {
          OneTurnAgrees(cfg, goal, env);
        }
      }
    } else {
      LoopsPart(cfg, goal);
    }
  }

  // ---------------------------------------------------------------------------------------------
  // What feeds the ratchet

  /** `tagged`: the names on `(fail)` lines; `unrunnable`: a nonzero run that shows no test execution. */
  datatype Gate = Gate(tagged: string -> Failures, unrunnable: (int, string) -> bool)

  datatype SuiteRun = NoCommand | SpawnFailed | Ended(code: int, output: string)

  /** The names on failure lines, else the whole trimmed output as one failure. */
  function ExtractFailures(cfg: Config, gate: Gate, output: string): (r: Failures)
    ensures r != []
  {
    var names := gate.tagged(output);
    if names != [] then seq(|names|, i requires 0 <= i < |names| => cfg.identity(names[i]))
    else [cfg.identity(if Trim(output) == "" then "gate" else Trim(output))]
  }

  /** `None` when the suite demonstrably never ran. */
  function SuiteFailures(cfg: Config, gate: Gate, run: SuiteRun): Option<Failures> {
    match run
    case NoCommand => Some([])
    case SpawnFailed => None
    case Ended(code, output) =>
      if code != 0 && gate.unrunnable(code, output) then None else Some(ExtractFailures(cfg, gate, output))
  }

  /** What one turn finds: open concerns, their criteria, the unmet ones, and the suite. */
  datatype Turn = Turn(open: nat, criteria: nat, unmet: nat, confidence: real, suite: SuiteRun)

  function RealValidate(cfg: Config, gate: Gate, t: Turn): Reading {
    if t.open == 0 then Ran(0.0, 1.0, [])
    else if t.criteria == 0 then Ran(t.open as real, 0.0, [])
    else
      var fs := SuiteFailures(cfg, gate, t.suite);
      if fs.None? then NeverRan(t.unmet as real) else Ran(t.unmet as real, t.confidence, fs.value)
  }

  /** A suite that never ran escalates if and only if the floor is above -1 (or the previous failures
      alone already forbid it, which they never do). */
  lemma NeverRanEscalatesIff(cfg: Config, s: State, prev: Option<Failures>, carried: Option<Failures>, gap: real)
    requires carried == prev || carried.None?
    requires gap > cfg.epsilon && (s.spent + 1) as real < cfg.budgetCap
    ensures RunIteration(cfg, s, prev, carried, NeverRan(gap)).next.decision.Escalate? <==> cfg.floor > -1.0
    ensures cfg.floor <= -1.0 ==> RunIteration(cfg, s, prev, carried, NeverRan(gap)).next.decision.Continue?
  {
    assert prev.Some? ==> NewRegressions(cfg, prev.value, prev.value) == {};
    assert prev.Some? ==> NewRegressions(cfg, prev.value, []) == {};
  }

  /** The suite could not be started, or ended badly without a sign of any test. */
  predicate ShowsNothing(gate: Gate, run: SuiteRun) {
    run.SpawnFailed? || (run.Ended? && run.code != 0 && gate.unrunnable(run.code, run.output))
  }

  /** Exactly when a turn counts as one whose suite never ran: something is left to do, it has criteria, and
      the suite shows nothing. */
  lemma NeverRanIff(cfg: Config, gate: Gate, t: Turn)
    ensures RealValidate(cfg, gate, t).NeverRan? <==> t.open > 0 && t.criteria > 0 && ShowsNothing(gate, t.suite)
    ensures t.open > 0 && t.criteria > 0 ==> RealValidate(cfg, gate, t).gap == t.unmet as real
  {
  }

  /** Such a turn never passes for a clean one: with a floor above -1 it ends in a proposal to the operator, and
      the failures it hands back are the ones its driver carried in. */
  lemma UnrunSuiteEscalates(cfg: Config, gate: Gate, s: State, prev: Option<Failures>, carried: Option<Failures>, t: Turn)
    requires carried == prev || carried.None?
    requires t.open > 0 && t.criteria > 0 && ShowsNothing(gate, t.suite) && cfg.floor > -1.0
    ensures var next := RunIteration(cfg, s, prev, carried, RealValidate(cfg, gate, t)).next;
            next.decision.Escalate? && next.pendingEscalation
    ensures RunIteration(cfg, s, prev, carried, RealValidate(cfg, gate, t)).failures == carried.GetOr([])
  {
    assert prev.Some? ==> NewRegressions(cfg, prev.value, prev.value) == {};
    assert prev.Some? ==> NewRegressions(cfg, prev.value, []) == {};
  }

  /** A turn converges exactly when nothing is left to do and a floor of at most 1 asks no more; or its open
      concerns, without criteria, are within the tolerance and the floor is not above 0; or its suite showed
      something, nothing in it is new, the validator is confident enough, and its unmet criteria are within
      the tolerance. */
  lemma TurnConvergesIff(cfg: Config, gate: Gate, s: State, prev: Option<Failures>, t: Turn)
    ensures RunIteration(cfg, s, prev, prev, RealValidate(cfg, gate, t)).next.decision.Converged?
            <==> if t.open == 0 then cfg.floor <= 1.0 && 0.0 <= cfg.epsilon
                 else if t.criteria == 0 then cfg.floor <= 0.0 && t.open as real <= cfg.epsilon
                 else
                   && t.unmet as real <= cfg.epsilon
                   && (if ShowsNothing(gate, t.suite) then cfg.floor <= -1.0 else cfg.floor <= t.confidence)
                   && (t.suite.Ended? && !ShowsNothing(gate, t.suite) && prev.Some? ==>
                         forall f :: f in ExtractFailures(cfg, gate, t.suite.output) ==>
                           exists g :: g in prev.value && cfg.identity(g) == cfg.identity(f))
  {
    assert Identities(cfg, []) == {};
    if prev.Some? {
      AllowedMeans(cfg, prev.value, prev.value);
      AllowedMeans(cfg, prev.value, []);
      if t.suite.Ended? {
        AllowedMeans(cfg, prev.value, ExtractFailures(cfg, gate, t.suite.output));
      }
    }
  }

  lemma ExtractTagged(cfg: Config, gate: Gate, output: string)
    requires gate.tagged(output) != []
    ensures forall n :: n in gate.tagged(output) ==> cfg.identity(n) in ExtractFailures(cfg, gate, output)
    ensures forall f :: f in ExtractFailures(cfg, gate, output) ==> exists n :: n in gate.tagged(output) && cfg.identity(n) == f
  {
    var ns, fs := gate.tagged(output), ExtractFailures(cfg, gate, output);
    assert forall i :: 0 <= i < |ns| ==> fs[i] == cfg.identity(ns[i]);
    forall f | f in fs
      ensures exists n :: n in ns && cfg.identity(n) == f
    {
      var i :| 0 <= i < |fs| && fs[i] == f;
      assert ns[i] in ns && cfg.identity(ns[i]) == f;
    }
  }

  /** With failure lines in both outputs the ratchet allows the second run exactly when every failure it names
      has, as far as identity goes, a failure the first one named. */
  lemma TaggedRunsRatchetIff(cfg: Config, gate: Gate, before: string, after: string)
    requires gate.tagged(before) != [] && gate.tagged(after) != []
    ensures NewRegressions(cfg, ExtractFailures(cfg, gate, before), ExtractFailures(cfg, gate, after)) == {}
            <==> forall n :: n in gate.tagged(after) ==>
                   exists m :: m in gate.tagged(before) && cfg.identity(cfg.identity(m)) == cfg.identity(cfg.identity(n))
  {
    var a, b := ExtractFailures(cfg, gate, before), ExtractFailures(cfg, gate, after);
    ExtractTagged(cfg, gate, before);
    ExtractTagged(cfg, gate, after);
    AllowedMeans(cfg, a, b);
    if forall f :: f in b ==> exists g :: g in a && cfg.identity(g) == cfg.identity(f) {
      forall n | n in gate.tagged(after)
        ensures exists m :: m in gate.tagged(before) && cfg.identity(cfg.identity(m)) == cfg.identity(cfg.identity(n))
      {
        var g :| g in a && cfg.identity(g) == cfg.identity(cfg.identity(n));
        var m :| m in gate.tagged(before) && cfg.identity(m) == g;
      }
    }
  }

  /** A suite that ran is never read as free of failures: without failure lines its whole output stands
      as one, so between two clean runs the ratchet allows the second if and only if both outputs have
      the same identity. */
  lemma CleanRunsRatchetIff(cfg: Config, gate: Gate, before: string, after: string)
    requires gate.tagged(before) == [] && gate.tagged(after) == [] && Trim(before) != "" && Trim(after) != ""
    ensures Allowed(cfg, SuiteFailures(cfg, gate, Ended(0, before)), SuiteFailures(cfg, gate, Ended(0, after)).value)
            <==> cfg.identity(cfg.identity(Trim(before))) == cfg.identity(cfg.identity(Trim(after)))
  {
    var a, b := ExtractFailures(cfg, gate, before), ExtractFailures(cfg, gate, after);
    assert a == [cfg.identity(Trim(before))] && b == [cfg.identity(Trim(after))];
    assert Identities(cfg, a) == {cfg.identity(a[0])} && Identities(cfg, b) == {cfg.identity(b[0])};
    if NewRegressions(cfg, a, b) == {} {
      assert cfg.identity(b[0]) in Identities(cfg, b) && cfg.identity(b[0]) !in NewRegressions(cfg, a, b);
    }
  }

  /** Once every concern is closed the suite is not consulted: the turn converges whatever it does. */
  lemma ClosedPlanConverges(cfg: Config, gate: Gate, s: State, prev: Option<Failures>, carried: Option<Failures>, t: Turn)
    requires t.open == 0 && cfg.floor <= 1.0 && cfg.epsilon >= 0.0
    ensures RunIteration(cfg, s, prev, carried, RealValidate(cfg, gate, t)).next.decision.Converged?
  {
    assert Identities(cfg, []) == {};
  }
}
