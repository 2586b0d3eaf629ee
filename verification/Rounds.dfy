/** In what order the compose machine goes through its phases, and what a failed CHECK leaves to the next round. */
module Rounds {
  import opened Text
  import opened Verdict
  import opened Compose

  // ---------- one turn ----------

  /** Where a turn leads that goes through. */
  predicate Leads(mode: Mode, st: ComposeState, next: ComposeState, passes: bool) {
    match st.phase
    case Investigate => next.phase == (if mode.Two? then Plan else Implement) && next.round == st.round
    case Plan => next.phase == Implement && next.round == st.round
    case Implement => next.phase == Check && next.round == st.round
    case Check =>
      if passes then next.phase == Done && next.round == st.round
      else if st.round >= st.maxRounds then next.phase == Failed && next.round == st.round
      else next.phase == (if mode.Two? then Plan else Implement) && next.round == st.round + 1
    case _ => false
  }

  /**
   INVESTIGATE leads to PLAN in plan-then-do and to IMPLEMENT in single mode, PLAN to IMPLEMENT, IMPLEMENT to CHECK; a
   CHECK that passes leads to DONE, and one that fails to PLAN or IMPLEMENT in the next round, or to FAILED.
   */
  lemma TurnLeads(world: World, live: nat -> bool, mode: Mode, st: ComposeState, sys: Sys)
    requires !IsTerminal(st.phase)
    ensures var r := Turn(world, live, mode, st, sys);
            r.Go? ==> Leads(mode, st, r.state, PassingCheck(world, mode, Config(st, sys)))
  {
    if st.phase.Implement? && mode.Two? && sys.disk.plan.Some? {
      RunItemsKeep(world, live, st, sys, PendingFrom(sys.disk.plan.value, 0));
    }
  }

  // ---------- whom a turn asks ----------

  /** INVESTIGATE asks nobody, writes the context and goes through. */
  lemma InvestigateTurn(world: World, live: nat -> bool, mode: Mode, st: ComposeState, sys: Sys)
    requires st.phase == Investigate
    ensures var r := Turn(world, live, mode, st, sys);
            && r.Go? && r.sys.started == sys.started
            && r.sys.disk == sys.disk.(context := Some(world.context(sys.disk)), state := Some(r.state))
  {
  }

  /**
   PLAN asks one agent, which finds the plan and the verdict of the round before, and goes through exactly if the agent
   exits 0 and leaves a plan. If not, the saved state is the one it began with.
   */
  lemma PlanTurn(world: World, live: nat -> bool, mode: Mode, st: ComposeState, sys: Sys)
    requires st.phase == Plan
    ensures var r := Turn(world, live, mode, st, sys);
            var reply := world.agent(Plan, st.round, 0, sys.disk.plan, sys.disk.verdict);
            && (r.Go? <==> reply.code == 0 && reply.plan.Some?)
            && r.sys.started == sys.started + [Start(Plan, st.round, 0)]
            && r.sys.disk == Disk(Some(if r.Go? then r.state else st), reply.plan, reply.verdict, sys.disk.context)
  {
  }

  /**
   CHECK of plan-then-do asks one agent, which finds the plan and no verdict, and goes through exactly if there is a
   plan and the agent exits 0 and leaves a verdict. The plan is then the agent's, and so is the verdict if it passes.
   */
  lemma CheckTurn(world: World, live: nat -> bool, st: ComposeState, sys: Sys)
    requires st.phase == Check
    ensures var r := Turn(world, live, Two, st, sys);
            var reply := world.agent(Check, st.round, 0, sys.disk.plan, None);
            if sys.disk.plan.None? then r == Abort(Check, sys.(disk := sys.disk.(state := Some(st))))
            else
              && (r.Go? <==> reply.code == 0 && reply.verdict.Some?)
              && r.sys.started == sys.started + [Start(Check, st.round, 0)]
              && r.sys.disk.plan == reply.plan && r.sys.disk.context == sys.disk.context
              && (r.Abort? || PassingCheck(world, Two, Config(st, sys)) ==> r.sys.disk.verdict == reply.verdict)
  {
  }

  /** CHECK of single mode asks nobody and goes through; a verdict file is there afterwards only if the tests failed. */
  lemma TestTurn(world: World, live: nat -> bool, st: ComposeState, sys: Sys)
    requires st.phase == Check
    ensures var r := Turn(world, live, Single, st, sys);
            && r.Go? && r.sys.started == sys.started
            && r.sys.disk == sys.disk.(verdict := r.sys.disk.verdict, state := Some(r.state))
            && (r.sys.disk.verdict.Some? <==> world.test(st.round) != 0)
  {
  }

  /** Some run of the first item was saved and is still running. */
  predicate InFlight(st: ComposeState, live: nat -> bool) {
    exists ref :: ref in st.runs && ref.phase == Implement && ref.item == Some(0) && live(ref.runId)
  }

  lemma {:induction false} FindsInFlight(runs: seq<RunRef>, item: nat, live: nat -> bool)
    ensures FindRun(runs, item, live).Some? <==>
            exists ref :: ref in runs && ref.phase == Implement && ref.item == Some(item) && live(ref.runId)
  {
    if runs != [] {
      FindsInFlight(runs[1..], item, live);
      assert runs == [runs[0]] + runs[1..];
    }
  }

  /**
   IMPLEMENT of single mode has one agent, started unless a saved run is in flight, and goes through exactly if it
   exits 0; what it leaves is on disk.
   */
  lemma ImplementTurn(world: World, live: nat -> bool, st: ComposeState, sys: Sys)
    requires st.phase == Implement
    ensures var r := Turn(world, live, Single, st, sys);
            var reply := world.agent(Implement, st.round, 0, sys.disk.plan, sys.disk.verdict);
            && (r.Go? <==> reply.code == 0)
            && r.sys.started == sys.started + (if InFlight(st, live) then [] else [Start(Implement, st.round, 0)])
            && r.sys.disk == Disk(r.sys.disk.state, reply.plan, reply.verdict, sys.disk.context)
  {
    FindsInFlight(st.runs, 0, live);
  }

  lemma {:induction false} ItemsFail(world: World, live: nat -> bool, st: ComposeState, sys: Sys, items: seq<nat>)
    ensures var r := RunItems(world, live, st, sys, items);
            r.Abort? ==> r.phase == Implement && r.sys.disk.state.Some?
                         && r.sys.disk.state.value == st.(runs := r.sys.disk.state.value.runs)
    decreases |items|
  {
    if items != [] {
      var r := RunItem(world, live, st, sys, items[0]);
      if r.Go? && r.sys.disk.plan.Some? {
        var ticked := r.sys.(disk := r.sys.disk.(plan := Some(SetChecked(r.sys.disk.plan.value, items[0]))));
        ItemsFail(world, live, r.state, ticked, items[1..]);
      }
    }
  }

  /** A turn that fails names its phase, and leaves on disk the state it began with, but for the agents in flight. */
  lemma TurnFails(world: World, live: nat -> bool, mode: Mode, st: ComposeState, sys: Sys)
    requires !IsTerminal(st.phase)
    ensures var r := Turn(world, live, mode, st, sys);
            r.Abort? ==>
              && r.phase == st.phase && r.sys.disk.state.Some?
              && r.sys.disk.state.value == st.(runs := r.sys.disk.state.value.runs)
  {
    if st.phase.Implement? && mode.Two? && sys.disk.plan.Some? {
      ItemsFail(world, live, st, sys, PendingFrom(sys.disk.plan.value, 0));
    }
  }

  // ---------- whole runs ----------

  /** Each configuration of a run is followed by the one its phase leads to, and the last by the end. */
  ghost predicate InOrder(world: World, mode: Mode, trace: seq<Config>, end: Option<ComposeState>) {
    && (forall k :: 0 <= k < |trace| - 1 ==>
          Leads(mode, trace[k].state, trace[k + 1].state, PassingCheck(world, mode, trace[k])))
    && (end.Some? && trace != [] ==>
          Leads(mode, trace[|trace| - 1].state, end.value, PassingCheck(world, mode, trace[|trace| - 1])))
  }

  function EndOf(out: Outcome): Option<ComposeState> {
    if out.Finished? then Some(out.state) else None
  }

  lemma InOrderCons(world: World, mode: Mode, c: Config, trace: seq<Config>, end: Option<ComposeState>,
                    next: ComposeState)
    requires InOrder(world, mode, trace, end) && Leads(mode, c.state, next, PassingCheck(world, mode, c))
    requires if trace != [] then trace[0].state == next else end.Some? ==> end.value == next
    ensures InOrder(world, mode, [c] + trace, end)
  {
    var longer := [c] + trace;
    assert forall k :: 1 <= k < |longer| ==> longer[k] == trace[k - 1];
  }

  /** A run goes through the phases in order, from where it starts to where it ends. */
  lemma {:induction false} RunInOrder(world: World, live: nat -> bool, mode: Mode, st: ComposeState, sys: Sys)
    ensures var out := Run(world, live, mode, st, sys);
            && !out.Corrupt? && InOrder(world, mode, out.trace, EndOf(out))
            && (if IsTerminal(st.phase) then out == Finished([], st, sys)
                else out.trace != [] && out.trace[0] == Config(st, sys))
    decreases RoundsLeft(st), Rank(st.phase)
  {
    if !IsTerminal(st.phase) {
      TurnGoes(world, live, mode, st, sys);
      TurnLeads(world, live, mode, st, sys);
      var r := Turn(world, live, mode, st, sys);
      if r.Go? {
        RunInOrder(world, live, mode, r.state, r.sys);
        var rest := Run(world, live, mode, r.state, r.sys);
        InOrderCons(world, mode, Config(st, sys), rest.trace, EndOf(rest), r.state);
      }
    }
  }

  /** Every CHECK that does not end a run is followed by the phases of the next round, as far as the run gets. */
  lemma FailedCheckGoesRound(world: World, live: nat -> bool, mode: Mode, st: ComposeState, sys: Sys, k: nat)
    requires var out := Run(world, live, mode, st, sys);
             !out.Corrupt? && k + 1 < |out.trace| && out.trace[k].state.phase == Check
    ensures var trace := Run(world, live, mode, st, sys).trace;
            var next := if mode.Two? then [Plan, Implement, Check] else [Implement, Check];
            forall j :: 0 <= j < |next| && k + 1 + j < |trace| ==>
              trace[k + 1 + j].state.phase == next[j] && trace[k + 1 + j].state.round == trace[k].state.round + 1
  {
    RunInOrder(world, live, mode, st, sys);
    var trace := Run(world, live, mode, st, sys).trace;
    NotOver(world, live, mode, st, sys, k + 1);
    if k + 2 < |trace| { NotOver(world, live, mode, st, sys, k + 2); }
    assert Leads(mode, trace[k].state, trace[k + 1].state, PassingCheck(world, mode, trace[k]));
    assert k + 2 < |trace| ==>
             Leads(mode, trace[k + 1].state, trace[k + 1 + 1].state, PassingCheck(world, mode, trace[k + 1]));
    assert k + 3 < |trace| ==>
             Leads(mode, trace[k + 2].state, trace[k + 2 + 1].state, PassingCheck(world, mode, trace[k + 2]));
  }

  lemma {:induction false} NotOver(world: World, live: nat -> bool, mode: Mode, st: ComposeState, sys: Sys, k: nat)
    requires var out := Run(world, live, mode, st, sys); !out.Corrupt? && k < |out.trace|
    ensures !IsTerminal(Run(world, live, mode, st, sys).trace[k].state.phase)
    decreases k
  {
    RunInOrder(world, live, mode, st, sys);
    if k > 0 {
      var r := Turn(world, live, mode, st, sys);
      RunInOrder(world, live, mode, r.state, r.sys);
      NotOver(world, live, mode, r.state, r.sys, k - 1);
    }
  }

  /** A fresh run begins with INVESTIGATE in round 1, of three rounds if no number is asked for. */
  lemma FreshRunBegins(opts: Options, world: World, live: nat -> bool, sys: Sys)
    requires sys.disk.state.None?
    ensures var out := RunCompose(opts, world, live, sys);
            && !out.Corrupt? && out.trace != [] && out.trace[0].sys == sys
            && var st := out.trace[0].state;
               && st.phase == Investigate && st.round == 1 && st.runs == [] && st.goal == opts.goal
               && st.maxRounds == (if opts.maxRounds.Some? then opts.maxRounds.value else 3)
               && st.testCmd == (if opts.testCmd.Some? then opts.testCmd.value else "npm test")
               && InOrder(world, if opts.planThenDo then Two else Single, out.trace, EndOf(out))
  {
    RunInOrder(world, live, ModeOf(opts, sys), CreateState(opts), sys);
  }

  /**
   A process that finds a saved state goes on with it, in the mode that was saved, whatever its own options say; a state
   without a mode is one of plan-then-do.
   */
  lemma ResumedRunGoesOn(opts: Options, world: World, live: nat -> bool, sys: Sys)
    requires sys.disk.state.Some? && sys.disk.state.value.round > 0 && sys.disk.state.value.maxRounds > 0
    ensures var st, out := sys.disk.state.value, RunCompose(opts, world, live, sys);
            && !out.Corrupt?
            && InOrder(world, if st.mode == Some(Single) then Single else Two, out.trace, EndOf(out))
            && if st.phase == Done || st.phase == Failed then out == Finished([], st, sys)
               else out.trace != [] && out.trace[0] == Config(st, sys)
  {
    RunInOrder(world, live, ModeOf(opts, sys), sys.disk.state.value, sys);
  }

  /** After a phase has failed, a new process begins with that very phase, in the same round. */
  lemma FailedPhaseIsTriedAgain(opts: Options, world: World, live: nat -> bool, mode: Mode, st: ComposeState, sys: Sys)
    requires !IsTerminal(st.phase) && st.round > 0 && st.maxRounds > 0
    requires Turn(world, live, mode, st, sys).Abort?
    ensures var r := Turn(world, live, mode, st, sys);
            var out := RunCompose(opts, world, live, r.sys);
            && !out.Corrupt? && out.trace != []
            && out.trace[0].state.phase == r.phase == st.phase && out.trace[0].state.round == st.round
  {
    TurnFails(world, live, mode, st, sys);
    ResumedRunGoesOn(opts, world, live, Turn(world, live, mode, st, sys).sys);
  }

  // ---------- what a failed CHECK leaves ----------

  lemma FailReads(note: string)
    ensures ParseVerdict("FAIL\n" + note) == Fail
  {
    FailLine();
    SplitAtSeparator("FAIL", note, '\n');
    SplitPlain("FAIL", '\n');
    assert "FAIL" + ['\n'] + note == "FAIL\n" + note;
    var lines := Split("FAIL\n" + note, '\n');
    assert lines[0] == "FAIL";
  }

  /**
   After a CHECK that did not pass, the verdict file on disk reads FAIL. In plan-then-do it is the agent's own text if
   that read FAIL; a PASS overruled by the tests keeps all its lines but the one that said so.
   */
  lemma FailedCheckLeaves(world: World, live: nat -> bool, mode: Mode, st: ComposeState, sys: Sys)
    requires st.phase == Check && !PassingCheck(world, mode, Config(st, sys))
    ensures var r := Turn(world, live, mode, st, sys);
            r.Go? ==>
              && r.sys.disk.verdict.Some? && ParseVerdict(r.sys.disk.verdict.value) == Fail
              && (mode.Two? ==>
                    && Review(world, st, sys).Some?
                    && var text := Review(world, st, sys).value;
                       if ParseVerdict(text) == Fail then r.sys.disk.verdict.value == text
                       else
                         && FirstContent(Split(text, '\n')) < |Split(text, '\n')|
                         && Split(text, '\n')[FirstContent(Split(text, '\n')) := "FAIL"] <=
                              Split(r.sys.disk.verdict.value, '\n'))
  {
    var r := Turn(world, live, mode, st, sys);
    if mode.Single? {
      FailReads(world.note(world.test(st.round)));
    } else if r.Go? {
      var text := Review(world, st, sys).value;
      if ParseVerdict(text) == Pass {
        var lines := Split(text, '\n');
        ForcedVerdictFails(text, world.note(world.test(st.round)));
        ForcedLines(lines[FirstContent(lines) := "FAIL"], world.note(world.test(st.round)));
      }
    }
  }
}
