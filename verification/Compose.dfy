/**
 The compose state machine: INVESTIGATE, PLAN, IMPLEMENT, CHECK with rounds, two modes, a
 persisted state and resume. Agents, the test command and the index are the outside world.
 */
module Compose {
  import opened Text
  import opened Verdict

  datatype Phase = Investigate | Plan | Implement | Check | Done | Failed

  datatype Mode = Single | Two

  /** An agent run that may still be in flight, so that resume can wait for it. */
  datatype RunRef = RunRef(phase: Phase, item: Option<nat>, runId: nat)

  datatype ComposeState = ComposeState(
    goal: string,
    mode: Option<Mode>,
    phase: Phase,
    round: int,
    testCmd: string,
    maxRounds: int,
    runs: seq<RunRef>
  )

  datatype Item = Item(text: string, checked: bool)

  /** The goal's directory: state.json, plan.md as its checklist, verdict.md and context.md. */
  datatype Disk = Disk(
    state: Option<ComposeState>,
    plan: Option<seq<Item>>,
    verdict: Option<string>,
    context: Option<string>
  )

  /** An agent that was started, by phase, round and checklist item. */
  datatype Start = Start(phase: Phase, round: int, item: nat)

  /** Everything that outlives the process: the directory, and the agents started so far. */
  datatype Sys = Sys(disk: Disk, started: seq<Start>)

  /** What an agent leaves behind: its exit code and the two files it may have written. */
  datatype Reply = Reply(code: int, plan: Option<seq<Item>>, verdict: Option<string>)

  /** The environment: agents by phase, round, item and the files they see; the index; the tests. */
  datatype World = World(
    agent: (Phase, int, nat, Option<seq<Item>>, Option<string>) -> Reply,
    context: Disk -> string,
    test: int -> int,
    note: int -> string
  )

  datatype Options = Options(goal: string, testCmd: Option<string>, maxRounds: Option<int>, planThenDo: bool)

  const DEFAULT_TEST_CMD := "npm test"
  const DEFAULT_MAX_ROUNDS := 3

  /** A phase that went through, or a ComposeError. */
  datatype Result = Go(state: ComposeState, sys: Sys) | Abort(phase: Phase, sys: Sys)

  predicate IsTerminal(phase: Phase) {
    phase.Done? || phase.Failed?
  }

  // ---------- state.json ----------

  function CreateState(opts: Options): ComposeState {
    ComposeState(opts.goal, Some(if opts.planThenDo then Two else Single), Investigate, 1,
                 opts.testCmd.GetOr(DEFAULT_TEST_CMD), opts.maxRounds.GetOr(DEFAULT_MAX_ROUNDS), [])
  }

  /** parseState: the numeric fields must be positive; anything else is a corrupt file. */
  predicate Parses(st: ComposeState) {
    st.round > 0 && st.maxRounds > 0
  }

  function Save(sys: Sys, st: ComposeState): Sys {
    sys.(disk := sys.disk.(state := Some(st)))
  }

  /** What a process starts from: the saved state, or a fresh one. None: the file is corrupt. */
  function Load(opts: Options, sys: Sys): Option<ComposeState> {
    match sys.disk.state
    case None => Some(CreateState(opts))
    case Some(st) => if Parses(st) then Some(st) else None
  }

  /** A saved state keeps its mode, and one saved without a mode is plan-then-do. */
  function ModeOf(opts: Options, sys: Sys): Mode {
    match sys.disk.state
    case None => if opts.planThenDo then Two else Single
    case Some(st) => st.mode.GetOr(Two)
  }

  // ---------- agents ----------

  function Deliver(sys: Sys, reply: Reply): Sys {
    sys.(disk := sys.disk.(plan := reply.plan, verdict := reply.verdict))
  }

  function Ask(world: World, phase: Phase, round: int, item: nat, disk: Disk): Reply {
    world.agent(phase, round, item, disk.plan, disk.verdict)
  }

  /** A tier-1 run of PLAN or CHECK: always started anew, never recorded as in flight. */
  function RunAgent(world: World, st: ComposeState, sys: Sys, phase: Phase): Result {
    var begun := sys.(started := sys.started + [Start(phase, st.round, 0)]);
    var reply := Ask(world, phase, st.round, 0, begun.disk);
    var after := Deliver(begun, reply);
    if reply.code != 0 then Abort(phase, Save(after, st)) else Go(st, after)
  }

  /** The saved in-flight run of an item, if the run store says it is still running. */
  function FindRun(runs: seq<RunRef>, item: nat, live: nat -> bool): Option<RunRef> {
    if runs == [] then None
    else if runs[0].phase.Implement? && runs[0].item == Some(item) && live(runs[0].runId) then Some(runs[0])
    else FindRun(runs[1..], item, live)
  }

  function DropRun(runs: seq<RunRef>, runId: nat): seq<RunRef> {
    if runs == [] then []
    else (if runs[0].runId != runId then [runs[0]] else []) + DropRun(runs[1..], runId)
  }

  /** The item's run is chosen: reattached, or started and put on disk before anything waits. */
  datatype Begun = Begun(state: ComposeState, sys: Sys, runId: nat)

  function BeginItem(st: ComposeState, sys: Sys, item: nat, live: nat -> bool): Begun {
    match FindRun(st.runs, item, live)
    case Some(ref) => Begun(st, sys, ref.runId)
    case None =>
      var runId := |sys.started|;
      var st' := st.(runs := st.runs + [RunRef(Implement, Some(item), runId)]);
      Begun(st', Save(sys.(started := sys.started + [Start(Implement, st.round, item)]), st'), runId)
  }

  /** Waiting for the chosen run; its reference goes when it succeeded. */
  function AwaitItem(world: World, b: Begun, item: nat): Result {
    var reply := Ask(world, Implement, b.state.round, item, b.sys.disk);
    var after := Deliver(b.sys, reply);
    if reply.code != 0 then Abort(Implement, Save(after, b.state))
    else
      var st := b.state.(runs := DropRun(b.state.runs, b.runId));
      Go(st, Save(after, st))
  }

  function RunItem(world: World, live: nat -> bool, st: ComposeState, sys: Sys, item: nat): Result {
    AwaitItem(world, BeginItem(st, sys, item, live), item)
  }

  // ---------- the phases ----------

  function PendingFrom(items: seq<Item>, k: nat): (out: seq<nat>)
    requires k <= |items|
    decreases |items| - k
  {
    if k == |items| then []
    else (if items[k].checked then [] else [k]) + PendingFrom(items, k + 1)
  }

  function SetChecked(items: seq<Item>, k: nat): seq<Item> {
    if k < |items| then items[k := items[k].(checked := true)] else items
  }

  /** The checklist loop: each item is run, then ticked in the plan as it now is on disk. */
  function RunItems(world: World, live: nat -> bool, st: ComposeState, sys: Sys, items: seq<nat>): Result
    decreases |items|
  {
    if items == [] then Go(st, sys)
    else
      match RunItem(world, live, st, sys, items[0])
      case Abort(phase, after) => Abort(phase, after)
      case Go(st', after) =>
        if after.disk.plan.None? then Abort(Implement, Save(after, st'))
        else
          var ticked := after.(disk := after.disk.(plan := Some(SetChecked(after.disk.plan.value, items[0]))));
          RunItems(world, live, st', ticked, items[1..])
  }

  function ImplementTwo(world: World, live: nat -> bool, st: ComposeState, sys: Sys): Result {
    if sys.disk.plan.None? then Abort(Implement, Save(sys, st))
    else RunItems(world, live, st, sys, PendingFrom(sys.disk.plan.value, 0))
  }

  function InvestigatePhase(world: World, st: ComposeState, sys: Sys): Result {
    Go(st, sys.(disk := sys.disk.(context := Some(world.context(sys.disk)))))
  }

  function PlanPhase(world: World, st: ComposeState, sys: Sys): Result {
    match RunAgent(world, st, sys, Plan)
    case Abort(phase, after) => Abort(phase, after)
    case Go(_, after) => if after.disk.plan.None? then Abort(Plan, Save(after, st)) else Go(st, after)
  }

  /** A FAIL goes round again while rounds are left. */
  function NextRound(st: ComposeState, again: Phase): ComposeState {
    if st.round >= st.maxRounds then st.(phase := Failed) else st.(phase := again, round := st.round + 1)
  }

  /** Single mode: the exit code of the test command decides. */
  function CheckSingle(world: World, st: ComposeState, sys: Sys): Result {
    var code := world.test(st.round);
    if code == 0 then Go(st.(phase := Done), sys.(disk := sys.disk.(verdict := None)))
    else Go(NextRound(st, Implement), sys.(disk := sys.disk.(verdict := Some("FAIL\n" + world.note(code)))))
  }

  /** Plan-then-do: the CHECK agent decides, but a PASS cannot stand on failing tests. */
  function CheckTwo(world: World, st: ComposeState, sys: Sys): Result {
    if sys.disk.plan.None? then Abort(Check, Save(sys, st))
    else
      var code := world.test(st.round);
      match RunAgent(world, st, sys.(disk := sys.disk.(verdict := None)), Check)
      case Abort(phase, after) => Abort(phase, after)
      case Go(_, after) =>
        if after.disk.verdict.None? then Abort(Check, Save(after, st))
        else
          var text := after.disk.verdict.value;
          if ParseVerdict(text) == Pass && code == 0 then Go(st.(phase := Done), after)
          else
            var kept := if ParseVerdict(text) == Pass then ForceFail(text, world.note(code)) else text;
            Go(NextRound(st, Plan), after.(disk := after.disk.(verdict := Some(kept))))
  }

  /** One turn of the loop: the phase's work, then `advance` saves where it leads. */
  function Turn(world: World, live: nat -> bool, mode: Mode, st: ComposeState, sys: Sys): Result
    requires !IsTerminal(st.phase)
  {
    var r := match st.phase
      case Investigate => InvestigatePhase(world, st, sys)
      case Plan => PlanPhase(world, st, sys)
      case Implement => if mode.Single? then RunItem(world, live, st, sys, 0) else ImplementTwo(world, live, st, sys)
      case _ => if mode.Single? then CheckSingle(world, st, sys) else CheckTwo(world, st, sys);
    match r
    case Abort(phase, after) => r
    case Go(st', after) =>
      var next := match st.phase
        case Investigate => st'.(phase := if mode.Single? then Implement else Plan)
        case Plan => st'.(phase := Implement)
        case Implement => st'.(phase := Check)
        case _ => st';
      Go(next, Save(after, next))
  }

  // ---------- whole runs ----------

  function RoundsLeft(st: ComposeState): nat {
    if st.round < st.maxRounds then st.maxRounds - st.round else 0
  }

  function Rank(phase: Phase): nat {
    match phase case Investigate => 4 case Plan => 3 case Implement => 2 case Check => 1 case _ => 0
  }

  /** Item runs change only the list of runs. */
  lemma {:induction false} RunItemsKeep(world: World, live: nat -> bool, st: ComposeState, sys: Sys, items: seq<nat>)
    ensures var r := RunItems(world, live, st, sys, items); r.Go? ==> r.state == st.(runs := r.state.runs)
    decreases |items|
  {
    if items != [] {
      var r := RunItem(world, live, st, sys, items[0]);
      if r.Go? && r.sys.disk.plan.Some? {
        var ticked := r.sys.(disk := r.sys.disk.(plan := Some(SetChecked(r.sys.disk.plan.value, items[0]))));
        RunItemsKeep(world, live, r.state, ticked, items[1..]);
      }
    }
  }

  /** What a turn that goes through does to the state; every turn comes closer to the end. */
  lemma TurnGoes(world: World, live: nat -> bool, mode: Mode, st: ComposeState, sys: Sys)
    requires !IsTerminal(st.phase)
    ensures var r := Turn(world, live, mode, st, sys);
            r.Go? ==>
              && r.state.(phase := st.phase, round := st.round, runs := st.runs) == st
              && r.sys.disk.state == Some(r.state)
              && (r.state.round == st.round
                  || (st.phase.Check? && st.round < st.maxRounds && r.state.round == st.round + 1))
              && (RoundsLeft(r.state) < RoundsLeft(st)
                  || (r.state.round == st.round && Rank(r.state.phase) < Rank(st.phase)))
  {
    if st.phase.Implement? && mode.Two? && sys.disk.plan.Some? {
      RunItemsKeep(world, live, st, sys, PendingFrom(sys.disk.plan.value, 0));
    }
  }

  datatype Config = Config(state: ComposeState, sys: Sys)

  /** How a process ends, with the configurations it took turns in. */
  datatype Outcome =
    | Finished(trace: seq<Config>, state: ComposeState, sys: Sys)
    | Aborted(trace: seq<Config>, phase: Phase, sys: Sys)
    | Corrupt

  function Prepend(trace: seq<Config>, out: Outcome): Outcome {
    match out
    case Finished(t, st, sys) => Finished(trace + t, st, sys)
    case Aborted(t, phase, sys) => Aborted(trace + t, phase, sys)
    case Corrupt => Corrupt
  }

  function Run(world: World, live: nat -> bool, mode: Mode, st: ComposeState, sys: Sys): Outcome
    decreases RoundsLeft(st), Rank(st.phase)
  {
    if IsTerminal(st.phase) then Finished([], st, sys)
    else
      TurnGoes(world, live, mode, st, sys);
      match Turn(world, live, mode, st, sys)
      case Abort(phase, after) => Aborted([Config(st, sys)], phase, after)
      case Go(st', after) => Prepend([Config(st, sys)], Run(world, live, mode, st', after))
  }

  /** One process: load or create the state, then take turns. */
  function RunCompose(opts: Options, world: World, live: nat -> bool, sys: Sys): Outcome {
    match Load(opts, sys)
    case None => Corrupt
    case Some(st) => Run(world, live, ModeOf(opts, sys), st, sys)
  }

  // ---------- safety and termination ----------

  /** The CHECK agent's verdict text for a CHECK of plan-then-do mode. */
  function Review(world: World, st: ComposeState, sys: Sys): Option<string> {
    Ask(world, Check, st.round, 0, sys.disk.(verdict := None)).verdict
  }

  /** This turn is a CHECK whose tests passed and, in plan-then-do mode, whose agent said PASS. */
  predicate PassingCheck(world: World, mode: Mode, c: Config) {
    && c.state.phase.Check? && world.test(c.state.round) == 0
    && (mode.Two? ==> var text := Review(world, c.state, c.sys); text.Some? && ParseVerdict(text.value) == Pass)
  }

  /** Only a CHECK ends the machine, and how it ends is how that CHECK went. */
  lemma TurnEnds(world: World, live: nat -> bool, mode: Mode, st: ComposeState, sys: Sys)
    requires !IsTerminal(st.phase)
    ensures var r := Turn(world, live, mode, st, sys);
            r.Go? ==>
              && (r.state.phase.Done? <==> PassingCheck(world, mode, Config(st, sys)))
              && (r.state.phase.Failed? ==> RoundsLeft(st) == 0 && r.state.round == st.round)
  {
    if st.phase.Implement? && mode.Two? && sys.disk.plan.Some? {
      RunItemsKeep(world, live, st, sys, PendingFrom(sys.disk.plan.value, 0));
    }
  }

  lemma {:induction false} RunEnds(world: World, live: nat -> bool, mode: Mode, st: ComposeState, sys: Sys)
    ensures var out := Run(world, live, mode, st, sys);
            && !out.Corrupt?
            && (out.Finished? ==> IsTerminal(out.state.phase))
            && (out.Finished? && !IsTerminal(st.phase) ==>
                  && |out.trace| >= 1
                  && (out.state.phase.Done? <==> PassingCheck(world, mode, out.trace[|out.trace| - 1]))
                  && (out.state.phase.Failed? ==> out.state.round == st.round + RoundsLeft(st)))
    decreases RoundsLeft(st), Rank(st.phase)
  {
    if !IsTerminal(st.phase) {
      TurnGoes(world, live, mode, st, sys);
      TurnEnds(world, live, mode, st, sys);
      var r := Turn(world, live, mode, st, sys);
      if r.Go? {
        RunEnds(world, live, mode, r.state, r.sys);
      }
    }
  }

  lemma {:induction false} RunRounds(world: World, live: nat -> bool, mode: Mode, st: ComposeState, sys: Sys)
    ensures var out := Run(world, live, mode, st, sys);
            !out.Corrupt? && forall k :: 0 <= k < |out.trace| ==>
              st.round <= out.trace[k].state.round <= st.round + RoundsLeft(st)
    decreases RoundsLeft(st), Rank(st.phase)
  {
    if !IsTerminal(st.phase) {
      TurnGoes(world, live, mode, st, sys);
      var r := Turn(world, live, mode, st, sys);
      if r.Go? {
        RunRounds(world, live, mode, r.state, r.sys);
      }
    }
  }

  /**
   From any fresh or resumed state that is not over: DONE comes only out of a CHECK whose test
   command exited 0 and, in plan-then-do mode, whose verdict was PASS; FAILED only when the rounds
   are used up; and no round exceeds the larger of the starting round and maxRounds.
   */
  lemma DoneOnlyThroughPassingCheck(opts: Options, world: World, live: nat -> bool, sys: Sys)
    requires Load(opts, sys).Some? && !IsTerminal(Load(opts, sys).value.phase)
    ensures var st, mode, out := Load(opts, sys).value, ModeOf(opts, sys), RunCompose(opts, world, live, sys);
            var last := if st.round < st.maxRounds then st.maxRounds else st.round;
            && !out.Corrupt?
            && (forall k :: 0 <= k < |out.trace| ==> st.round <= out.trace[k].state.round <= last)
            && (out.Finished? ==> |out.trace| >= 1 && IsTerminal(out.state.phase))
            && (out.Finished? ==> (out.state.phase.Done? <==> PassingCheck(world, mode, out.trace[|out.trace| - 1])))
            && (out.Finished? && out.state.phase.Failed? ==> out.state.round == last)
  {
    RunEnds(world, live, ModeOf(opts, sys), Load(opts, sys).value, sys);
    RunRounds(world, live, ModeOf(opts, sys), Load(opts, sys).value, sys);
  }

  /** The number of turns is bounded by the rounds that are left. */
  lemma {:induction false} TurnsAreBounded(world: World, live: nat -> bool, mode: Mode, st: ComposeState, sys: Sys)
    ensures var out := Run(world, live, mode, st, sys);
            !out.Corrupt? && |out.trace| <= 3 * RoundsLeft(st) + Rank(st.phase)
    decreases RoundsLeft(st), Rank(st.phase)
  {
    if !IsTerminal(st.phase) {
      TurnGoes(world, live, mode, st, sys);
      var r := Turn(world, live, mode, st, sys);
      if r.Go? {
        TurnsAreBounded(world, live, mode, r.state, r.sys);
      }
    }
  }

  /** Agents that exit 0 and leave the files the next step reads. */
  ghost predicate AgentsSucceed(world: World) {
    forall phase, round, item, plan, verdict ::
      var reply := world.agent(phase, round, item, plan, verdict);
      && reply.code == 0
      && (plan.Some? || phase.Plan? ==> reply.plan.Some?)
      && (phase.Check? ==> reply.verdict.Some?)
  }

  lemma {:induction false} RunItemsSucceed(world: World, live: nat -> bool, st: ComposeState, sys: Sys, items: seq<nat>)
    requires AgentsSucceed(world) && sys.disk.plan.Some?
    ensures var r := RunItems(world, live, st, sys, items); r.Go? && r.sys.disk.plan.Some?
    decreases |items|
  {
    if items != [] {
      var r := RunItem(world, live, st, sys, items[0]);
      var ticked := r.sys.(disk := r.sys.disk.(plan := Some(SetChecked(r.sys.disk.plan.value, items[0]))));
      RunItemsSucceed(world, live, r.state, ticked, items[1..]);
    }
  }

  /** If agents do not fail, the machine always ends in DONE or FAILED. */
  lemma {:induction false} SucceedingAgentsFinish(world: World, live: nat -> bool, mode: Mode,
                                                  st: ComposeState, sys: Sys)
    requires AgentsSucceed(world)
    requires mode.Two? && (st.phase.Implement? || st.phase.Check?) ==> sys.disk.plan.Some?
    ensures var out := Run(world, live, mode, st, sys); out.Finished? && IsTerminal(out.state.phase)
    decreases RoundsLeft(st), Rank(st.phase)
  {
    if !IsTerminal(st.phase) {
      TurnGoes(world, live, mode, st, sys);
      if st.phase.Implement? && mode.Two? {
        RunItemsSucceed(world, live, st, sys, PendingFrom(sys.disk.plan.value, 0));
      }
      var r := Turn(world, live, mode, st, sys);
      SucceedingAgentsFinish(world, live, mode, r.state, r.sys);
    }
  }

  /** Single mode, agents succeeding: DONE exactly when some round that may be tried passes the tests. */
  lemma {:induction false} SingleModeOutcome(world: World, live: nat -> bool, st: ComposeState, sys: Sys)
    requires AgentsSucceed(world) && !IsTerminal(st.phase)
    ensures var out := Run(world, live, Single, st, sys);
            && out.Finished?
            && (out.state.phase.Done? <==>
                  exists r :: st.round <= r <= st.round + RoundsLeft(st) && world.test(r) == 0)
            && (out.state.phase.Done? ==>
                  && world.test(out.state.round) == 0
                  && forall r :: st.round <= r < out.state.round ==> world.test(r) != 0)
    decreases RoundsLeft(st), Rank(st.phase)
  {
    TurnGoes(world, live, Single, st, sys);
    var r := Turn(world, live, Single, st, sys);
    if !IsTerminal(r.state.phase) {
      SingleModeOutcome(world, live, r.state, r.sys);
    }
  }

  // ---------- crash and resume ----------

  /** The configuration after k turns, if the machine gets that far. */
  function AfterTurns(world: World, live: nat -> bool, mode: Mode, st: ComposeState, sys: Sys, k: nat): Option<Config>
    decreases k
  {
    if k == 0 then Some(Config(st, sys))
    else if IsTerminal(st.phase) then None
    else
      match Turn(world, live, mode, st, sys)
      case Abort(_, _) => None
      case Go(st', after) => AfterTurns(world, live, mode, st', after, k - 1)
  }

  /** At a phase boundary the disk holds the state the machine goes on with. */
  lemma {:induction false} BoundaryIsSaved(world: World, live: nat -> bool, mode: Mode,
                                           st: ComposeState, sys: Sys, k: nat)
    requires AfterTurns(world, live, mode, st, sys, k).Some?
    ensures var c := AfterTurns(world, live, mode, st, sys, k).value;
            && c.state.mode == st.mode && c.state.maxRounds == st.maxRounds && c.state.round >= st.round
            && (k > 0 ==> c.sys.disk.state == Some(c.state))
    decreases k
  {
    if k > 0 {
      TurnGoes(world, live, mode, st, sys);
      var r := Turn(world, live, mode, st, sys);
      BoundaryIsSaved(world, live, mode, r.state, r.sys, k - 1);
    }
  }

  lemma PrependNothing(out: Outcome)
    ensures Prepend([], out) == out
  {
    if !out.Corrupt? {
      assert [] + out.trace == out.trace;
    }
  }

  lemma PrependTwice(a: seq<Config>, b: seq<Config>, out: Outcome)
    ensures Prepend(a, Prepend(b, out)) == Prepend(a + b, out)
  {
    if !out.Corrupt? {
      assert a + (b + out.trace) == a + b + out.trace;
    }
  }

  /** A run is its first k turns and then the run from where they lead. */
  lemma {:induction false} CutRun(world: World, live: nat -> bool, mode: Mode, st: ComposeState, sys: Sys, k: nat)
      returns (head: seq<Config>)
    requires AfterTurns(world, live, mode, st, sys, k).Some?
    ensures var c := AfterTurns(world, live, mode, st, sys, k).value;
            |head| == k && Run(world, live, mode, st, sys) == Prepend(head, Run(world, live, mode, c.state, c.sys))
    decreases k
  {
    if k == 0 {
      head := [];
      PrependNothing(Run(world, live, mode, st, sys));
    } else {
      TurnGoes(world, live, mode, st, sys);
      var r := Turn(world, live, mode, st, sys);
      var c := AfterTurns(world, live, mode, st, sys, k).value;
      var rest := CutRun(world, live, mode, r.state, r.sys, k - 1);
      PrependTwice([Config(st, sys)], rest, Run(world, live, mode, c.state, c.sys));
      head := [Config(st, sys)] + rest;
    }
  }

  /**
   Crash and resume: cut a run at any phase boundary and start a new process with the same options
   on what is on disk. It continues exactly like the uninterrupted one, if and only if nothing was
   saved yet or maxRounds is positive: a fresh run accepts maxRounds below 1, but state.json then
   does not parse.
   */
  lemma ResumeContinues(opts: Options, world: World, live: nat -> bool, sys: Sys, k: nat)
    requires Load(opts, sys).Some?
    requires AfterTurns(world, live, ModeOf(opts, sys), Load(opts, sys).value, sys, k).Some?
    ensures var c := AfterTurns(world, live, ModeOf(opts, sys), Load(opts, sys).value, sys, k).value;
            var whole := RunCompose(opts, world, live, sys);
            !whole.Corrupt? && k <= |whole.trace|
            && (whole == Prepend(whole.trace[..k], RunCompose(opts, world, live, c.sys))
                <==> k == 0 || Load(opts, sys).value.maxRounds > 0)
  {
    var st, mode := Load(opts, sys).value, ModeOf(opts, sys);
    var c := AfterTurns(world, live, mode, st, sys, k).value;
    var head := CutRun(world, live, mode, st, sys, k);
    BoundaryIsSaved(world, live, mode, st, sys, k);
    RunEnds(world, live, mode, c.state, c.sys);
    assert Run(world, live, mode, st, sys).trace[..k] == head;
  }

  /** A concrete case of the failing half. */
  lemma ResumeNeedsPositiveMaxRounds(world: World, live: nat -> bool)
    ensures var opts := Options("goal", None, Some(0), false);
            var sys := Sys(Disk(None, None, None, None), []);
            var c := AfterTurns(world, live, Single, CreateState(opts), sys, 1);
            && c.Some?
            && RunCompose(opts, world, live, c.value.sys).Corrupt?
            && !RunCompose(opts, world, live, sys).Corrupt?
  {
    var opts := Options("goal", None, Some(0), false);
    var sys := Sys(Disk(None, None, None, None), []);
    RunEnds(world, live, Single, CreateState(opts), sys);
    var r := Turn(world, live, Single, CreateState(opts), sys);
    assert r.Go?;
    assert AfterTurns(world, live, Single, r.state, r.sys, 0) == Some(Config(r.state, r.sys));
  }
}
