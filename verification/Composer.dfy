/** The compose machine as it runs: one process updating its state and the goal's directory. */
module Composer {
  import opened Text
  import opened Verdict
  import opened Compose

  class Machine {
    var sys: Sys            // what outlives the process
    var state: ComposeState // the process's own copy
    var mode: Mode

    constructor (sys: Sys, opts: Options)
      ensures this.sys == sys
    {
      this.sys, state, mode := sys, CreateState(opts), Single;
    }

    /** What the machine shows after some work: where it is, or the ComposeError it raised. */
    function Shows(err: Option<Phase>): Result
      reads this
    {
      if err.Some? then Abort(err.value, sys) else Go(state, sys)
    }

    method SaveState()
      modifies this`sys
      ensures sys == Save(old(sys), state)
    {
      sys := sys.(disk := sys.disk.(state := Some(state)));
    }

    /** A phase that cannot go on: its state goes to disk before the error is raised. */
    method Fail(phase: Phase) returns (err: Option<Phase>)
      modifies this`sys
      ensures err == Some(phase) && sys == Save(old(sys), state)
    {
      SaveState();
      err := Some(phase);
    }

    /** startAt and waitRun for a tier-1 phase. */
    method RunTierOne(world: World, phase: Phase) returns (err: Option<Phase>)
      modifies this`sys
      ensures Shows(err) == RunAgent(world, state, old(sys), phase)
    {
      sys := sys.(started := sys.started + [Start(phase, state.round, 0)]);
      var reply := Ask(world, phase, state.round, 0, sys.disk);
      sys := Deliver(sys, reply);
      err := None;
      if reply.code != 0 { err := Fail(phase); }
    }

    /** Start or reattach to the agent of one item; the reference is on disk before the wait. */
    method RunItemAgent(world: World, live: nat -> bool, item: nat) returns (err: Option<Phase>)
      modifies this`sys, this`state
      ensures Shows(err) == RunItem(world, live, old(state), old(sys), item)
    {
      var saved := FindRun(state.runs, item, live);
      var runId: nat;
      if saved.Some? {
        runId := saved.value.runId;
      } else {
        runId := |sys.started|;
        sys := sys.(started := sys.started + [Start(Implement, state.round, item)]);
        state := state.(runs := state.runs + [RunRef(Implement, Some(item), runId)]);
        SaveState();
      }
      var reply := Ask(world, Implement, state.round, item, sys.disk);
      sys := Deliver(sys, reply);
      if reply.code != 0 {
        err := Fail(Implement);
        return;
      }
      state := state.(runs := DropRun(state.runs, runId));
      SaveState();
      err := None;
    }

    /** The checklist loop of plan-then-do. */
    method ImplementItems(world: World, live: nat -> bool) returns (err: Option<Phase>)
      modifies this`sys, this`state
      ensures Shows(err) == ImplementTwo(world, live, old(state), old(sys))
    {
      if sys.disk.plan.None? {
        err := Fail(Implement);
        return;
      }
      var items := PendingFrom(sys.disk.plan.value, 0);
      var i := 0;
      assert items[0..] == items;
      while i < |items|
        invariant 0 <= i <= |items|
        invariant RunItems(world, live, state, sys, items[i..]) == ImplementTwo(world, live, old(state), old(sys))
      {
        assert items[i..][0] == items[i] && items[i..][1..] == items[i + 1..];
        err := RunItemAgent(world, live, items[i]);
        if err.Some? { return; }
        if sys.disk.plan.None? {
          err := Fail(Implement);
          return;
        }
        sys := sys.(disk := sys.disk.(plan := Some(SetChecked(sys.disk.plan.value, items[i]))));
        i := i + 1;
      }
      err := None;
    }

    method PlanWork(world: World) returns (err: Option<Phase>)
      modifies this`sys
      ensures Shows(err) == PlanPhase(world, state, old(sys))
    {
      err := RunTierOne(world, Plan);
      if err.None? && sys.disk.plan.None? { err := Fail(Plan); }
    }

    /** The gate of single mode asks no agent; the exit code of the test command decides. */
    method TestGate(world: World)
      modifies this`sys, this`state
      ensures Go(state, sys) == CheckSingle(world, old(state), old(sys))
    {
      sys := sys.(disk := sys.disk.(verdict := None));
      var code := world.test(state.round);
      if code == 0 {
        state := state.(phase := Done);
        return;
      }
      sys := sys.(disk := sys.disk.(verdict := Some("FAIL\n" + world.note(code))));
      state := NextRound(state, Implement);
    }

    method ReviewGate(world: World) returns (err: Option<Phase>)
      modifies this`sys, this`state
      ensures Shows(err) == CheckTwo(world, old(state), old(sys))
    {
      if sys.disk.plan.None? {
        err := Fail(Check);
        return;
      }
      sys := sys.(disk := sys.disk.(verdict := None));
      var code := world.test(state.round);
      err := RunTierOne(world, Check);
      if err.Some? { return; }
      if sys.disk.verdict.None? {
        err := Fail(Check);
        return;
      }
      var verdict := ParseVerdict(sys.disk.verdict.value);
      if code != 0 && verdict == Pass {
        sys := sys.(disk := sys.disk.(verdict := Some(ForceFail(sys.disk.verdict.value, world.note(code)))));
        verdict := Verdict.Fail;
      }
      state := if verdict == Pass then state.(phase := Done) else NextRound(state, Plan);
    }

    method Advance(next: Phase)
      modifies this`sys, this`state
      ensures state == old(state).(phase := next) && sys == Save(old(sys), state)
    {
      state := state.(phase := next);
      SaveState();
    }

    /** One turn of the endless switch. */
    method TakeTurn(world: World, live: nat -> bool) returns (err: Option<Phase>)
      requires !IsTerminal(state.phase)
      modifies this`sys, this`state
      ensures Shows(err) == Turn(world, live, mode, old(state), old(sys))
    {
      err := None;
      if state.phase.Investigate? {
        sys := sys.(disk := sys.disk.(context := Some(world.context(sys.disk))));
        Advance(if mode.Single? then Implement else Plan);
      } else if state.phase.Plan? {
        err := PlanWork(world);
        if err.None? { Advance(Implement); }
      } else if state.phase.Implement? {
        if mode.Single? { err := RunItemAgent(world, live, 0); } else { err := ImplementItems(world, live); }
        if err.None? { Advance(Check); }
      } else {
        if mode.Single? { TestGate(world); } else { err := ReviewGate(world); }
        if err.None? { Advance(state.phase); }
      }
    }

    /** The process from loading its state to a terminal phase, a ComposeError or a corrupt file. */
    method RunToEnd(opts: Options, world: World, live: nat -> bool)
        returns (corrupt: bool, err: Option<Phase>, ghost trace: seq<Config>)
      modifies this
      ensures RunCompose(opts, world, live, old(sys)) ==
              if corrupt then Corrupt
              else if err.Some? then Aborted(trace, err.value, sys)
              else Finished(trace, state, sys)
    {
      corrupt, err, trace := false, None, [];
      var loaded := Load(opts, sys);
      if loaded.None? {
        corrupt := true;
        return;
      }
      mode := ModeOf(opts, sys);
      state := loaded.value;
      ghost var whole := RunCompose(opts, world, live, sys);
      RunEnds(world, live, mode, state, sys);
      assert Prepend([], whole) == whole;
      while !IsTerminal(state.phase)
        invariant mode == ModeOf(opts, old(sys)) && err.None?
        invariant !Run(world, live, mode, state, sys).Corrupt?
        invariant whole == Prepend(trace, Run(world, live, mode, state, sys))
        decreases RoundsLeft(state), Rank(state.phase)
      {
        ghost var c := Config(state, sys);
        TurnGoes(world, live, mode, state, sys);
        err := TakeTurn(world, live);
        if err.Some? {
          trace := trace + [c];
          return;
        }
        RunEnds(world, live, mode, state, sys);
        PrependTwice(trace, [c], Run(world, live, mode, state, sys));
        trace := trace + [c];
      }
      assert trace + [] == trace;
    }
  }
}
