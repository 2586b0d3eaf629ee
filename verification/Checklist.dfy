/** IMPLEMENT in plan-then-do mode: each pending item gets one agent, and what a crash inside an item leads to. */
module Checklist {
  import opened Text
  import opened Compose

  // ---------- the loop over the items ----------

  /** Item agents that do their work and leave plan.md alone. */
  ghost predicate ItemAgentsBehave(world: World) {
    forall round, item, plan, verdict ::
      var reply := world.agent(Implement, round, item, plan, verdict); reply.code == 0 && reply.plan == plan
  }

  /** No saved run is in flight. */
  predicate NoneLive(runs: seq<RunRef>, live: nat -> bool) {
    forall k :: 0 <= k < |runs| ==> !live(runs[k].runId)
  }

  function StartsOf(round: int, items: seq<nat>): seq<Start> {
    seq(|items|, k requires 0 <= k < |items| => Start(Implement, round, items[k]))
  }

  function CheckAll(items: seq<Item>, ticks: seq<nat>): seq<Item>
    decreases |ticks|
  {
    if ticks == [] then items else CheckAll(SetChecked(items, ticks[0]), ticks[1..])
  }

  lemma {:induction false} FindRunNone(runs: seq<RunRef>, item: nat, live: nat -> bool)
    requires forall k :: 0 <= k < |runs| ==>
               !(runs[k].phase.Implement? && runs[k].item == Some(item) && live(runs[k].runId))
    ensures FindRun(runs, item, live) == None
  {
    if runs != [] { FindRunNone(runs[1..], item, live); }
  }

  lemma {:induction false} DropRunMembers(runs: seq<RunRef>, runId: nat)
    ensures forall r :: r in DropRun(runs, runId) <==> r in runs && r.runId != runId
  {
    if runs != [] {
      DropRunMembers(runs[1..], runId);
      assert runs == [runs[0]] + runs[1..];
    }
  }

  /** One item, nothing in flight: it is started once, the plan stays, and no run is left behind. */
  lemma ItemRuns(world: World, live: nat -> bool, st: ComposeState, sys: Sys, item: nat)
    requires ItemAgentsBehave(world) && NoneLive(st.runs, live)
    ensures var r := RunItem(world, live, st, sys, item);
            && r.Go? && r.state == st.(runs := r.state.runs) && NoneLive(r.state.runs, live)
            && r.sys.started == sys.started + [Start(Implement, st.round, item)]
            && r.sys.disk.plan == sys.disk.plan && r.sys.disk.state == Some(r.state)
  {
    FindRunNone(st.runs, item, live);
    var b := BeginItem(st, sys, item, live);
    DropRunMembers(b.state.runs, b.runId);
    var left := DropRun(b.state.runs, b.runId);
    forall k | 0 <= k < |left|
      ensures !live(left[k].runId)
    {
      assert left[k] in left;
      assert left[k] in st.runs;
    }
  }

  /** The loop over a list of items starts each of them once, in order, and ticks them all. */
  lemma {:induction false} ItemsRun(world: World, live: nat -> bool, st: ComposeState, sys: Sys, items: seq<nat>)
    requires ItemAgentsBehave(world) && NoneLive(st.runs, live) && sys.disk.plan.Some?
    ensures var r := RunItems(world, live, st, sys, items);
            && r.Go? && NoneLive(r.state.runs, live)
            && r.sys.started == sys.started + StartsOf(st.round, items)
            && r.sys.disk.plan == Some(CheckAll(sys.disk.plan.value, items))
    decreases |items|
  {
    if items != [] {
      ItemRuns(world, live, st, sys, items[0]);
      var r := RunItem(world, live, st, sys, items[0]);
      var ticked := r.sys.(disk := r.sys.disk.(plan := Some(SetChecked(r.sys.disk.plan.value, items[0]))));
      ItemsRun(world, live, r.state, ticked, items[1..]);
      assert StartsOf(st.round, items) == [Start(Implement, st.round, items[0])] + StartsOf(st.round, items[1..]);
    }
  }

  lemma {:induction false} PendingExact(items: seq<Item>, k: nat)
    requires k <= |items|
    ensures forall i :: i in PendingFrom(items, k) <==> k <= i < |items| && !items[i].checked
    ensures forall a, b :: 0 <= a < b < |PendingFrom(items, k)| ==> PendingFrom(items, k)[a] < PendingFrom(items, k)[b]
    decreases |items| - k
  {
    if k < |items| {
      PendingExact(items, k + 1);
      var rest := PendingFrom(items, k + 1);
      assert forall b :: 0 <= b < |rest| ==> rest[b] in rest;
    }
  }

  lemma {:induction false} CheckAllExact(items: seq<Item>, ticks: seq<nat>)
    requires forall t :: t in ticks ==> t < |items|
    ensures |CheckAll(items, ticks)| == |items|
    ensures forall i :: 0 <= i < |items| ==>
              CheckAll(items, ticks)[i] == if i in ticks then items[i].(checked := true) else items[i]
    decreases |ticks|
  {
    if ticks != [] {
      assert ticks == [ticks[0]] + ticks[1..];
      assert forall t :: t in ticks[1..] ==> t in ticks;
      CheckAllExact(SetChecked(items, ticks[0]), ticks[1..]);
    }
  }

  /**
   If agents leave plan.md alone and no saved run is in flight, IMPLEMENT starts an agent for each
   pending item exactly once and in order, changes no text, unticks nothing, and leaves every item
   checked.
   */
  lemma ImplementRunsEachPendingItemOnce(world: World, live: nat -> bool, st: ComposeState, sys: Sys)
    requires ItemAgentsBehave(world) && NoneLive(st.runs, live) && sys.disk.plan.Some?
    ensures var items := sys.disk.plan.value;
            var r := ImplementTwo(world, live, st, sys);
            && r.Go? && r.sys.disk.plan.Some?
            && r.sys.started == sys.started + StartsOf(st.round, PendingFrom(items, 0))
            && |r.sys.disk.plan.value| == |items|
            && forall i :: 0 <= i < |items| ==> r.sys.disk.plan.value[i] == items[i].(checked := true)
  {
    var items := sys.disk.plan.value;
    PendingExact(items, 0);
    CheckAllExact(items, PendingFrom(items, 0));
    ItemsRun(world, live, st, sys, PendingFrom(items, 0));
  }

  // ---------- a crash inside IMPLEMENT ----------

  /** Run ids are handed out once: a saved reference names an agent that was started before. */
  predicate KnownRuns(st: ComposeState, sys: Sys) {
    forall k :: 0 <= k < |st.runs| ==> st.runs[k].runId < |sys.started|
  }

  /** A run that had ended before the crash has ended after it. */
  predicate NoneRevives(runs: seq<RunRef>, live: nat -> bool, live': nat -> bool) {
    forall k :: 0 <= k < |runs| && live'(runs[k].runId) ==> live(runs[k].runId)
  }

  lemma {:induction false} FindIsLive(runs: seq<RunRef>, item: nat, live: nat -> bool)
    ensures FindRun(runs, item, live).Some? ==> live(FindRun(runs, item, live).value.runId)
  {
    if runs != [] { FindIsLive(runs[1..], item, live); }
  }

  lemma {:induction false} FindAppended(runs: seq<RunRef>, ref: RunRef, item: nat, live: nat -> bool)
    requires FindRun(runs, item, live).None? && ref.phase.Implement? && ref.item == Some(item)
    ensures FindRun(runs + [ref], item, live) == if live(ref.runId) then Some(ref) else None
  {
    if runs != [] {
      assert (runs + [ref])[1..] == runs[1..] + [ref];
      FindAppended(runs[1..], ref, item, live);
    }
  }

  /** What was found is found again as long as it runs; what was not found is not found later. */
  lemma {:induction false} FindAgain(runs: seq<RunRef>, item: nat, live: nat -> bool, live': nat -> bool)
    requires NoneRevives(runs, live, live')
    ensures FindRun(runs, item, live).None? ==> FindRun(runs, item, live').None?
    ensures FindRun(runs, item, live).Some? && live'(FindRun(runs, item, live).value.runId) ==>
              FindRun(runs, item, live') == FindRun(runs, item, live)
  {
    if runs != [] { FindAgain(runs[1..], item, live, live'); }
  }

  /**
   A process that begins an item again after a crash finds everything as it was, and starts nothing,
   exactly if the run it saved is still running; the item then ends as it would have.
   */
  lemma InFlightItemIsReattached(world: World, live: nat -> bool, live': nat -> bool,
                                 st: ComposeState, sys: Sys, item: nat)
    requires KnownRuns(st, sys) && NoneRevives(st.runs, live, live')
    ensures var b := BeginItem(st, sys, item, live);
            && (BeginItem(b.state, b.sys, item, live') == b <==> live'(b.runId))
            && (live'(b.runId) ==> RunItem(world, live', b.state, b.sys, item) == RunItem(world, live, st, sys, item))
  {
    var b := BeginItem(st, sys, item, live);
    FindAgain(st.runs, item, live, live');
    FindIsLive(b.state.runs, item, live');
    if FindRun(st.runs, item, live).None? {
      FindAppended(st.runs, RunRef(Implement, Some(item), b.runId), item, live');
    }
  }

  /** A run that ended while no process was there to see it is not found: the item is started a second time. */
  lemma EndedRunStartsAgain(live: nat -> bool, live': nat -> bool, st: ComposeState, sys: Sys, item: nat)
    requires NoneLive(st.runs, live) && NoneLive(st.runs, live') && !live'(|sys.started|)
    ensures var b := BeginItem(st, sys, item, live);
            && b.sys.started == sys.started + [Start(Implement, st.round, item)]
            && BeginItem(b.state, b.sys, item, live').sys.started == b.sys.started + [Start(Implement, st.round, item)]
  {
    FindRunNone(st.runs, item, live);
    FindRunNone(st.runs, item, live');
    FindAppended(st.runs, RunRef(Implement, Some(item), |sys.started|), item, live');
  }

  /** Runs that have ended make no difference. */
  lemma {:induction false} ItemsAgree(world: World, live: nat -> bool, live': nat -> bool,
                                      st: ComposeState, sys: Sys, items: seq<nat>)
    requires ItemAgentsBehave(world) && NoneLive(st.runs, live) && NoneLive(st.runs, live') && sys.disk.plan.Some?
    ensures RunItems(world, live', st, sys, items) == RunItems(world, live, st, sys, items)
    decreases |items|
  {
    if items != [] {
      FindRunNone(st.runs, items[0], live);
      FindRunNone(st.runs, items[0], live');
      ItemRuns(world, live, st, sys, items[0]);
      ItemRuns(world, live', st, sys, items[0]);
      var r := RunItem(world, live, st, sys, items[0]);
      var ticked := r.sys.(disk := r.sys.disk.(plan := Some(SetChecked(r.sys.disk.plan.value, items[0]))));
      ItemsAgree(world, live, live', r.state, ticked, items[1..]);
    }
  }

  lemma {:induction false} RunItemsSplit(world: World, live: nat -> bool,
                                         st: ComposeState, sys: Sys, items: seq<nat>, j: nat)
    requires j <= |items| && RunItems(world, live, st, sys, items[..j]).Go?
    ensures var head := RunItems(world, live, st, sys, items[..j]);
            RunItems(world, live, st, sys, items) == RunItems(world, live, head.state, head.sys, items[j..])
    decreases j
  {
    if j > 0 {
      assert items[..j][0] == items[0] && items[..j][1..] == items[1..][..j - 1] && items[1..][j - 1..] == items[j..];
      var r := RunItem(world, live, st, sys, items[0]);
      var ticked := r.sys.(disk := r.sys.disk.(plan := Some(SetChecked(r.sys.disk.plan.value, items[0]))));
      RunItemsSplit(world, live, r.state, ticked, items[1..], j - 1);
    }
  }

  lemma {:induction false} PendingSameTail(a: seq<Item>, b: seq<Item>, k: nat)
    requires k <= |a| == |b| && forall i :: k <= i < |a| ==> a[i] == b[i]
    ensures PendingFrom(a, k) == PendingFrom(b, k)
    decreases |a| - k
  {
    if k < |a| { PendingSameTail(a, b, k + 1); }
  }

  lemma {:induction false} TickFirst(items: seq<Item>, k: nat)
    requires k <= |items| && PendingFrom(items, k) != []
    ensures PendingFrom(SetChecked(items, PendingFrom(items, k)[0]), k) == PendingFrom(items, k)[1..]
    decreases |items| - k
  {
    if items[k].checked {
      PendingExact(items, k + 1);
      assert PendingFrom(items, k) == PendingFrom(items, k + 1);
      assert PendingFrom(items, k)[0] in PendingFrom(items, k + 1);
      TickFirst(items, k + 1);
    } else {
      PendingSameTail(items, SetChecked(items, k), k + 1);
    }
  }

  lemma {:induction false} TickSome(items: seq<Item>, j: nat)
    requires j <= |PendingFrom(items, 0)|
    ensures PendingFrom(CheckAll(items, PendingFrom(items, 0)[..j]), 0) == PendingFrom(items, 0)[j..]
    decreases j
  {
    var p := PendingFrom(items, 0);
    if j > 0 {
      TickFirst(items, 0);
      TickSome(SetChecked(items, p[0]), j - 1);
      assert p[..j][0] == p[0] && p[..j][1..] == p[1..][..j - 1] && p[1..][j - 1..] == p[j..];
    }
  }

  /** Where IMPLEMENT stands when j pending items are done and ticked. */
  function AfterItems(world: World, live: nat -> bool, st: ComposeState, sys: Sys, j: nat): Result
    requires sys.disk.plan.Some? && j <= |PendingFrom(sys.disk.plan.value, 0)|
  {
    RunItems(world, live, st, sys, PendingFrom(sys.disk.plan.value, 0)[..j])
  }

  /** Cut after any item: the resumed IMPLEMENT runs the items that are still pending, and ends the same. */
  lemma CutAfterItem(world: World, live: nat -> bool, st: ComposeState, sys: Sys, j: nat)
    requires ItemAgentsBehave(world) && NoneLive(st.runs, live) && sys.disk.plan.Some?
    requires j <= |PendingFrom(sys.disk.plan.value, 0)|
    ensures var head := AfterItems(world, live, st, sys, j);
            && head.Go? && head.sys.disk.plan.Some? && NoneLive(head.state.runs, live)
            && PendingFrom(head.sys.disk.plan.value, 0) == PendingFrom(sys.disk.plan.value, 0)[j..]
            && ImplementTwo(world, live, head.state, head.sys) == ImplementTwo(world, live, st, sys)
  {
    var p := PendingFrom(sys.disk.plan.value, 0);
    ItemsRun(world, live, st, sys, p[..j]);
    TickSome(sys.disk.plan.value, j);
    RunItemsSplit(world, live, st, sys, p, j);
  }

  /** The states of a checklist loop are on disk, and their run references are of started agents. */
  lemma {:induction false} ItemsKeepRefs(world: World, live: nat -> bool, st: ComposeState, sys: Sys, items: seq<nat>)
    requires KnownRuns(st, sys) && sys.disk.state == Some(st)
    ensures var r := RunItems(world, live, st, sys, items);
            r.Go? ==> KnownRuns(r.state, r.sys) && r.sys.disk.state == Some(r.state)
    decreases |items|
  {
    if items != [] {
      var b := BeginItem(st, sys, items[0], live);
      var r := RunItem(world, live, st, sys, items[0]);
      if r.Go? && r.sys.disk.plan.Some? {
        DropRunMembers(b.state.runs, b.runId);
        assert forall k :: 0 <= k < |r.state.runs| ==>
                 r.state.runs[k] in r.state.runs && r.state.runs[k] in b.state.runs;
        var ticked := r.sys.(disk := r.sys.disk.(plan := Some(SetChecked(r.sys.disk.plan.value, items[0]))));
        ItemsKeepRefs(world, live, r.state, ticked, items[1..]);
      }
    }
  }

  lemma StartsSplit(round: int, items: seq<nat>, j: nat)
    requires j < |items|
    ensures StartsOf(round, items) == StartsOf(round, items[..j + 1]) + StartsOf(round, items[j + 1..])
    ensures StartsOf(round, items[..j + 1]) == StartsOf(round, items[..j]) + [Start(Implement, round, items[j])]
  {
  }

  /** IMPLEMENT as it stands after j items, seen by this process and by one that starts after a crash. */
  lemma AtItem(world: World, live: nat -> bool, live': nat -> bool, st: ComposeState, sys: Sys, j: nat)
    requires ItemAgentsBehave(world) && sys.disk.plan.Some? && j < |PendingFrom(sys.disk.plan.value, 0)|
    requires NoneLive(st.runs, live) && NoneLive(st.runs, live')
    requires KnownRuns(st, sys) && sys.disk.state == Some(st)
    ensures var p, head := PendingFrom(sys.disk.plan.value, 0), AfterItems(world, live, st, sys, j);
            && head.Go? && NoneLive(head.state.runs, live) && NoneLive(head.state.runs, live')
            && KnownRuns(head.state, head.sys) && head.sys.disk.state == Some(head.state)
            && head.state.round == st.round && head.sys.started == sys.started + StartsOf(st.round, p[..j])
            && head.sys.disk.plan.Some? && PendingFrom(head.sys.disk.plan.value, 0) == p[j..]
            && ImplementTwo(world, live, head.state, head.sys) == ImplementTwo(world, live, st, sys)
  {
    var p := PendingFrom(sys.disk.plan.value, 0);
    CutAfterItem(world, live, st, sys, j);
    ItemsKeepRefs(world, live, st, sys, p[..j]);
    RunItemsKeep(world, live, st, sys, p[..j]);
    ItemsRun(world, live, st, sys, p[..j]);
    ItemsAgree(world, live, live', st, sys, p[..j]);
    ItemsRun(world, live', st, sys, p[..j]);
  }

  /** Where a crash inside an item strikes: its agent started but not saved, saved, settled, or the item ticked. */
  datatype CrashPoint = Started | Saved | Settled | Ticked

  /** The item ticked in the plan after its agent went through. */
  function TickItem(r: Result, item: nat): Sys
    requires r.Go? && r.sys.disk.plan.Some?
  {
    r.sys.(disk := r.sys.disk.(plan := Some(SetChecked(r.sys.disk.plan.value, item))))
  }

  /** What the crash leaves behind. */
  function Left(world: World, live: nat -> bool, st: ComposeState, sys: Sys, item: nat, at: CrashPoint): Sys
    requires RunItem(world, live, st, sys, item).Go? && RunItem(world, live, st, sys, item).sys.disk.plan.Some?
  {
    match at
    case Started => sys.(started := sys.started + [Start(Implement, st.round, item)])
    case Saved => BeginItem(st, sys, item, live).sys
    case Settled => RunItem(world, live, st, sys, item).sys
    case Ticked => TickItem(RunItem(world, live, st, sys, item), item)
  }

  /** IMPLEMENT in a new process, which reads the saved state. */
  function Restart(world: World, live: nat -> bool, left: Sys): Result
    requires left.disk.state.Some?
  {
    ImplementTwo(world, live, left.disk.state.value, left)
  }

  lemma RestartStartsPending(world: World, live: nat -> bool, left: Sys, started: seq<Start>, rest: seq<nat>)
    requires ItemAgentsBehave(world) && left.disk.state.Some? && NoneLive(left.disk.state.value.runs, live)
    requires left.disk.plan.Some? && PendingFrom(left.disk.plan.value, 0) == rest && left.started == started
    ensures Restart(world, live, left).Go?
    ensures Restart(world, live, left).sys.started == started + StartsOf(left.disk.state.value.round, rest)
  {
    ImplementRunsEachPendingItemOnce(world, live, left.disk.state.value, left);
  }

  lemma RestartFindsRun(world: World, live: nat -> bool, live': nat -> bool, st: ComposeState, sys: Sys)
    requires ItemAgentsBehave(world) && NoneLive(st.runs, live) && NoneLive(st.runs, live') && KnownRuns(st, sys)
    requires sys.disk.plan.Some? && PendingFrom(sys.disk.plan.value, 0) != []
    ensures var b := BeginItem(st, sys, PendingFrom(sys.disk.plan.value, 0)[0], live);
            live'(b.runId) ==> ImplementTwo(world, live', b.state, b.sys) == ImplementTwo(world, live, st, sys)
  {
    var p := PendingFrom(sys.disk.plan.value, 0);
    FindRunNone(st.runs, p[0], live);
    var b := BeginItem(st, sys, p[0], live);
    if live'(b.runId) {
      InFlightItemIsReattached(world, live, live', st, sys, p[0]);
      ItemRuns(world, live, st, sys, p[0]);
      var r := RunItem(world, live, st, sys, p[0]);
      LeftRuns(b, live');
      ItemsAgree(world, live, live', r.state, TickItem(r, p[0]), p[1..]);
    }
  }

  lemma LeftRuns(b: Begun, live: nat -> bool)
    requires forall k :: 0 <= k < |b.state.runs| && b.state.runs[k].runId != b.runId ==> !live(b.state.runs[k].runId)
    ensures NoneLive(DropRun(b.state.runs, b.runId), live)
  {
    DropRunMembers(b.state.runs, b.runId);
    var left := DropRun(b.state.runs, b.runId);
    forall k | 0 <= k < |left|
      ensures !live(left[k].runId)
    {
      assert left[k] in left;
    }
  }

  /** After a crash at this point a new process finds the item done or its run going. */
  predicate Safe(at: CrashPoint, stillRunning: bool) {
    at.Ticked? || (at.Saved? && stillRunning)
  }

  lemma LeftOnDisk(world: World, live: nat -> bool, live': nat -> bool,
                   st: ComposeState, sys: Sys, item: nat, at: CrashPoint)
    requires ItemAgentsBehave(world) && NoneLive(st.runs, live) && NoneLive(st.runs, live')
    requires sys.disk.plan.Some? && sys.disk.state == Some(st)
    ensures RunItem(world, live, st, sys, item).Go? && RunItem(world, live, st, sys, item).sys.disk.plan.Some?
    ensures var left, b := Left(world, live, st, sys, item, at), BeginItem(st, sys, item, live);
            && left.disk.state.Some? && left.disk.state.value.round == st.round
            && left.started == sys.started + [Start(Implement, st.round, item)]
            && (!at.Ticked? ==> left.disk.plan == sys.disk.plan)
            && (at.Saved? ==> left == b.sys && left.disk.state == Some(b.state))
            && (!(at.Saved? && live'(b.runId)) ==> NoneLive(left.disk.state.value.runs, live'))
  {
    FindRunNone(st.runs, item, live);
    FindRunNone(st.runs, item, live');
    ItemRuns(world, live, st, sys, item);
    ItemRuns(world, live', st, sys, item);
  }

  lemma CrashAfterTick(world: World, live: nat -> bool, live': nat -> bool, st: ComposeState, sys: Sys)
    requires ItemAgentsBehave(world) && NoneLive(st.runs, live) && NoneLive(st.runs, live')
    requires sys.disk.plan.Some? && PendingFrom(sys.disk.plan.value, 0) != [] && sys.disk.state == Some(st)
    ensures var p := PendingFrom(sys.disk.plan.value, 0);
            && RunItem(world, live, st, sys, p[0]).Go? && RunItem(world, live, st, sys, p[0]).sys.disk.plan.Some?
            && var left := Left(world, live, st, sys, p[0], Ticked);
               left.disk.state.Some? && Restart(world, live', left) == ImplementTwo(world, live, st, sys)
  {
    var p := PendingFrom(sys.disk.plan.value, 0);
    LeftOnDisk(world, live, live', st, sys, p[0], Ticked);
    ItemRuns(world, live, st, sys, p[0]);
    var left := Left(world, live, st, sys, p[0], Ticked);
    TickFirst(sys.disk.plan.value, 0);
    ItemsAgree(world, live, live', left.disk.state.value, left, p[1..]);
  }

  /** The first pending item of a phase, and what each crash inside it leaves to be done. */
  lemma CrashInFirstItem(world: World, live: nat -> bool, live': nat -> bool,
                         st: ComposeState, sys: Sys, at: CrashPoint)
    requires ItemAgentsBehave(world) && NoneLive(st.runs, live) && NoneLive(st.runs, live') && KnownRuns(st, sys)
    requires sys.disk.plan.Some? && PendingFrom(sys.disk.plan.value, 0) != [] && sys.disk.state == Some(st)
    ensures var p := PendingFrom(sys.disk.plan.value, 0);
            && RunItem(world, live, st, sys, p[0]).Go? && RunItem(world, live, st, sys, p[0]).sys.disk.plan.Some?
            && var left := Left(world, live, st, sys, p[0], at);
               && left.disk.state.Some? && left.started == sys.started + [Start(Implement, st.round, p[0])]
               && (if Safe(at, live'(BeginItem(st, sys, p[0], live).runId))
                   then Restart(world, live', left) == ImplementTwo(world, live, st, sys)
                   else Restart(world, live', left).Go?
                        && Restart(world, live', left).sys.started == left.started + StartsOf(st.round, p))
  {
    var p := PendingFrom(sys.disk.plan.value, 0);
    LeftOnDisk(world, live, live', st, sys, p[0], at);
    var left := Left(world, live, st, sys, p[0], at);
    if at.Ticked? {
      CrashAfterTick(world, live, live', st, sys);
    } else if at.Saved? && live'(BeginItem(st, sys, p[0], live).runId) {
      RestartFindsRun(world, live, live', st, sys);
    } else {
      RestartStartsPending(world, live', left, left.started, p);
    }
  }

  /**
   A crash inside the j-th pending item. The phase ends as if nothing had happened exactly when the item is
   already ticked, or its run is saved and still running; in every other case the new process starts an agent
   for the same item once more.
   */
  lemma CrashInsideItem(world: World, live: nat -> bool, live': nat -> bool, st: ComposeState, sys: Sys, j: nat,
                        at: CrashPoint)
    requires ItemAgentsBehave(world) && NoneLive(st.runs, live) && NoneLive(st.runs, live')
    requires KnownRuns(st, sys) && sys.disk.state == Some(st)
    requires sys.disk.plan.Some? && j < |PendingFrom(sys.disk.plan.value, 0)|
    ensures var p, head := PendingFrom(sys.disk.plan.value, 0), AfterItems(world, live, st, sys, j);
            && head.Go? && RunItem(world, live, head.state, head.sys, p[j]).Go?
            && RunItem(world, live, head.state, head.sys, p[j]).sys.disk.plan.Some?
            && var left := Left(world, live, head.state, head.sys, p[j], at);
               && left.disk.state.Some? && left.started == sys.started + StartsOf(st.round, p[..j + 1])
               && var again := Restart(world, live', left);
                  && again.Go?
                  && (again == ImplementTwo(world, live, st, sys)
                      <==> Safe(at, live'(BeginItem(head.state, head.sys, p[j], live).runId)))
                  && (again != ImplementTwo(world, live, st, sys) ==>
                        again.sys.started == left.started + StartsOf(st.round, p[j..]))
  {
    var p, head := PendingFrom(sys.disk.plan.value, 0), AfterItems(world, live, st, sys, j);
    AtItem(world, live, live', st, sys, j);
    assert p[j..][0] == p[j];
    CrashInFirstItem(world, live, live', head.state, head.sys, at);
    StartsSplit(st.round, p, j);
    ImplementRunsEachPendingItemOnce(world, live, st, sys);
    var left := Left(world, live, head.state, head.sys, p[j], at);
    assert |left.started + StartsOf(st.round, p[j..])| > |sys.started + StartsOf(st.round, p)|;
  }
}
