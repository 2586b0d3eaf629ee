/** Round-robin agent selection: the shared counter, its brokered twin, and the retry loop that uses it. */
module RoundRobin {
  import opened Text

  /** The `scheduler` part of state.json: the index last picked under each key. */
  type Scheduler = map<string, nat>

  /** The index after the one last picked, for a pool of n; a key that was never used starts at 0. */
  function NextIndex(s: Scheduler, key: string, n: nat): (i: nat)
    requires n > 0
    ensures i < n
  {
    (if key in s then s[key] + 1 else 0) % n
  }

  /** A key that was never used starts at 0; after that it is the next index, and 0 again after the last. */
  lemma PickIndex(s: Scheduler, key: string, n: nat)
    requires n > 0
    ensures key !in s ==> NextIndex(s, key, n) == 0
    ensures key in s && s[key] + 1 < n ==> NextIndex(s, key, n) == s[key] + 1
    ensures key in s && s[key] + 1 == n ==> NextIndex(s, key, n) == 0
  {
  }

  function Advance(s: Scheduler, key: string, n: nat): Scheduler
    requires n > 0
  {
    s[key := NextIndex(s, key, n)]
  }

  class StateFile {
    var scheduler: Scheduler

    constructor (s: Scheduler)
      ensures scheduler == s
    {
      scheduler := s;
    }

    /** pickAgent's own path, under the file lock. */
    method PickLocal(key: string, n: nat) returns (index: nat)
      requires n > 0
      modifies this
      ensures index == NextIndex(old(scheduler), key, n) && scheduler == Advance(old(scheduler), key, n)
    {
      var last: int := -1;
      if key in scheduler { last := scheduler[key]; }
      index := (last + 1) % n;
      scheduler := scheduler[key := index];
    }

    /** The daemon's state.pick, which refuses a count that is not positive. */
    method PickBrokered(key: string, count: int) returns (index: Option<nat>)
      modifies this
      ensures index.None? <==> count <= 0
      ensures index.None? ==> scheduler == old(scheduler)
      ensures index.Some? ==> index.value == NextIndex(old(scheduler), key, count)
      ensures index.Some? ==> scheduler == Advance(old(scheduler), key, count)
    {
      if count <= 0 { return None; }
      var current := if key in scheduler then scheduler[key] else -1;
      var next := (current + 1) % count;
      scheduler := scheduler[key := next];
      index := Some(next);
    }
  }

  // ---------- one key on its own ----------

  /** The k-th pick after the pick f, in a pool of n. */
  function Later(f: nat, n: nat, k: nat): (i: nat)
    requires f < n
    ensures i < n
  {
    if k == 0 then f
    else
      var before := Later(f, n, k - 1);
      if before + 1 < n then before + 1 else 0
  }

  lemma StepIsRemainder(i: nat, n: nat)
    requires i < n
    ensures (i + 1) % n == if i + 1 < n then i + 1 else 0
  {
  }

  /** Within one round the picks are a rotation. */
  lemma {:induction false} LaterInRound(f: nat, n: nat, k: nat)
    requires f < n && k <= n
    ensures Later(f, n, k) == if f + k < n then f + k else f + k - n
  {
    if k > 0 { LaterInRound(f, n, k - 1); }
  }

  lemma {:induction false} LaterAdds(f: nat, n: nat, j: nat, k: nat)
    requires f < n
    ensures Later(f, n, j + k) == Later(Later(f, n, j), n, k)
  {
    if k > 0 { LaterAdds(f, n, j, k - 1); }
  }

  /** The place of an agent in a round that starts with f. */
  function PlaceInRound(f: nat, n: nat, a: nat): (k: nat)
    requires f < n && a < n
    ensures k < n
  {
    if a >= f then a - f else a + n - f
  }

  /** Any n consecutive picks hit every agent exactly once. */
  lemma EveryAgentOnce(f: nat, n: nat, from: nat, a: nat)
    requires f < n && a < n
    ensures exists k :: from <= k < from + n && Later(f, n, k) == a
    ensures forall j, k ::
              from <= j < from + n && from <= k < from + n && Later(f, n, j) == a && Later(f, n, k) == a ==> j == k
  {
    var g := Later(f, n, from);
    var place := PlaceInRound(g, n, a);
    LaterAdds(f, n, from, place);
    LaterInRound(g, n, place);
    assert Later(f, n, from + place) == a;
    forall k | from <= k < from + n && Later(f, n, k) == a
      ensures k == from + place
    {
      LaterAdds(f, n, from, k - from);
      LaterInRound(g, n, k - from);
    }
  }

  /** How often an agent is among the first k picks. */
  function Turns(f: nat, n: nat, a: nat, k: nat): nat
    requires f < n
  {
    if k == 0 then 0 else Turns(f, n, a, k - 1) + if Later(f, n, k - 1) == a then 1 else 0
  }

  lemma {:induction false} TurnsInRound(f: nat, n: nat, a: nat, k: nat)
    requires f < n && a < n && k <= n
    ensures Turns(f, n, a, k) == if PlaceInRound(f, n, a) < k then 1 else 0
  {
    if k > 0 {
      TurnsInRound(f, n, a, k - 1);
      LaterInRound(f, n, k - 1);
    }
  }

  lemma {:induction false} TurnsNextRound(f: nat, n: nat, a: nat, k: nat)
    requires f < n && a < n
    ensures Turns(f, n, a, n + k) == 1 + Turns(f, n, a, k)
  {
    if k == 0 {
      TurnsInRound(f, n, a, n);
    } else {
      TurnsNextRound(f, n, a, k - 1);
      LaterAdds(f, n, n, k - 1);
      LaterInRound(f, n, n);
    }
  }

  lemma {:induction false} TurnsAfterRounds(f: nat, n: nat, a: nat, rounds: nat, rest: nat, k: nat)
    requires f < n && a < n && rest < n && k == rounds * n + rest
    ensures Turns(f, n, a, k) == rounds + if PlaceInRound(f, n, a) < rest then 1 else 0
    decreases rounds
  {
    if rounds == 0 {
      TurnsInRound(f, n, a, rest);
    } else {
      assert k - n == (rounds - 1) * n + rest;
      TurnsAfterRounds(f, n, a, rounds - 1, rest, k - n);
      TurnsNextRound(f, n, a, k - n);
    }
  }

  /** After k picks every agent had k/n turns, rounded down or up. */
  lemma TurnsAreFair(f: nat, n: nat, a: nat, k: nat)
    requires f < n && a < n
    ensures k / n <= Turns(f, n, a, k) <= k / n + if k % n > 0 then 1 else 0
  {
    TurnsAfterRounds(f, n, a, k / n, k % n, k);
  }

  // ---------- several keys ----------

  /** A pick: the key, and the size of the pool it is for. */
  datatype Pick = Pick(key: string, n: nat)

  function RunPicks(s: Scheduler, picks: seq<Pick>): Scheduler
    requires forall k :: 0 <= k < |picks| ==> picks[k].n > 0
  {
    if picks == [] then s
    else
      var last := picks[|picks| - 1];
      Advance(RunPicks(s, picks[..|picks| - 1]), last.key, last.n)
  }

  /** The indices handed out under one key. */
  function Handed(s: Scheduler, picks: seq<Pick>, key: string): seq<nat>
    requires forall k :: 0 <= k < |picks| ==> picks[k].n > 0
  {
    if picks == [] then []
    else
      var init, last := picks[..|picks| - 1], picks[|picks| - 1];
      Handed(s, init, key) + if last.key == key then [NextIndex(RunPicks(s, init), key, last.n)] else []
  }

  /**
   Picks under other keys, whatever their pools, do not show: under one key with a fixed pool the indices are the
   consecutive ones from the first.
   */
  lemma {:induction false} KeysDoNotMix(s: Scheduler, picks: seq<Pick>, key: string, n: nat)
    requires n > 0 && forall k :: 0 <= k < |picks| ==> picks[k].n > 0 && (picks[k].key == key ==> picks[k].n == n)
    ensures var f, out := NextIndex(s, key, n), Handed(s, picks, key);
            && (forall k :: 0 <= k < |out| ==> out[k] == Later(f, n, k))
            && (if out == [] then key in RunPicks(s, picks) <==> key in s
                else key in RunPicks(s, picks) && RunPicks(s, picks)[key] == out[|out| - 1])
            && (out == [] && key in s ==> RunPicks(s, picks)[key] == s[key])
  {
    if picks != [] {
      var init, last := picks[..|picks| - 1], picks[|picks| - 1];
      KeysDoNotMix(s, init, key, n);
      var before := Handed(s, init, key);
      if last.key == key && before != [] {
        StepIsRemainder(before[|before| - 1], n);
      }
    }
  }

  // ---------- the retry loop ----------

  datatype Outcome = Success | AgentFailed(code: int) | OtherError

  datatype RunResult = Finished | Failed(outcome: Outcome) | Exhausted

  function Attempts(retries: int, n: nat): int
    requires n > 0
  {
    1 + if retries < n - 1 then retries else n - 1
  }

  /** Attempts go on after an agent failure, and only then. */
  predicate GoesOn(outcome: Outcome) {
    outcome.AgentFailed?
  }

  /** The agents of the first k attempts. */
  function Tries(first: nat, n: nat, k: nat): (tries: seq<nat>)
    requires first < n
    ensures |tries| == k
  {
    if k == 0 then [] else Tries(first, n, k - 1) + [Later(first, n, k - 1)]
  }

  /** The last attempt, from the k-th on: the first that does not fail as an agent, or the last one allowed. */
  function LastTry(first: nat, n: nat, max: int, outcome: nat -> Outcome, k: nat): (last: nat)
    requires first < n && k < max
    ensures k <= last < max
    ensures GoesOn(outcome(Later(first, n, last))) ==> last == max - 1
    decreases max - k
  {
    if k == max - 1 || !GoesOn(outcome(Later(first, n, k))) then k else LastTry(first, n, max, outcome, k + 1)
  }

  function ResultOf(outcome: Outcome): RunResult {
    if outcome == Success then Finished else Failed(outcome)
  }

  /**
   A run in which these agents were tried: consecutive ones from the first, at most one more than the retries and at
   most all n; all but the last failed as agents, and the last did not, or no more were allowed. The run is finished if
   the last succeeded, and fails as the last did if not.
   */
  predicate Ran(first: nat, n: nat, retries: nat, outcome: nat -> Outcome, tries: seq<nat>, r: RunResult)
    requires n > 0
  {
    && 0 < |tries| <= n && |tries| <= retries + 1
    && (forall i :: 0 <= i < |tries| ==> tries[i] == if first + i < n then first + i else first + i - n)
    && (forall i :: 0 <= i < |tries| - 1 ==> outcome(tries[i]).AgentFailed?)
    && var last := outcome(tries[|tries| - 1]);
       && (last.AgentFailed? ==> |tries| == n || |tries| == retries + 1)
       && r == match last case Success => Finished case AgentFailed(_) => Failed(last) case OtherError => Failed(last)
  }

  lemma {:induction false} TriesAt(first: nat, n: nat, k: nat, i: nat)
    requires first < n && i < k
    ensures Tries(first, n, k)[i] == Later(first, n, i)
  {
    if i < k - 1 { TriesAt(first, n, k - 1, i); }
  }

  lemma {:induction false} AllBeforeFailed(first: nat, n: nat, max: int, outcome: nat -> Outcome, from: nat, k: nat)
    requires first < n && from < max && from <= k < LastTry(first, n, max, outcome, from)
    ensures GoesOn(outcome(Later(first, n, k)))
    decreases k - from
  {
    if k > from { AllBeforeFailed(first, n, max, outcome, from + 1, k); }
  }

  lemma RunMeans(first: nat, n: nat, retries: nat, outcome: nat -> Outcome)
    requires first < n
    ensures var last := LastTry(first, n, Attempts(retries, n), outcome, 0);
            Ran(first, n, retries, outcome, Tries(first, n, last + 1), ResultOf(outcome(Later(first, n, last))))
  {
    var last := LastTry(first, n, Attempts(retries, n), outcome, 0);
    var tries := Tries(first, n, last + 1);
    forall i | 0 <= i < |tries|
      ensures tries[i] == (if first + i < n then first + i else first + i - n)
      ensures i < |tries| - 1 ==> outcome(tries[i]).AgentFailed?
    {
      TriesAt(first, n, last + 1, i);
      LaterInRound(first, n, i);
      if i < last { AllBeforeFailed(first, n, Attempts(retries, n), outcome, 0, i); }
    }
    TriesAt(first, n, last + 1, last);
  }

  class Runner {
    const state: StateFile
    var tried: seq<nat>

    constructor (s: StateFile)
      ensures state == s && tried == []
    {
      state, tried := s, [];
    }

    method PickNext(key: string, n: nat, ghost first: nat, ghost k: nat) returns (agent: nat)
      requires first < n && k > 0 && key in state.scheduler && state.scheduler[key] == Later(first, n, k - 1)
      modifies state
      ensures agent == Later(first, n, k) && state.scheduler == old(state.scheduler)[key := agent]
    {
      StepIsRemainder(state.scheduler[key], n);
      agent := state.PickLocal(key, n);
    }

    /**
     run: pick an agent, and on an agent failure pick the next, up to the attempts allowed. A negative number of
     retries allows no attempt, after a pick.
     */
    method Run(n: nat, retries: int, key: string, outcome: nat -> Outcome) returns (r: RunResult)
      requires n > 0
      modifies this, state
      ensures var first, max := NextIndex(old(state.scheduler), key, n), Attempts(retries, n);
              if max <= 0 then r == Exhausted && tried == [] && state.scheduler == old(state.scheduler)[key := first]
              else
                var last := LastTry(first, n, max, outcome, 0);
                && tried == Tries(first, n, last + 1) && r == ResultOf(outcome(Later(first, n, last)))
                && state.scheduler == old(state.scheduler)[key := Later(first, n, last)]
    {
      tried := [];
      ghost var before := state.scheduler;
      ghost var first := NextIndex(before, key, n);
      var max := Attempts(retries, n);
      var agent := state.PickLocal(key, n);
      var attempt := 0;
      while attempt < max
        invariant 0 <= attempt && (attempt > 0 ==> attempt < max)
        invariant tried == Tries(first, n, attempt)
        invariant state.scheduler == before[key := agent]
        invariant agent == Later(first, n, if attempt == 0 then 0 else attempt - 1)
        invariant max > 0 ==> LastTry(first, n, max, outcome, attempt) == LastTry(first, n, max, outcome, 0)
      {
        if attempt > 0 { agent := PickNext(key, n, first, attempt); }
        tried := tried + [agent];
        var result := outcome(agent);
        if result == Success { return Finished; }
        if attempt == max - 1 || !GoesOn(result) { return Failed(result); }
        attempt := attempt + 1;
      }
      r := Exhausted;
    }
  }

  /** The agents of a run are distinct and at most as many as allowed, and all but the last failed as agents. */
  lemma RunTriesDistinctAgents(first: nat, n: nat, retries: int, outcome: nat -> Outcome, j: nat, k: nat)
    requires first < n && Attempts(retries, n) > 0
    requires j < k <= LastTry(first, n, Attempts(retries, n), outcome, 0)
    ensures var tries := Tries(first, n, LastTry(first, n, Attempts(retries, n), outcome, 0) + 1);
            tries[j] != tries[k] && |tries| <= Attempts(retries, n) <= n && GoesOn(outcome(tries[j]))
  {
    var last := LastTry(first, n, Attempts(retries, n), outcome, 0);
    TriesAt(first, n, last + 1, j);
    TriesAt(first, n, last + 1, k);
    LaterInRound(first, n, j);
    LaterInRound(first, n, k);
    AllBeforeFailed(first, n, Attempts(retries, n), outcome, 0, j);
  }
}
