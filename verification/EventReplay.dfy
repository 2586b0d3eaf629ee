/** What every step of the hub keeps, and what a client has received after any run. */
module EventReplay {
  import opened Text
  import opened EventHub

  /** Numbered 1, 2, 3 and so on. */
  predicate Contiguous(log: seq<Event>) {
    forall k :: 0 <= k < |log| ==> log[k].number == k + 1
  }

  ghost predicate AllContiguous(logs: Logs) {
    forall run :: Contiguous(LogOf(logs, run))
  }

  /** What a client has is the start of the log; while it is connected, the rest is in flight. */
  predicate InSync(c: Client, log: seq<Event>) {
    c.received <= log && if c.connected then c.received + c.queue == log else c.queue == []
  }

  ghost predicate Inv(s: State) {
    && AllContiguous(s.logs)
    && (forall run :: run in s.next ==> s.next[run] == |LogOf(s.logs, run)| + 1)
    && (forall k :: 0 <= k < |s.clients| ==> InSync(s.clients[k], LogOf(s.logs, s.clients[k].run)))
  }

  lemma {:induction false} MaxOfContiguous(log: seq<Event>)
    requires Contiguous(log)
    ensures MaxSeq(log) == |log|
  {
    if log != [] { MaxOfContiguous(log[..|log| - 1]); }
  }

  lemma {:induction false} SinceOfContiguous(log: seq<Event>, n: nat)
    requires Contiguous(log) && n <= |log|
    ensures Since(log, n) == log[n..]
  {
    if n < |log| {
      SinceOfContiguous(log[..|log| - 1], n);
      assert log[n..] == log[..|log| - 1][n..] + [log[|log| - 1]];
    } else {
      SinceNothing(log, n);
    }
  }

  lemma {:induction false} SinceNothing(log: seq<Event>, n: nat)
    requires Contiguous(log) && n >= |log|
    ensures Since(log, n) == []
  {
    if log != [] { SinceNothing(log[..|log| - 1], n); }
  }

  /** The next number is one more than the events so far, with or without a counter. */
  lemma NextIsLength(s: State, run: string)
    requires Inv(s)
    ensures NextSeq(s, run) == |LogOf(s.logs, run)| + 1
  {
    MaxOfContiguous(LogOf(s.logs, run));
  }

  lemma SendKeepsSync(c: Client, log: seq<Event>, e: Event)
    requires InSync(c, log)
    ensures InSync(Send(c, c.run, e), log + [e])
  {
    if c.connected {
      assert c.received + (c.queue + [e]) == (c.received + c.queue) + [e];
    }
  }

  lemma LogsAfter(logs: Logs, run: string, e: Event, other: string)
    ensures LogOf(logs[run := LogOf(logs, run) + [e]], other) ==
            if other == run then LogOf(logs, run) + [e] else LogOf(logs, other)
  {
  }

  lemma LogsStayContiguous(logs: Logs, run: string, e: Event, logs2: Logs)
    requires AllContiguous(logs) && e.number == |LogOf(logs, run)| + 1 && logs2 == logs[run := LogOf(logs, run) + [e]]
    ensures AllContiguous(logs2)
  {
    forall r: string
      ensures Contiguous(LogOf(logs2, r))
    {
      LogsAfter(logs, run, e, r);
    }
  }

  lemma ClientStaysInSync(logs: Logs, run: string, e: Event, c: Client)
    requires InSync(c, LogOf(logs, c.run))
    ensures InSync(Send(c, run, e), LogOf(logs[run := LogOf(logs, run) + [e]], Send(c, run, e).run))
  {
    LogsAfter(logs, run, e, c.run);
    if c.run == run { SendKeepsSync(c, LogOf(logs, run), e); }
  }

  lemma PublishKeeps(s: State, run: string, body: string)
    requires Inv(s)
    ensures Inv(Publish(s, run, body))
  {
    NextIsLength(s, run);
    var out := Publish(s, run, body);
    var e := Event(NextSeq(s, run), body);
    LogsStayContiguous(s.logs, run, e, out.logs);
    forall r | r in out.next
      ensures out.next[r] == |LogOf(out.logs, r)| + 1
    {
      LogsAfter(s.logs, run, e, r);
    }
    forall k | 0 <= k < |s.clients|
      ensures InSync(out.clients[k], LogOf(out.logs, out.clients[k].run))
    {
      ClientStaysInSync(s.logs, run, e, s.clients[k]);
    }
  }

  lemma ConnectKeeps(s: State, k: nat)
    requires Inv(s) && k < |s.clients|
    ensures Inv(Connect(s, k))
  {
    var c := s.clients[k];
    var log := LogOf(s.logs, c.run);
    SinceOfContiguous(log, |c.received|);
    assert c.received != [] ==> c.received[|c.received| - 1] == log[|c.received| - 1];
    assert log == log[..|c.received|] + log[|c.received|..];
  }

  lemma ReceiveKeeps(s: State, k: nat)
    requires Inv(s) && k < |s.clients|
    ensures Inv(Receive(s, k))
  {
    var c := s.clients[k];
    if c.connected && c.queue != [] {
      assert (c.received + [c.queue[0]]) + c.queue[1..] == c.received + c.queue;
    }
  }

  lemma StepKeeps(s: State, a: Action)
    requires Inv(s)
    ensures Inv(Step(s, a))
  {
    match a
    case DoPublish(run, body) => PublishKeeps(s, run, body);
    case DoConnect(k) => if k < |s.clients| { ConnectKeeps(s, k); }
    case DoReceive(k) => if k < |s.clients| { ReceiveKeeps(s, k); }
    case DoDisconnect(k) =>
    case DoRestart =>
  }

  lemma {:induction false} RunKeeps(s: State, actions: seq<Action>)
    requires Inv(s)
    ensures Inv(Run(s, actions))
    decreases |actions|
  {
    if actions != [] {
      StepKeeps(s, actions[0]);
      RunKeeps(Step(s, actions[0]), actions[1..]);
    }
  }

  lemma {:induction false} LogsOnlyGrow(s: State, actions: seq<Action>, run: string)
    ensures LogOf(s.logs, run) <= LogOf(Run(s, actions).logs, run) && |Run(s, actions).clients| == |s.clients|
    decreases |actions|
  {
    if actions != [] {
      LogsOnlyGrow(Step(s, actions[0]), actions[1..], run);
    }
  }

  /** A hub starts on logs that an earlier one left, with clients that have seen nothing. */
  predicate Fresh(s: State) {
    && s.next == map[]
    && forall k :: 0 <= k < |s.clients| ==>
         s.clients[k].received == [] && s.clients[k].queue == [] && !s.clients[k].connected
  }

  /**
   Over any interleaving of publishing, connecting, receiving, losing connections and restarting: every log keeps its
   events and is numbered without gaps, and a client has received the start of its run's log, each event once and in
   order. With nothing left in flight, a connected client has received all of it.
   */
  lemma EachEventOnceInOrder(s: State, actions: seq<Action>, run: string, k: nat)
    requires Fresh(s) && AllContiguous(s.logs) && k < |s.clients|
    ensures var out := Run(s, actions);
            && LogOf(s.logs, run) <= LogOf(out.logs, run) && Contiguous(LogOf(out.logs, run))
            && |out.clients| == |s.clients|
            && var c := out.clients[k];
               var log := LogOf(out.logs, c.run);
               && c.received <= log
               && (c.connected ==> c.received + c.queue == log)
               && (c.connected && c.queue == [] ==> c.received == log)
  {
    assert Inv(s);
    RunKeeps(s, actions);
    LogsOnlyGrow(s, actions, run);
  }

  /** A number is never used twice in a run, whatever restarts there were. */
  lemma NumbersAreNew(s: State, actions: seq<Action>, run: string, body: string)
    requires Fresh(s) && AllContiguous(s.logs)
    ensures var out := Run(s, actions);
            && NextSeq(out, run) == |LogOf(out.logs, run)| + 1
            && forall e :: e in LogOf(out.logs, run) ==> 1 <= e.number < NextSeq(out, run)
  {
    assert Inv(s);
    RunKeeps(s, actions);
    NextIsLength(Run(s, actions), run);
  }

  /**
   What a client has that reconnects with a number n: the replay is everything after n, nothing exactly if the log
   has not gone past n; and the next live event is one it must take for old exactly if n is beyond the log.
   */
  lemma NumbersAheadOfTheLog(log: seq<Event>, n: nat, body: string)
    requires Contiguous(log)
    ensures Since(log, n) == (if n <= |log| then log[n..] else [])
    ensures var e := Event(MaxSeq(log) + 1, body); e.number <= n <==> n > |log|
  {
    MaxOfContiguous(log);
    if n <= |log| { SinceOfContiguous(log, n); } else { SinceNothing(log, n); }
  }
}
