/**
 The event hub: sequence numbers per run that survive restarts, and clients that replay and then follow a run.

 One hub writes the logs. A client is an event source in the sense of section 9.2 of the HTML Standard: when it
 reconnects it sends the id of the last event it received. What the server has written and the client has not yet
 received is in flight, and is lost when the connection is.
 */
module EventHub {
  import opened Text

  datatype Event = Event(number: nat, body: string)

  /** `queue` is what is in flight to the client. */
  datatype Client = Client(run: string, received: seq<Event>, connected: bool, queue: seq<Event>)

  type Logs = map<string, seq<Event>>

  datatype State = State(logs: Logs, next: map<string, nat>, clients: seq<Client>)

  /** readEvents: a run without a file has no events. */
  function LogOf(logs: Logs, run: string): seq<Event> {
    if run in logs then logs[run] else []
  }

  /** maxSeqForRun. */
  function MaxSeq(log: seq<Event>): nat {
    if log == [] then 0
    else
      var rest, last := MaxSeq(log[..|log| - 1]), log[|log| - 1].number;
      if last > rest then last else rest
  }

  /** readEventsSince. */
  function Since(log: seq<Event>, n: nat): seq<Event> {
    if log == [] then []
    else Since(log[..|log| - 1], n) + if log[|log| - 1].number > n then [log[|log| - 1]] else []
  }

  /** The id of the last event received, which a first connection does not have. */
  function LastId(received: seq<Event>): nat {
    if received == [] then 0 else received[|received| - 1].number
  }

  // ---------- steps ----------

  /** nextSeq: the counter of a run, started from its log when the hub has not used it yet. */
  function NextSeq(s: State, run: string): nat {
    if run in s.next then s.next[run] else MaxSeq(LogOf(s.logs, run)) + 1
  }

  function Send(c: Client, run: string, e: Event): Client {
    if c.connected && c.run == run then c.(queue := c.queue + [e]) else c
  }

  function SendAll(clients: seq<Client>, run: string, e: Event): (out: seq<Client>)
    ensures |out| == |clients|
    ensures forall k :: 0 <= k < |clients| ==> out[k] == Send(clients[k], run, e)
  {
    if clients == [] then [] else [Send(clients[0], run, e)] + SendAll(clients[1..], run, e)
  }

  /** Publishing an event without a number: number it, append it to the log, write it to the clients of the run. */
  function Publish(s: State, run: string, body: string): State {
    var e := Event(NextSeq(s, run), body);
    State(
      s.logs[run := LogOf(s.logs, run) + [e]],
      s.next[run := e.number + 1],
      SendAll(s.clients, run, e)
    )
  }

  /** Connecting registers the client and replays what it has not seen. */
  function Connect(s: State, k: nat): State
    requires k < |s.clients|
  {
    var c := s.clients[k];
    if c.connected then s
    else s.(clients := s.clients[k := c.(connected := true, queue := Since(LogOf(s.logs, c.run), LastId(c.received)))])
  }

  function Receive(s: State, k: nat): State
    requires k < |s.clients|
  {
    var c := s.clients[k];
    if c.connected && c.queue != []
    then s.(clients := s.clients[k := c.(received := c.received + [c.queue[0]], queue := c.queue[1..])])
    else s
  }

  function Dropped(c: Client): Client {
    c.(connected := false, queue := [])
  }

  function Disconnect(s: State, k: nat): State
    requires k < |s.clients|
  {
    s.(clients := s.clients[k := Dropped(s.clients[k])])
  }

  /** A new hub on the same logs: no counters, and no connections. */
  function Restart(s: State): State {
    State(s.logs, map[], seq(|s.clients|, k requires 0 <= k < |s.clients| => Dropped(s.clients[k])))
  }

  datatype Action = DoPublish(run: string, body: string) | DoConnect(client: nat) | DoReceive(client: nat)
                  | DoDisconnect(client: nat) | DoRestart

  function Step(s: State, a: Action): State {
    match a
    case DoPublish(run, body) => Publish(s, run, body)
    case DoConnect(k) => if k < |s.clients| then Connect(s, k) else s
    case DoReceive(k) => if k < |s.clients| then Receive(s, k) else s
    case DoDisconnect(k) => if k < |s.clients| then Disconnect(s, k) else s
    case DoRestart => Restart(s)
  }

  function Run(s: State, actions: seq<Action>): State
    decreases |actions|
  {
    if actions == [] then s else Run(Step(s, actions[0]), actions[1..])
  }

  // ---------- the hub ----------

  class Hub {
    var logs: Logs
    var next: map<string, nat>
    var clients: seq<Client>

    constructor (logs0: Logs, clients0: seq<Client>)
      ensures Current() == State(logs0, map[], clients0)
    {
      logs, next, clients := logs0, map[], clients0;
    }

    function Current(): State
      reads this
    {
      State(logs, next, clients)
    }

    method ReadMaxSeq(run: string) returns (max: nat)
      ensures max == MaxSeq(LogOf(logs, run))
    {
      var log := LogOf(logs, run);
      max := 0;
      var i := 0;
      while i < |log|
        invariant 0 <= i <= |log| && max == MaxSeq(log[..i])
      {
        assert log[..i + 1][..i] == log[..i];
        if log[i].number > max { max := log[i].number; }
        i := i + 1;
      }
      assert log[..i] == log;
    }

    /** nextSeq. */
    method TakeSeq(run: string) returns (n: nat)
      modifies this`next
      ensures n == NextSeq(old(Current()), run) && next == old(next)[run := n + 1]
    {
      if run !in next {
        var max := ReadMaxSeq(run);
        next := next[run := max + 1];
      }
      n := next[run];
      next := next[run := n + 1];
    }

    method Broadcast(run: string, body: string) returns (e: Event)
      modifies this
      ensures Current() == Publish(old(Current()), run, body) && e == Event(NextSeq(old(Current()), run), body)
    {
      var n := TakeSeq(run);
      e := Event(n, body);
      logs := logs[run := LogOf(logs, run) + [e]];
      var i := 0;
      ghost var clients0 := clients;
      while i < |clients|
        invariant 0 <= i <= |clients| == |clients0|
        invariant forall k :: 0 <= k < |clients| ==>
                    clients[k] == if k < i then Send(clients0[k], run, e) else clients0[k]
        invariant logs == old(logs)[run := LogOf(old(logs), run) + [e]] && next == old(next)[run := n + 1]
      {
        var c := clients[i];
        if c.connected && c.run == run { clients := clients[i := c.(queue := c.queue + [e])]; }
        i := i + 1;
      }
      assert clients == SendAll(clients0, run, e);
    }

    method Subscribe(k: nat)
      requires k < |clients|
      modifies this`clients
      ensures Current() == Connect(old(Current()), k)
    {
      var c := clients[k];
      if c.connected { return; }
      clients := clients[k := c.(connected := true, queue := [])];
      var log, since := LogOf(logs, c.run), LastId(c.received);
      var queue: seq<Event> := [];
      var i := 0;
      while i < |log|
        invariant 0 <= i <= |log| && queue == Since(log[..i], since)
      {
        assert log[..i + 1][..i] == log[..i];
        if log[i].number > since { queue := queue + [log[i]]; }
        i := i + 1;
      }
      assert log[..i] == log;
      clients := clients[k := c.(connected := true, queue := queue)];
    }
  }
}
