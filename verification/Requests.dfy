/** The daemon client's pending requests: each is settled exactly once, by its own id, a timeout or a close. */
module Requests {
  import opened Text
  import opened Framing

  /** A parsed response frame; `body` stands for the rest of it. */
  datatype Response = Response(id: string, body: string)

  /** What a frame parses to. On the JSON value `null` the handler's `res.id` throws. */
  datatype Parsed = Bad | Null | Answer(response: Response)

  datatype Reason = TimedOut | Closed | WriteFailed

  /** A call of a request's `resolve` or `reject`. */
  datatype Settlement = Resolved(id: string, response: Response) | Rejected(id: string, reason: Reason)

  /**
   `pending` is in insertion order; `log` is every settlement made so far, in order; `crashed` says that an exception
   left the data handler, which nothing catches: the process is gone.
   */
  datatype State = State(
    pending: seq<string>,
    issued: nat,
    closed: bool,
    buffer: string,
    log: seq<Settlement>,
    crashed: bool
  )

  const START := State([], 0, false, "", [], false)

  // ---------- single steps ----------

  function IndexOf(ids: seq<string>, id: string): (i: nat)
    ensures i <= |ids|
    ensures i < |ids| ==> ids[i] == id
    ensures i == |ids| <==> id !in ids
  {
    if ids == [] || ids[0] == id then 0 else 1 + IndexOf(ids[1..], id)
  }

  /** One settlement of a pending request. */
  function Settle(s: State, settlement: Settlement): State {
    var i := IndexOf(s.pending, settlement.id);
    if i < |s.pending| then s.(pending := RemoveAt(s.pending, i), log := s.log + [settlement]) else s
  }

  /** `failAll`: every pending request is rejected, in order, and the client takes no more. */
  function FailAll(s: State, reason: Reason): State
    decreases |s.pending|
  {
    if s.pending == [] then s.(closed := true)
    else FailAll(s.(pending := s.pending[1..], log := s.log + [Rejected(s.pending[0], reason)]), reason)
  }

  function NextId(s: State): string {
    Decimal(s.issued + 1)
  }

  function Issued(s: State): State {
    s.(issued := s.issued + 1, pending := s.pending + [NextId(s)])
  }

  /** A new request; `destroyed` when the connection is gone, `fails` when writing the frame throws. */
  function Request(s: State, destroyed: bool, fails: bool): State {
    if s.closed || destroyed then s
    else if fails then Settle(Issued(s), Rejected(NextId(s), WriteFailed))
    else Issued(s)
  }

  /** What the handler does with one frame; texts that do not parse and responses nobody waits for are skipped. */
  function Take(s: State, frame: Parsed): State {
    match frame
    case Bad => s
    case Null => s.(crashed := true)
    case Answer(response) => Settle(s, Resolved(response.id, response))
  }

  function Deliver(s: State, frames: seq<string>, parse: string -> Parsed): State
    decreases |frames|
  {
    if frames == [] || s.crashed then s else Deliver(Take(s, parse(frames[0])), frames[1..], parse)
  }

  function Data(s: State, chunk: string, parse: string -> Parsed): State {
    var split := SplitFrames(s.buffer + chunk);
    Deliver(s.(buffer := split.rest), split.frames, parse)
  }

  /** A request's timer fires, which it does only while the request waits; it takes the connection down. */
  function Timeout(s: State, id: string): State {
    if id in s.pending then FailAll(Settle(s, Rejected(id, TimedOut)), Closed) else s
  }

  datatype Event = Issue(destroyed: bool, fails: bool) | Chunk(text: string) | Timer(id: string) | Close

  /** One event of the process, while there is one. */
  function Step(s: State, e: Event, parse: string -> Parsed): State {
    if s.crashed then s
    else
      match e
      case Issue(destroyed, fails) => Request(s, destroyed, fails)
      case Chunk(text) => Data(s, text, parse)
      case Timer(id) => Timeout(s, id)
      case Close => FailAll(s, Closed)
  }

  function Run(s: State, events: seq<Event>, parse: string -> Parsed): State
    decreases |events|
  {
    if events == [] then s else Run(Step(s, events[0], parse), events[1..], parse)
  }

  // ---------- the client ----------

  class Client {
    var pending: seq<string>
    var issued: nat
    var closed: bool
    var buffer: string
    var log: seq<Settlement>
    var crashed: bool

    constructor ()
      ensures Current() == START
    {
      pending, issued, closed, buffer, log, crashed := [], 0, false, "", [], false;
    }

    function Current(): State
      reads this
    {
      State(pending, issued, closed, buffer, log, crashed)
    }

    method FailEverything(reason: Reason)
      modifies this
      ensures Current() == FailAll(old(Current()), reason)
    {
      closed := true;
      ghost var target := FailAll(Current(), reason);
      while pending != []
        invariant closed && FailAll(Current(), reason) == target
        decreases |pending|
      {
        log := log + [Rejected(pending[0], reason)];
        pending := pending[1..];
      }
      ClosingLast(old(Current()), reason);
    }

    method SettleOne(settlement: Settlement) returns (found: bool)
      modifies this
      ensures Current() == Settle(old(Current()), settlement) && found == (settlement.id in old(pending))
    {
      var i := IndexOf(pending, settlement.id);
      found := i < |pending|;
      if found {
        pending := RemoveAt(pending, i);
        log := log + [settlement];
      }
    }

    /** A request gets the next id, unless the connection is gone. */
    method Send(destroyed: bool, fails: bool) returns (id: Option<string>)
      modifies this
      ensures Current() == Request(old(Current()), destroyed, fails)
      ensures id == if old(closed) || destroyed then None else Some(Decimal(old(issued) + 1))
    {
      if closed || destroyed { return None; }
      issued := issued + 1;
      id := Some(Decimal(issued));
      pending := pending + [id.value];
      if fails { var _ := SettleOne(Rejected(id.value, WriteFailed)); }
    }

    /** The data handler; an exception ends it, and the process, in the middle of a chunk. */
    method OnData(chunk: string, parse: string -> Parsed)
      modifies this
      ensures Current() == Data(old(Current()), chunk, parse)
    {
      buffer := buffer + chunk;
      var split := SplitFrames(buffer);
      buffer := split.rest;
      ghost var before := Current();
      var i := 0;
      assert split.frames[0..] == split.frames;
      while i < |split.frames| && !crashed
        invariant 0 <= i <= |split.frames|
        invariant Deliver(Current(), split.frames[i..], parse) == Deliver(before, split.frames, parse)
      {
        assert split.frames[i..][1..] == split.frames[i + 1..];
        match parse(split.frames[i]) {
          case Bad =>
          case Null => crashed := true;
          case Answer(response) => var _ := SettleOne(Resolved(response.id, response));
        }
        i := i + 1;
      }
    }

    method OnTimer(id: string)
      modifies this
      ensures Current() == Timeout(old(Current()), id)
    {
      var found := SettleOne(Rejected(id, TimedOut));
      if found { FailEverything(Closed); }
    }
  }

  lemma {:induction false} ClosingLast(s: State, reason: Reason)
    ensures FailAll(s.(closed := true), reason) == FailAll(s, reason)
    decreases |s.pending|
  {
    if s.pending != [] {
      ClosingLast(s.(pending := s.pending[1..], log := s.log + [Rejected(s.pending[0], reason)]), reason);
    }
  }

  // ---------- every request is settled exactly once ----------

  function SettledIds(log: seq<Settlement>): seq<string> {
    if log == [] then [] else SettledIds(log[..|log| - 1]) + [log[|log| - 1].id]
  }

  /** The ids of the first n requests. */
  function IssuedIds(n: nat): seq<string> {
    if n == 0 then [] else IssuedIds(n - 1) + [Decimal(n)]
  }

  /** The ids settled so far and those that wait, with how often each occurs. */
  function Ids(s: State): multiset<string> {
    multiset(SettledIds(s.log)) + multiset(s.pending)
  }

  /** A request is resolved only by a response with its own id. */
  predicate OwnResponse(x: Settlement) {
    x.Resolved? ==> x.response.id == x.id
  }

  predicate OwnResponses(log: seq<Settlement>) {
    forall k :: 0 <= k < |log| ==> OwnResponse(log[k])
  }

  /** Settled and waiting ids are together the ids issued; a closed client has nothing waiting. */
  predicate Inv(s: State) {
    Ids(s) == multiset(IssuedIds(s.issued)) && OwnResponses(s.log) && (s.closed ==> s.pending == [])
  }

  /** Moving an element from one list to the end of another keeps the counts of both together. */
  lemma MoveCounts<T>(settled: seq<T>, waiting: seq<T>, i: nat)
    requires i < |waiting|
    ensures multiset(settled + [waiting[i]]) + multiset(RemoveAt(waiting, i)) == multiset(settled) + multiset(waiting)
  {
    var id := waiting[i];
    assert waiting == waiting[..i] + [id] + waiting[i + 1..];
    assert multiset(waiting) == multiset(RemoveAt(waiting, i)) + multiset{id};
    assert multiset(settled + [id]) == multiset(settled) + multiset{id};
  }

  lemma AddCounts<T>(settled: seq<T>, waiting: seq<T>, all: seq<T>, id: T)
    requires multiset(settled) + multiset(waiting) == multiset(all)
    ensures multiset(settled) + multiset(waiting + [id]) == multiset(all + [id])
  {
    assert multiset(waiting + [id]) == multiset(waiting) + multiset{id};
    assert multiset(all + [id]) == multiset(all) + multiset{id};
  }

  lemma SettledSnoc(log: seq<Settlement>, x: Settlement)
    ensures SettledIds(log + [x]) == SettledIds(log) + [x.id]
  {
    assert (log + [x])[..|log|] == log;
  }

  lemma OwnSnoc(log: seq<Settlement>, x: Settlement)
    requires OwnResponses(log) && OwnResponse(x)
    ensures OwnResponses(log + [x])
  {
  }

  lemma SettleKeepsIds(s: State, x: Settlement)
    ensures Ids(Settle(s, x)) == Ids(s)
  {
    var i := IndexOf(s.pending, x.id);
    if i < |s.pending| {
      SettledSnoc(s.log, x);
      MoveCounts(SettledIds(s.log), s.pending, i);
    }
  }

  lemma SettleKeeps(s: State, x: Settlement)
    requires Inv(s) && OwnResponse(x)
    ensures Inv(Settle(s, x)) && s.log <= Settle(s, x).log && Settle(s, x).issued == s.issued
  {
    SettleKeepsIds(s, x);
    if IndexOf(s.pending, x.id) < |s.pending| { OwnSnoc(s.log, x); }
  }

  lemma {:induction false} FailAllKeeps(s: State, reason: Reason)
    requires Inv(s)
    ensures var out := FailAll(s, reason);
            Inv(out) && out.closed && out.pending == [] && s.log <= out.log && out.issued == s.issued
    decreases |s.pending|
  {
    if s.pending != [] {
      FailFirst(s, reason);
      SettleKeeps(s, Rejected(s.pending[0], reason));
      FailAllKeeps(Settle(s, Rejected(s.pending[0], reason)), reason);
    }
  }

  lemma FailFirst(s: State, reason: Reason)
    requires s.pending != []
    ensures FailAll(s, reason) == FailAll(Settle(s, Rejected(s.pending[0], reason)), reason)
    ensures |Settle(s, Rejected(s.pending[0], reason)).pending| < |s.pending|
  {
    assert RemoveAt(s.pending, 0) == s.pending[1..];
  }

  lemma {:induction false} DeliverKeeps(s: State, frames: seq<string>, parse: string -> Parsed)
    requires Inv(s)
    ensures var out := Deliver(s, frames, parse); Inv(out) && s.log <= out.log && out.issued == s.issued
    decreases |frames|
  {
    if frames != [] && !s.crashed {
      TakeKeeps(s, parse(frames[0]));
      DeliverKeeps(Take(s, parse(frames[0])), frames[1..], parse);
    }
  }

  lemma TakeKeeps(s: State, frame: Parsed)
    requires Inv(s)
    ensures Inv(Take(s, frame)) && s.log <= Take(s, frame).log && Take(s, frame).issued == s.issued
  {
    if frame.Answer? { SettleKeeps(s, Resolved(frame.response.id, frame.response)); }
  }

  lemma IssuedKeeps(s: State)
    requires Inv(s) && !s.closed
    ensures Inv(Issued(s)) && Issued(s).log == s.log
  {
    AddCounts(SettledIds(s.log), s.pending, IssuedIds(s.issued), NextId(s));
  }

  lemma RequestKeeps(s: State, destroyed: bool, fails: bool)
    requires Inv(s)
    ensures Inv(Request(s, destroyed, fails)) && s.log <= Request(s, destroyed, fails).log
  {
    if !s.closed && !destroyed {
      IssuedKeeps(s);
      if fails { SettleKeeps(Issued(s), Rejected(NextId(s), WriteFailed)); }
    }
  }

  lemma StepKeeps(s: State, e: Event, parse: string -> Parsed)
    requires Inv(s)
    ensures Inv(Step(s, e, parse)) && s.log <= Step(s, e, parse).log
  {
    if s.crashed { return; }
    match e
    case Issue(destroyed, fails) => RequestKeeps(s, destroyed, fails);
    case Chunk(text) =>
      var split := SplitFrames(s.buffer + text);
      DeliverKeeps(s.(buffer := split.rest), split.frames, parse);
    case Timer(id) =>
      SettleKeeps(s, Rejected(id, TimedOut));
      FailAllKeeps(Settle(s, Rejected(id, TimedOut)), Closed);
    case Close => FailAllKeeps(s, Closed);
  }

  lemma {:induction false} RunKeeps(s: State, events: seq<Event>, parse: string -> Parsed)
    requires Inv(s)
    ensures Inv(Run(s, events, parse)) && s.log <= Run(s, events, parse).log
    decreases |events|
  {
    if events != [] {
      StepKeeps(s, events[0], parse);
      RunKeeps(Step(s, events[0], parse), events[1..], parse);
    }
  }

  lemma DecimalsDiffer(n: nat, k: nat)
    ensures Decimal(n) == Decimal(k) <==> n == k
  {
    DecimalValue(n);
    DecimalValue(k);
  }

  lemma SnocCounts<T>(ids: seq<T>, id: T, x: T)
    ensures multiset(ids + [id])[x] == multiset(ids)[x] + if x == id then 1 else 0
  {
  }

  lemma {:induction false} IssuedCounts(n: nat, k: nat)
    requires 1 <= k
    ensures |IssuedIds(n)| == n && multiset(IssuedIds(n))[Decimal(k)] == if k <= n then 1 else 0
  {
    if n > 0 {
      IssuedCounts(n - 1, k);
      DecimalsDiffer(n, k);
      SnocCounts(IssuedIds(n - 1), Decimal(n), Decimal(k));
    }
  }

  lemma {:induction false} SettledLength(log: seq<Settlement>)
    ensures |SettledIds(log)| == |log|
  {
    if log != [] { SettledLength(log[..|log| - 1]); }
  }

  /**
   After any events: each id issued has been settled or waits, never both and never twice; and the requests issued are
   those resolved, those rejected and those waiting.
   */
  lemma EachSettledOnce(events: seq<Event>, parse: string -> Parsed, k: nat)
    requires 1 <= k
    ensures var s := Run(START, events, parse);
            && multiset(SettledIds(s.log))[Decimal(k)] + multiset(s.pending)[Decimal(k)] ==
                 (if k <= s.issued then 1 else 0)
            && s.issued == |s.log| + |s.pending| && OwnResponses(s.log)
  {
    assert Inv(START);
    RunKeeps(START, events, parse);
    var s := Run(START, events, parse);
    IssuedCounts(s.issued, k);
    SettledLength(s.log);
    assert |Ids(s)| == |multiset(IssuedIds(s.issued))|;
  }

  function Rejections(ids: seq<string>, reason: Reason): seq<Settlement> {
    if ids == [] then [] else [Rejected(ids[0], reason)] + Rejections(ids[1..], reason)
  }

  /** Failing everything rejects each waiting request once, oldest first, and changes nothing else. */
  lemma {:induction false} FailAllRejects(s: State, reason: Reason)
    ensures FailAll(s, reason) == s.(closed := true, pending := [], log := s.log + Rejections(s.pending, reason))
    decreases |s.pending|
  {
    if s.pending == [] {
      assert s.log + [] == s.log;
    } else {
      var x := Rejected(s.pending[0], reason);
      FailAllRejects(s.(pending := s.pending[1..], log := s.log + [x]), reason);
      assert (s.log + [x]) + Rejections(s.pending[1..], reason) == s.log + ([x] + Rejections(s.pending[1..], reason));
    }
  }

  lemma {:induction false} NothingDelivered(s: State, frames: seq<string>, parse: string -> Parsed)
    requires s.pending == []
    ensures var out := Deliver(s, frames, parse); out == s.(crashed := out.crashed)
    decreases |frames|
  {
    if frames != [] && !s.crashed { NothingDelivered(Take(s, parse(frames[0])), frames[1..], parse); }
  }

  lemma {:induction false} ClosedStays(s: State, events: seq<Event>, parse: string -> Parsed)
    requires s.closed && s.pending == []
    ensures var out := Run(s, events, parse); out.log == s.log && out.issued == s.issued && out.pending == []
    decreases |events|
  {
    if events != [] {
      if events[0].Chunk? {
        var split := SplitFrames(s.buffer + events[0].text);
        NothingDelivered(s.(buffer := split.rest), split.frames, parse);
      }
      ClosedStays(Step(s, events[0], parse), events[1..], parse);
    }
  }

  lemma TimerCloses(s: State, id: string)
    requires Inv(s) && id in s.pending
    ensures var settled := Settle(s, Rejected(id, TimedOut));
            var after := FailAll(settled, Closed);
            Inv(after) && after.closed && after.pending == [] && after.issued == s.issued
  {
    SettleKeeps(s, Rejected(id, TimedOut));
    FailAllKeeps(Settle(s, Rejected(id, TimedOut)), Closed);
  }

  lemma StepCloses(s: State, e: Event, parse: string -> Parsed)
    requires Inv(s) && !s.crashed && (e.Close? || (e.Timer? && e.id in s.pending))
    ensures var after := Step(s, e, parse);
            Inv(after) && after.closed && after.pending == [] && after.issued == s.issued
  {
    if e.Timer? {
      assert Step(s, e, parse) == FailAll(Settle(s, Rejected(e.id, TimedOut)), Closed);
      TimerCloses(s, e.id);
    } else {
      assert Step(s, e, parse) == FailAll(s, Closed);
      FailAllKeeps(s, Closed);
    }
  }

  lemma NothingWaits(s: State)
    requires Inv(s) && s.pending == []
    ensures s.issued == |s.log|
  {
    SettledLength(s.log);
    IssuedCounts(s.issued, 1);
    assert |Ids(s)| == |multiset(IssuedIds(s.issued))|;
  }

  /** Once the connection is closed, or a request timed out, nothing waits any more and nothing new is taken. */
  lemma ClosingSettlesAll(s: State, e: Event, events: seq<Event>, parse: string -> Parsed)
    requires Inv(s) && !s.crashed && (e.Close? || (e.Timer? && e.id in s.pending))
    ensures var after := Step(s, e, parse);
            after.closed && after.pending == [] && after.issued == s.issued == |after.log|
            && Run(after, events, parse).log == after.log && Run(after, events, parse).issued == s.issued
  {
    StepCloses(s, e, parse);
    NothingWaits(Step(s, e, parse));
    ClosedStays(Step(s, e, parse), events, parse);
  }

  /** A chunk brings the process down exactly if a frame it completes is `null`. */
  lemma {:induction false} CrashesExactly(s: State, frames: seq<string>, parse: string -> Parsed)
    requires !s.crashed
    ensures Deliver(s, frames, parse).crashed <==> exists k :: 0 <= k < |frames| && parse(frames[k]).Null?
    decreases |frames|
  {
    if frames != [] {
      assert frames == [frames[0]] + frames[1..];
      if !parse(frames[0]).Null? {
        CrashesExactly(Take(s, parse(frames[0])), frames[1..], parse);
      }
    }
  }

  /** So one `null` on a line of its own is enough. */
  lemma NullLineCrashes(s: State, frame: string, parse: string -> Parsed)
    requires !s.crashed && s.buffer == "" && '\n' !in frame && !AllSpace(frame) && parse(frame) == Null
    ensures Data(s, frame + "\n", parse).crashed
  {
    EncodedComeBack([frame]);
    assert Encode([frame]) == frame + "\n" && s.buffer + (frame + "\n") == frame + "\n";
    CrashesExactly(s.(buffer := ""), [frame], parse);
  }

  // ---------- and by the whole stream, however it is cut ----------

  lemma {:induction false} DeliverConcat(s: State, a: seq<string>, b: seq<string>, parse: string -> Parsed)
    ensures Deliver(s, a + b, parse) == Deliver(Deliver(s, a, parse), b, parse)
    decreases |a|
  {
    if a == [] {
      assert a + b == b;
    } else {
      assert (a + b)[1..] == a[1..] + b;
      if !s.crashed { DeliverConcat(Take(s, parse(a[0])), a[1..], b, parse); }
    }
  }

  lemma {:induction false} DeliverIgnoresBuffer(s: State, frames: seq<string>, parse: string -> Parsed, buffer: string)
    ensures Deliver(s.(buffer := buffer), frames, parse) == Deliver(s, frames, parse).(buffer := buffer)
    ensures Deliver(s, frames, parse).buffer == s.buffer
    decreases |frames|
  {
    if frames != [] && !s.crashed {
      DeliverIgnoresBuffer(Take(s, parse(frames[0])), frames[1..], parse, buffer);
    }
  }

  lemma TwoDeliveries(s: State, first: Frames, second: Frames, parse: string -> Parsed)
    ensures var once := Deliver(s.(buffer := first.rest), first.frames, parse);
            && once.buffer == first.rest
            && Deliver(once.(buffer := second.rest), second.frames, parse) ==
                 Deliver(s.(buffer := second.rest), first.frames + second.frames, parse)
  {
    DeliverIgnoresBuffer(s, first.frames, parse, first.rest);
    DeliverIgnoresBuffer(s, first.frames, parse, second.rest);
    DeliverConcat(s.(buffer := second.rest), first.frames, second.frames, parse);
  }

  lemma DataTwice(s: State, a: string, b: string, parse: string -> Parsed)
    ensures Data(Data(s, a, parse), b, parse) == Data(s, a + b, parse)
  {
    var first := SplitFrames(s.buffer + a);
    var second := SplitFrames(first.rest + b);
    assert SplitFrames(s.buffer + (a + b)) == Frames(first.frames + second.frames, second.rest) by {
      assert s.buffer + (a + b) == (s.buffer + a) + b;
      FeedSplit(s.buffer + a, b);
    }
    TwoDeliveries(s, first, second, parse);
  }

  /**
   Two chunks settle the same requests, in the same order, as one chunk with both texts; they also leave the same
   text over, unless the first brought the process down.
   */
  lemma ChunksSettleTheSame(s: State, a: string, b: string, parse: string -> Parsed)
    ensures var two, one := Step(Step(s, Chunk(a), parse), Chunk(b), parse), Step(s, Chunk(a + b), parse);
            && two == one.(buffer := two.buffer)
            && (!Step(s, Chunk(a), parse).crashed ==> two == one)
  {
    if !s.crashed {
      DataTwice(s, a, b, parse);
      CrashedKeeps(Data(s, a, parse), b, parse);
    }
  }

  lemma CrashedKeeps(s: State, chunk: string, parse: string -> Parsed)
    ensures s.crashed ==> Data(s, chunk, parse) == s.(buffer := Data(s, chunk, parse).buffer)
  {
  }
}
