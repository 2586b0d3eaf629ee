/** The bounded feedback store: expiry, log pruning, and greedy eviction under two bounds. */
module Feedback {
  import opened Text

  datatype Kind = Bug | Improvement | Note
  datatype Status = Open | Resolved | Wontfix
  datatype LogItem = LogItem(at: int, note: string)

  /** An entry; times are in milliseconds, `text` stands for the remaining content. */
  datatype Entry = Entry(
    id: string,
    kind: Kind,
    status: Status,
    createdAt: int,
    resolvedAt: Option<int>,
    log: Option<seq<LogItem>>,
    text: string
  )

  /** Every limit is at least 1, which is what reading the configuration enforces. */
  datatype Config = Config(maxEntries: nat, maxBytes: nat, resolvedTtlMs: nat, logTtlMs: nat, maxLogItems: nat)

  predicate ValidConfig(cfg: Config) {
    cfg.maxEntries >= 1 && cfg.maxBytes >= 1 && cfg.maxLogItems >= 1
  }

  /** Size of the stored file: one line per entry. `bytes` is the encoded length of an entry. */
  function FileSize(entries: seq<Entry>, bytes: Entry -> nat): nat {
    if entries == [] then 0 else bytes(entries[0]) + 1 + FileSize(entries[1..], bytes)
  }

  /** More entries than allowed, or more bytes, counting a line break after each. */
  predicate OverABound(entries: seq<Entry>, cfg: Config, bytes: Entry -> nat) {
    |entries| > cfg.maxEntries || FileSize(entries, bytes) > cfg.maxBytes
  }

  lemma {:induction false} FileSizeAdds(entries: seq<Entry>, e: Entry, bytes: Entry -> nat)
    ensures FileSize([], bytes) == 0
    ensures FileSize(entries + [e], bytes) == FileSize(entries, bytes) + bytes(e) + 1
  {
    if entries == [] {
      assert entries + [e] == [e] && [e][1..] == [];
    } else {
      assert (entries + [e])[1..] == entries[1..] + [e];
      FileSizeAdds(entries[1..], e, bytes);
    }
  }

  predicate Within(entries: seq<Entry>, cfg: Config, bytes: Entry -> nat) {
    |entries| <= cfg.maxEntries && FileSize(entries, bytes) <= cfg.maxBytes
  }

  // ---------- eviction order ----------

  predicate Evictable(e: Entry, protect: Option<string>) {
    protect.None? || e.id != protect.value
  }

  /** Settled entries go first, then notes, then the rest. */
  function Class(e: Entry): nat {
    if e.status.Resolved? || e.status.Wontfix? then 0 else if e.kind.Note? then 1 else 2
  }

  /** Entry a at position i goes before entry b at position j: by class, then age, then position. */
  predicate Sooner(a: Entry, i: int, b: Entry, j: int) {
    || Class(a) < Class(b)
    || (Class(a) == Class(b) && (a.createdAt < b.createdAt || (a.createdAt == b.createdAt && i < j)))
  }

  predicate IsVictim(entries: seq<Entry>, protect: Option<string>, i: int) {
    && 0 <= i < |entries| && Evictable(entries[i], protect)
    && forall j :: 0 <= j < |entries| && j != i && Evictable(entries[j], protect) ==>
         Sooner(entries[i], i, entries[j], j)
  }

  predicate NoneEvictable(entries: seq<Entry>, protect: Option<string>) {
    forall j :: 0 <= j < |entries| ==> !Evictable(entries[j], protect)
  }

  // ---------- the order in the fields of the entries ----------

  /** Entry i is the oldest of those of a group that are not protected, the first one of equals. */
  predicate OldestOf(entries: seq<Entry>, protect: Option<string>, i: int, group: Entry -> bool) {
    && 0 <= i < |entries| && protect != Some(entries[i].id) && group(entries[i])
    && forall j :: 0 <= j < |entries| && protect != Some(entries[j].id) && group(entries[j]) ==>
         entries[i].createdAt < entries[j].createdAt || (entries[i].createdAt == entries[j].createdAt && i <= j)
  }

  predicate NoneOf(entries: seq<Entry>, protect: Option<string>, group: Entry -> bool) {
    forall j :: 0 <= j < |entries| && protect != Some(entries[j].id) ==> !group(entries[j])
  }

  /** The oldest that is resolved or wontfix; without one the oldest note; without one the oldest of all. */
  predicate FirstToGo(entries: seq<Entry>, protect: Option<string>, i: int) {
    var settled := (e: Entry) => e.status == Resolved || e.status == Wontfix;
    var note := (e: Entry) => e.kind == Note;
    || OldestOf(entries, protect, i, settled)
    || (NoneOf(entries, protect, settled) && OldestOf(entries, protect, i, note))
    || (NoneOf(entries, protect, settled) && NoneOf(entries, protect, note) && OldestOf(entries, protect, i, e => true))
  }

  lemma VictimIsFirstToGo(entries: seq<Entry>, protect: Option<string>, i: int)
    requires IsVictim(entries, protect, i)
    ensures FirstToGo(entries, protect, i)
  {
    assert Evictable(entries[i], protect);
    forall j | 0 <= j < |entries| && protect != Some(entries[j].id)
      ensures j == i || Sooner(entries[i], i, entries[j], j)
    {
      assert Evictable(entries[j], protect);
    }
  }

  /** The victim of the eviction order is the entry that the three rules name. */
  lemma VictimExactly(entries: seq<Entry>, protect: Option<string>, i: int)
    ensures IsVictim(entries, protect, i) <==> FirstToGo(entries, protect, i)
  {
    if IsVictim(entries, protect, i) { VictimIsFirstToGo(entries, protect, i); }
    if FirstToGo(entries, protect, i) {
      forall j | 0 <= j < |entries| && j != i && Evictable(entries[j], protect)
        ensures Sooner(entries[i], i, entries[j], j)
      {
        assert protect != Some(entries[j].id);
      }
    }
  }

  lemma NoneEvictableMeans(entries: seq<Entry>, protect: Option<string>)
    ensures NoneEvictable(entries, protect) <==> forall j :: 0 <= j < |entries| ==> protect == Some(entries[j].id)
  {
    if NoneEvictable(entries, protect) {
      assert forall j :: 0 <= j < |entries| ==> !Evictable(entries[j], protect);
    }
  }

  /** The three passes of findEvictionIndex look at settled entries, then notes, then everything. */
  predicate Suits(e: Entry, protect: Option<string>, pass: nat) {
    && Evictable(e, protect)
    && (if pass == 0 then e.status.Resolved? || e.status.Wontfix? else pass == 1 ==> e.kind.Note?)
  }

  predicate Older(a: Entry, i: int, b: Entry, j: int) {
    a.createdAt < b.createdAt || (a.createdAt == b.createdAt && i < j)
  }

  /** The oldest entry that suits, lowest index among equals; -1 when there is none. */
  method Oldest(entries: seq<Entry>, protect: Option<string>, pass: nat) returns (idx: int)
    ensures idx == -1 ==> forall j :: 0 <= j < |entries| ==> !Suits(entries[j], protect, pass)
    ensures idx != -1 ==>
              && 0 <= idx < |entries| && Suits(entries[idx], protect, pass)
              && forall j :: 0 <= j < |entries| && j != idx && Suits(entries[j], protect, pass) ==>
                   Older(entries[idx], idx, entries[j], j)
  {
    idx := -1;
    for i := 0 to |entries|
      invariant -1 <= idx < i
      invariant idx == -1 ==> forall j :: 0 <= j < i ==> !Suits(entries[j], protect, pass)
      invariant idx != -1 ==> Suits(entries[idx], protect, pass)
      invariant idx != -1 ==> forall j :: 0 <= j < i && j != idx && Suits(entries[j], protect, pass) ==>
                                Older(entries[idx], idx, entries[j], j)
    {
      if Suits(entries[i], protect, pass) && (idx == -1 || entries[i].createdAt < entries[idx].createdAt) {
        idx := i;
      }
    }
  }

  /** findEvictionIndex: the three passes together pick the soonest entry of the eviction order. */
  method FindEvictionIndex(entries: seq<Entry>, protect: Option<string>) returns (idx: int)
    ensures idx == -1 <==> NoneEvictable(entries, protect)
    ensures idx == -1 <==> forall j :: 0 <= j < |entries| ==> protect == Some(entries[j].id)
    ensures idx != -1 ==> IsVictim(entries, protect, idx) && FirstToGo(entries, protect, idx)
  {
    NoneEvictableMeans(entries, protect);
    forall i ensures IsVictim(entries, protect, i) <==> FirstToGo(entries, protect, i) {
      VictimExactly(entries, protect, i);
    }
    idx := Oldest(entries, protect, 0);
    if idx != -1 { return; }
    idx := Oldest(entries, protect, 1);
    if idx != -1 { return; }
    idx := Oldest(entries, protect, 2);
  }

  function Without(entries: seq<Entry>, i: int): seq<Entry>
    requires 0 <= i < |entries|
  {
    entries[..i] + entries[i + 1..]
  }

  lemma VictimUnique(entries: seq<Entry>, protect: Option<string>, i: int, j: int)
    requires IsVictim(entries, protect, i) && IsVictim(entries, protect, j)
    ensures i == j
  {
  }

  lemma {:induction false} VictimExists(entries: seq<Entry>, protect: Option<string>)
    requires !NoneEvictable(entries, protect)
    ensures exists i :: IsVictim(entries, protect, i)
  {
    var n := |entries| - 1;
    var most := entries[..n];
    if NoneEvictable(most, protect) {
      assert IsVictim(entries, protect, n);
    } else {
      VictimExists(most, protect);
      var i :| IsVictim(most, protect, i);
      if Evictable(entries[n], protect) && Sooner(entries[n], n, entries[i], i) {
        assert IsVictim(entries, protect, n);
      } else {
        assert IsVictim(entries, protect, i);
      }
    }
  }

  /** The list after k evictions, or fewer when nothing may be evicted any more. */
  ghost function Evict(entries: seq<Entry>, protect: Option<string>, k: nat): seq<Entry> {
    if k == 0 || NoneEvictable(entries, protect) then entries
    else
      VictimExists(entries, protect);
      var i :| IsVictim(entries, protect, i);
      Evict(Without(entries, i), protect, k - 1)
  }

  // ---------- pruning ----------

  predicate Expired(e: Entry, cfg: Config, now: int) {
    (e.status.Resolved? || e.status.Wontfix?) && e.resolvedAt.Some? && now - e.resolvedAt.value > cfg.resolvedTtlMs
  }

  function Unexpired(entries: seq<Entry>, cfg: Config, now: int): seq<Entry> {
    if entries == [] then []
    else (if Expired(entries[0], cfg, now) then [] else [entries[0]]) + Unexpired(entries[1..], cfg, now)
  }

  function Fresh(log: seq<LogItem>, cfg: Config, now: int): seq<LogItem> {
    if log == [] then []
    else (if now - log[0].at <= cfg.logTtlMs then [log[0]] else []) + Fresh(log[1..], cfg, now)
  }

  function LastItems(log: seq<LogItem>, n: nat): seq<LogItem> {
    if |log| <= n then log else log[|log| - n..]
  }

  /** The log keeps its fresh items, at most the newest maxLogItems; an empty log goes. */
  function PruneLog(e: Entry, cfg: Config, now: int): Entry {
    if e.log.None? then e
    else
      var kept := LastItems(Fresh(e.log.value, cfg, now), cfg.maxLogItems);
      if |kept| == |e.log.value| then e
      else e.(log := if kept == [] then None else Some(kept))
  }

  lemma {:induction false} FreshExact(log: seq<LogItem>, cfg: Config, now: int)
    ensures forall item :: item in Fresh(log, cfg, now) <==> item in log && now - item.at <= cfg.logTtlMs
  {
    if log != [] {
      FreshExact(log[1..], cfg, now);
      assert log == [log[0]] + log[1..];
    }
  }

  lemma {:induction false} FreshWhole(log: seq<LogItem>, cfg: Config, now: int)
    ensures |Fresh(log, cfg, now)| <= |log| && (|Fresh(log, cfg, now)| == |log| ==> Fresh(log, cfg, now) == log)
  {
    if log != [] { FreshWhole(log[1..], cfg, now); }
  }

  function ItemsOf(e: Entry): seq<LogItem> {
    e.log.GetOr([])
  }

  /** Pruning a log leaves its newest fresh items, no more than allowed, and touches nothing else of the entry. */
  lemma PruneLogExact(e: Entry, cfg: Config, now: int)
    ensures var out, recent := PruneLog(e, cfg, now), Fresh(ItemsOf(e), cfg, now);
            && out == e.(log := out.log) && |ItemsOf(out)| <= cfg.maxLogItems
            && (exists n :: 0 <= n <= |recent| && ItemsOf(out) == recent[n..])
            && (|ItemsOf(out)| < |recent| ==> |ItemsOf(out)| == cfg.maxLogItems)
            && (ItemsOf(out) == [] ==> out.log.None? || out == e)
  {
    var recent := Fresh(ItemsOf(e), cfg, now);
    FreshWhole(ItemsOf(e), cfg, now);
    var n := if |recent| <= cfg.maxLogItems then 0 else |recent| - cfg.maxLogItems;
    assert ItemsOf(PruneLog(e, cfg, now)) == recent[n..];
  }

  function PruneLogs(entries: seq<Entry>, cfg: Config, now: int): (out: seq<Entry>)
    ensures |out| == |entries|
    ensures forall k :: 0 <= k < |out| ==> out[k] == PruneLog(entries[k], cfg, now)
  {
    if entries == [] then [] else [PruneLog(entries[0], cfg, now)] + PruneLogs(entries[1..], cfg, now)
  }

  function Cleaned(entries: seq<Entry>, cfg: Config, now: int): seq<Entry> {
    PruneLogs(Unexpired(entries, cfg, now), cfg, now)
  }

  /** Settled for longer than allowed. */
  predicate IsOld(e: Entry, cfg: Config, now: int) {
    && (e.status == Resolved || e.status == Wontfix)
    && match e.resolvedAt case None => false case Some(at) => at + cfg.resolvedTtlMs < now
  }

  /** Cleaning looks at each entry by itself: it goes if it is old, its log is pruned if not; the order stays. */
  lemma {:induction false} CleanedInOrder(entries: seq<Entry>, e: Entry, cfg: Config, now: int)
    ensures Cleaned([], cfg, now) == []
    ensures Cleaned(entries + [e], cfg, now) ==
            Cleaned(entries, cfg, now) + if IsOld(e, cfg, now) then [] else [PruneLog(e, cfg, now)]
  {
    if entries == [] {
      assert entries + [e] == [e] && [e][1..] == [];
    } else {
      assert (entries + [e])[1..] == entries[1..] + [e];
      CleanedInOrder(entries[1..], e, cfg, now);
    }
  }

  /** And so does pruning a log. */
  lemma {:induction false} FreshInOrder(log: seq<LogItem>, item: LogItem, cfg: Config, now: int)
    ensures Fresh([], cfg, now) == []
    ensures Fresh(log + [item], cfg, now) ==
            Fresh(log, cfg, now) + if item.at + cfg.logTtlMs < now then [] else [item]
  {
    if log == [] {
      assert log + [item] == [item] && [item][1..] == [];
    } else {
      assert (log + [item])[1..] == log[1..] + [item];
      FreshInOrder(log[1..], item, cfg, now);
    }
  }

  /** The number of evictions is the least that brings the list within both bounds. */
  ghost predicate LeastEvictions(entries: seq<Entry>, protect: Option<string>, cfg: Config, bytes: Entry -> nat, k: nat)
  {
    && (Within(Evict(entries, protect, k), cfg, bytes) || NoneEvictable(Evict(entries, protect, k), protect))
    && AllNeeded(entries, protect, cfg, bytes, k)
  }

  /** None of the first k evictions could have been spared: before each, a bound was broken. */
  ghost predicate AllNeeded(entries: seq<Entry>, protect: Option<string>, cfg: Config, bytes: Entry -> nat, k: nat) {
    forall j :: 0 <= j < k ==>
      !Within(Evict(entries, protect, j), cfg, bytes) && !NoneEvictable(Evict(entries, protect, j), protect)
  }

  lemma OneMoreNeeded(list: seq<Entry>, protect: Option<string>, cfg: Config, bytes: Entry -> nat, k: nat)
    requires AllNeeded(list, protect, cfg, bytes, k)
    requires !Within(Evict(list, protect, k), cfg, bytes) && !NoneEvictable(Evict(list, protect, k), protect)
    ensures AllNeeded(list, protect, cfg, bytes, k + 1)
  {
  }

  /** The eviction loop: while a bound is broken, the soonest evictable entry goes. */
  method EvictToFit(list: seq<Entry>, cfg: Config, protect: Option<string>, bytes: Entry -> nat)
      returns (kept: seq<Entry>, evicted: nat, protectedKept: bool)
    ensures kept == Evict(list, protect, evicted) && |list| == |kept| + evicted
    ensures LeastEvictions(list, protect, cfg, bytes, evicted)
    ensures forall j :: 0 <= j < evicted ==> OverABound(Evict(list, protect, j), cfg, bytes)
    ensures protectedKept <==> !OverABound(kept, cfg, bytes)
    ensures !protectedKept ==> forall e :: e in kept ==> protect == Some(e.id)
  {
    kept, evicted, protectedKept := list, 0, true;
    while |kept| > cfg.maxEntries || FileSize(kept, bytes) > cfg.maxBytes
      invariant kept == Evict(list, protect, evicted) && |list| == |kept| + evicted
      invariant AllNeeded(list, protect, cfg, bytes, evicted)
      invariant protectedKept
      decreases |kept|
    {
      var idx := FindEvictionIndex(kept, protect);
      if idx < 0 {
        // Nothing may go any more.
        NoneEvictableMeans(kept, protect);
        protectedKept := false;
        break;
      }
      EvictOneMore(list, protect, evicted, idx);
      OneMoreNeeded(list, protect, cfg, bytes, evicted);
      kept := Without(kept, idx);
      evicted := evicted + 1;
    }
  }

  /** pruneEntries: expired entries go, logs are pruned, then the loop evicts. */
  method PruneEntries(entries: seq<Entry>, cfg: Config, protect: Option<string>, now: int, bytes: Entry -> nat)
      returns (kept: seq<Entry>, evicted: nat, protectedKept: bool, ghost k: nat)
    requires ValidConfig(cfg)
    ensures kept == Evict(Cleaned(entries, cfg, now), protect, k)
    ensures LeastEvictions(Cleaned(entries, cfg, now), protect, cfg, bytes, k)
    ensures protectedKept <==> Within(kept, cfg, bytes)
    ensures |entries| == |kept| + evicted
    ensures k == |Cleaned(entries, cfg, now)| - |kept|
  {
    var cleaned := Cleaned(entries, cfg, now);
    UnexpiredShorter(entries, cfg, now);
    var more;
    kept, more, protectedKept := EvictToFit(cleaned, cfg, protect, bytes);
    evicted := |entries| - |cleaned| + more;
    k := more;
  }

  lemma {:induction false} UnexpiredShorter(entries: seq<Entry>, cfg: Config, now: int)
    ensures |Unexpired(entries, cfg, now)| <= |entries|
  {
    if entries != [] { UnexpiredShorter(entries[1..], cfg, now); }
  }

  lemma {:induction false} EvictOneMore(entries: seq<Entry>, protect: Option<string>, k: nat, idx: int)
    requires IsVictim(Evict(entries, protect, k), protect, idx)
    ensures Evict(entries, protect, k + 1) == Without(Evict(entries, protect, k), idx)
    decreases k
  {
    if k == 0 {
      EvictUnfold(entries, protect, 1, idx);
    } else if !NoneEvictable(entries, protect) {
      VictimExists(entries, protect);
      var i :| IsVictim(entries, protect, i);
      EvictUnfold(entries, protect, k, i);
      EvictUnfold(entries, protect, k + 1, i);
      EvictOneMore(Without(entries, i), protect, k - 1, idx);
    }
  }

  lemma EvictUnfold(entries: seq<Entry>, protect: Option<string>, k: nat, i: int)
    requires k > 0 && IsVictim(entries, protect, i)
    ensures Evict(entries, protect, k) == Evict(Without(entries, i), protect, k - 1)
  {
    VictimExists(entries, protect);
    var j :| IsVictim(entries, protect, j) && Evict(entries, protect, k) == Evict(Without(entries, j), protect, k - 1);
    VictimUnique(entries, protect, i, j);
  }

  // ---------- what a greedy eviction removes ----------

  /** Positions in the original list, in order. */
  predicate Positions(kept: seq<nat>, n: nat) {
    && (forall a :: 0 <= a < |kept| ==> kept[a] < n)
    && forall a, b :: 0 <= a < b < |kept| ==> kept[a] < kept[b]
  }

  function Pick(entries: seq<Entry>, kept: seq<nat>): (out: seq<Entry>)
    requires Positions(kept, |entries|)
    ensures |out| == |kept|
    ensures forall a :: 0 <= a < |kept| ==> out[a] == entries[kept[a]]
  {
    seq(|kept|, a requires 0 <= a < |kept| => entries[kept[a]])
  }

  /** No entry was passed over: whatever went goes before everything evictable that stayed. */
  predicate GreedyPrefix(entries: seq<Entry>, protect: Option<string>, kept: seq<nat>) {
    && Positions(kept, |entries|)
    && forall i :: 0 <= i < |entries| && i !in kept ==>
         && Evictable(entries[i], protect)
         && forall j :: j in kept && Evictable(entries[j], protect) ==> Sooner(entries[i], i, entries[j], j)
  }

  lemma DropPosition(kept: seq<nat>, a: nat, n: nat)
    requires Positions(kept, n) && a < |kept|
    ensures var left := kept[..a] + kept[a + 1..];
            Positions(left, n) && forall x :: x in left <==> x in kept && x != kept[a]
  {
    var left := kept[..a] + kept[a + 1..];
    forall x
      ensures x in left <==> x in kept && x != kept[a]
    {
      if x in kept && x != kept[a] {
        var b :| 0 <= b < |kept| && kept[b] == x;
        assert if b < a then left[b] == x else left[b - 1] == x;
      }
      if x in left {
        var b :| 0 <= b < |left| && left[b] == x;
        assert x == if b < a then kept[b] else kept[b + 1];
      }
    }
  }

  lemma PickWithout(entries: seq<Entry>, kept: seq<nat>, a: nat)
    requires Positions(kept, |entries|) && a < |kept| && Positions(kept[..a] + kept[a + 1..], |entries|)
    ensures Pick(entries, kept[..a] + kept[a + 1..]) == Without(Pick(entries, kept), a)
  {
  }

  /** The victim goes before every evictable survivor, in positions of the original list. */
  lemma VictimIsSooner(entries: seq<Entry>, protect: Option<string>, kept: seq<nat>, a: nat, j: nat)
    requires Positions(kept, |entries|) && IsVictim(Pick(entries, kept), protect, a)
    requires j in kept && j != kept[a] && Evictable(entries[j], protect)
    ensures Sooner(entries[kept[a]], kept[a], entries[j], j)
  {
    var picked := Pick(entries, kept);
    var b :| 0 <= b < |kept| && kept[b] == j;
    assert Sooner(picked[a], a, picked[b], b);
  }

  lemma PrefixStep(entries: seq<Entry>, protect: Option<string>, kept: seq<nat>, a: nat)
    requires GreedyPrefix(entries, protect, kept) && IsVictim(Pick(entries, kept), protect, a)
    ensures var left := kept[..a] + kept[a + 1..];
            GreedyPrefix(entries, protect, left) && Pick(entries, left) == Without(Pick(entries, kept), a)
  {
    var left := kept[..a] + kept[a + 1..];
    DropPosition(kept, a, |entries|);
    PickWithout(entries, kept, a);
    forall i | 0 <= i < |entries| && i !in left
      ensures Evictable(entries[i], protect)
      ensures forall j :: j in left && Evictable(entries[j], protect) ==> Sooner(entries[i], i, entries[j], j)
    {
      if i == kept[a] {
        assert Evictable(Pick(entries, kept)[a], protect);
        forall j | j in left && Evictable(entries[j], protect)
          ensures Sooner(entries[i], i, entries[j], j)
        {
          VictimIsSooner(entries, protect, kept, a, j);
        }
      }
    }
  }

  /**
   After any number of evictions the survivors are a subsequence of the list, and the victims are
   the soonest entries of the eviction order that are not protected.
   */
  lemma {:induction false} EvictionIsGreedy(entries: seq<Entry>, protect: Option<string>, k: nat)
      returns (kept: seq<nat>)
    ensures GreedyPrefix(entries, protect, kept) && Evict(entries, protect, k) == Pick(entries, kept)
    ensures |kept| + k == |entries| || (|kept| + k > |entries| && NoneEvictable(Evict(entries, protect, k), protect))
    decreases k
  {
    if k == 0 {
      kept := seq(|entries|, a => a);
      assert forall i :: 0 <= i < |entries| ==> kept[i] in kept;
      assert Pick(entries, kept) == entries;
    } else {
      kept := EvictionIsGreedy(entries, protect, k - 1);
      var list := Evict(entries, protect, k - 1);
      if NoneEvictable(list, protect) {
        EvictStops(entries, protect, k - 1);
      } else {
        VictimExists(list, protect);
        var a :| IsVictim(list, protect, a);
        EvictOneMore(entries, protect, k - 1, a);
        PrefixStep(entries, protect, kept, a);
        kept := kept[..a] + kept[a + 1..];
      }
    }
  }

  lemma {:induction false} EvictStops(entries: seq<Entry>, protect: Option<string>, k: nat)
    requires NoneEvictable(Evict(entries, protect, k), protect)
    ensures Evict(entries, protect, k + 1) == Evict(entries, protect, k)
    decreases k
  {
    if k > 0 && !NoneEvictable(entries, protect) {
      VictimExists(entries, protect);
      var i :| IsVictim(entries, protect, i);
      EvictUnfold(entries, protect, k, i);
      EvictUnfold(entries, protect, k + 1, i);
      EvictStops(Without(entries, i), protect, k - 1);
    }
  }

  // ---------- adding ----------

  /** The entry just added survives every eviction, and when nothing else may go it is alone. */
  lemma AddedEntryStays(entries: seq<Entry>, k: nat)
    requires |entries| >= 1 && forall i :: 1 <= i < |entries| ==> entries[i].id != entries[0].id
    ensures var out := Evict(entries, Some(entries[0].id), k);
            |out| >= 1 && out[0] == entries[0] && (NoneEvictable(out, Some(entries[0].id)) ==> out == [entries[0]])
  {
    var protect := Some(entries[0].id);
    var kept := EvictionIsGreedy(entries, protect, k);
    assert 0 in kept;
    assert forall b :: 0 <= b < |kept| ==> kept[0] <= kept[b];
    assert kept[0] == 0;
    var out := Pick(entries, kept);
    assert forall b :: 1 <= b < |out| ==> kept[0] < kept[b] && Evictable(out[b], protect);
    assert |out| > 1 ==> !NoneEvictable(out, protect) by {
      if |out| > 1 { assert Evictable(out[1], protect); }
    }
  }

  lemma {:induction false} UnexpiredMembers(entries: seq<Entry>, cfg: Config, now: int)
    ensures forall e :: e in Unexpired(entries, cfg, now) <==> e in entries && !Expired(e, cfg, now)
  {
    if entries != [] {
      UnexpiredMembers(entries[1..], cfg, now);
      assert entries == [entries[0]] + entries[1..];
    }
  }

  /** Pruning leaves a new entry first, and no other entry gets its id. */
  lemma CleanedHead(entry: Entry, entries: seq<Entry>, cfg: Config, now: int)
    requires entry.status.Open? && entry.log.None? && forall e :: e in entries ==> e.id != entry.id
    ensures var out := Cleaned([entry] + entries, cfg, now);
            && |out| >= 1 && out[0] == entry
            && forall i :: 1 <= i < |out| ==> out[i].id != entry.id
  {
    var all := [entry] + entries;
    assert all[1..] == entries;
    var rest := Unexpired(entries, cfg, now);
    UnexpiredMembers(entries, cfg, now);
    assert Unexpired(all, cfg, now) == [entry] + rest;
    assert forall i :: 0 <= i < |rest| ==> rest[i] in entries;
    assert forall i :: 1 <= i < |rest| + 1 ==> ([entry] + rest)[i] == rest[i - 1];
  }

  datatype AddResult = Added(entry: Entry, evicted: nat) | EmptyText | TextTooLong | TooLarge | LateTooLarge

  const MAX_TEXT := 4000

  class Store {
    var entries: seq<Entry>

    constructor ()
      ensures entries == []
    {
      entries := [];
    }

    /**
     addFeedback under the store's lock. `id` is the random id, redrawn until it is not in use.
     The late size failure after pruning is never reached; the new entry is first in the file, the
     file is within both bounds, and what went is what the eviction order says, no more than needed.
     */
    method Add(id: string, kind: Kind, text: string, now: int, cfg: Config, bytes: Entry -> nat)
        returns (r: AddResult, ghost k: nat)
      requires ValidConfig(cfg) && forall e :: e in entries ==> e.id != id
      modifies this
      ensures !r.LateTooLarge?
      ensures r.EmptyText? <==> Trim(text) == ""
      ensures r.TextTooLong? <==> Trim(text) != "" && |text| > 4000
      ensures !r.Added? ==> entries == old(entries)
      ensures r.Added? ==> r.entry == Entry(id, kind, Open, now, None, None, text)
      ensures r.Added? ==> entries == Evict(Cleaned([r.entry] + old(entries), cfg, now), Some(id), k)
      ensures r.Added? ==> LeastEvictions(Cleaned([r.entry] + old(entries), cfg, now), Some(id), cfg, bytes, k)
      ensures r.Added? ==> forall j :: 0 <= j < k ==>
                OverABound(Evict(Cleaned([r.entry] + old(entries), cfg, now), Some(id), j), cfg, bytes)
      ensures r.Added? ==> !OverABound(entries, cfg, bytes) && |entries| >= 1 && entries[0] == r.entry
      ensures r.Added? ==> |entries| + r.evicted == |old(entries)| + 1
      ensures r.TooLarge? <==>
                && Trim(text) != "" && |text| <= 4000
                && bytes(Entry(id, kind, Open, now, None, None, text)) + 1 > cfg.maxBytes
    {
      k := 0;
      if Trim(text) == "" { return EmptyText, k; }
      if |text| > MAX_TEXT { return TextTooLong, k; }
      var entry := Entry(id, kind, Open, now, None, None, text);
      if bytes(entry) + 1 > cfg.maxBytes { return TooLarge, k; }
      var all := [entry] + entries;
      var kept, evicted, protectedKept;
      kept, evicted, protectedKept, k := PruneEntries(all, cfg, Some(id), now, bytes);
      CleanedHead(entry, entries, cfg, now);
      AddedEntryStays(Cleaned(all, cfg, now), k);
      assert [entry][1..] == [] && Within([entry], cfg, bytes);
      entries := if protectedKept then kept else entries;
      r := if protectedKept then Added(entry, evicted) else LateTooLarge;
    }
  }
}
