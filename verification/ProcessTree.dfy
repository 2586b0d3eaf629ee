/** Process forests: the resource guard's per-run trees, and the process-tree walk of the CPU watchdog. */
module ProcessTree {
  import opened Text

  /** A snapshot: the listed pids, each once, and the parent of each. */
  datatype Table = Table(pids: seq<int>, parent: map<int, int>)

  predicate Distinct(s: seq<int>) {
    forall i, j :: 0 <= i < j < |s| ==> s[i] != s[j]
  }

  ghost predicate Valid(t: Table) {
    Distinct(t.pids) && forall p :: p in t.parent <==> p in t.pids
  }

  /** No process is its own ancestor: depths grow from parent to child, up to a bound. */
  ghost predicate Acyclic(t: Table, depth: int -> nat, bound: nat) {
    Valid(t) && forall p :: p in t.parent ==> depth(t.parent[p]) < depth(p) <= bound
  }

  // ---------- parent cycles ----------

  /** Listed pids, each the child of the next. */
  predicate ParentPath(t: Table, path: seq<int>) {
    && |path| >= 1 && (forall k :: 0 <= k < |path| ==> path[k] in t.parent)
    && (forall k :: 0 <= k < |path| - 1 ==> t.parent[path[k]] == path[k + 1])
  }

  /** And the last the child of the first. */
  predicate ParentCycle(t: Table, cycle: seq<int>) {
    ParentPath(t, cycle) && t.parent[cycle[|cycle| - 1]] == cycle[0]
  }

  /** The process and those above it, as far as they are listed, n at most. */
  function Above(t: Table, x: int, n: nat): (path: seq<int>)
    ensures |path| <= n
    decreases n
  {
    if n == 0 || x !in t.parent then [] else [x] + Above(t, t.parent[x], n - 1)
  }

  lemma {:induction false} AboveIsPath(t: Table, x: int, n: nat)
    ensures var path := Above(t, x, n);
            path != [] ==> path[0] == x && ParentPath(t, path)
    decreases n
  {
    if n > 0 && x in t.parent { AboveIsPath(t, t.parent[x], n - 1); }
  }

  lemma {:induction false} AboveEnds(t: Table, x: int, n: nat)
    requires |Above(t, x, n)| < n
    ensures Above(t, x, n + 1) == Above(t, x, n)
    decreases n
  {
    if x in t.parent { AboveEnds(t, t.parent[x], n - 1); }
  }

  /** A path upwards that is longer than the table goes round a cycle. */
  lemma LongPathHasCycle(t: Table, x: int, n: nat) returns (cycle: seq<int>)
    requires |Above(t, x, n)| > |t.parent|
    ensures ParentCycle(t, cycle)
  {
    var path := Above(t, x, n);
    AboveIsPath(t, x, n);
    var a, b := Repeats(path, t.parent.Keys);
    cycle := path[a..b];
    assert forall k :: 0 <= k < |cycle| ==> cycle[k] == path[a + k];
    assert t.parent[path[b - 1]] == path[b - 1 + 1];
  }

  lemma DepthGrows(t: Table, x: int)
    requires x in t.parent && forall cycle :: !ParentCycle(t, cycle)
    ensures var n := |t.parent| + 1; |Above(t, t.parent[x], n)| < |Above(t, x, n)| <= n
  {
    var n := |t.parent|;
    if |Above(t, x, n + 1)| > n {
      var cycle := LongPathHasCycle(t, x, n + 1);
    }
    AboveEnds(t, t.parent[x], n);
  }

  lemma {:induction false} PathClimbs(t: Table, depth: int -> nat, bound: nat, path: seq<int>, k: nat)
    requires Acyclic(t, depth, bound) && ParentPath(t, path) && k < |path|
    ensures depth(path[k]) <= depth(path[0])
  {
    if k > 0 {
      var child := path[k - 1];
      PathClimbs(t, depth, bound, path, k - 1);
      assert t.parent[child] == path[k - 1 + 1];
      assert depth(t.parent[child]) < depth(child);
    }
  }

  lemma NoDepthOnCycle(t: Table, depth: int -> nat, bound: nat, cycle: seq<int>)
    requires Acyclic(t, depth, bound)
    ensures !ParentCycle(t, cycle)
  {
    if ParentPath(t, cycle) {
      var last := cycle[|cycle| - 1];
      PathClimbs(t, depth, bound, cycle, |cycle| - 1);
      assert depth(t.parent[last]) < depth(last);
    }
  }

  /** A table can be given such depths exactly if no process is its own ancestor. */
  lemma AcyclicExactly(t: Table)
    requires Valid(t)
    ensures (exists depth, bound :: Acyclic(t, depth, bound)) <==> forall cycle :: !ParentCycle(t, cycle)
  {
    if forall cycle :: !ParentCycle(t, cycle) {
      var n := |t.parent| + 1;
      var depth: int -> nat := x => |Above(t, x, n)|;
      forall p | p in t.parent
        ensures depth(t.parent[p]) < depth(p) <= n
      {
        DepthGrows(t, p);
      }
      assert Acyclic(t, depth, n);
    }
    forall depth, bound, cycle | Acyclic(t, depth, bound)
      ensures !ParentCycle(t, cycle)
    {
      NoDepthOnCycle(t, depth, bound, cycle);
    }
  }

  // ---------- children ----------

  function KidsAmong(pids: seq<int>, parent: map<int, int>, x: int): seq<int> {
    if pids == [] then []
    else
      var last := pids[|pids| - 1];
      KidsAmong(pids[..|pids| - 1], parent, x) + if last in parent && parent[last] == x then [last] else []
  }

  function Kids(t: Table, x: int): seq<int> {
    KidsAmong(t.pids, t.parent, x)
  }

  function Get(children: map<int, seq<int>>, x: int): seq<int> {
    if x in children then children[x] else []
  }

  /** children_map: the pids under each parent, in listing order. */
  method ChildrenMap(t: Table) returns (children: map<int, seq<int>>)
    requires Valid(t)
    ensures forall x :: Get(children, x) == Kids(t, x)
  {
    children := map[];
    var i := 0;
    while i < |t.pids|
      invariant 0 <= i <= |t.pids|
      invariant forall x :: Get(children, x) == KidsAmong(t.pids[..i], t.parent, x)
    {
      var pid := t.pids[i];
      assert t.pids[..i + 1][..i] == t.pids[..i];
      var ppid := t.parent[pid];
      children := children[ppid := Get(children, ppid) + [pid]];
      i := i + 1;
    }
    assert t.pids[..i] == t.pids;
  }

  lemma {:induction false} KidsExactly(pids: seq<int>, parent: map<int, int>, x: int)
    ensures forall k :: k in KidsAmong(pids, parent, x) <==> k in pids && k in parent && parent[k] == x
    ensures Distinct(pids) ==> Distinct(KidsAmong(pids, parent, x))
  {
    if pids != [] {
      KidsExactly(pids[..|pids| - 1], parent, x);
      assert pids == pids[..|pids| - 1] + [pids[|pids| - 1]];
    }
  }

  // ---------- trees ----------

  function Room(depth: int -> nat, bound: nat, x: int): nat {
    if depth(x) <= bound then bound - depth(x) else 0
  }

  /** A process and everything under it, the last child's tree first. */
  ghost function Preorder(t: Table, depth: int -> nat, bound: nat, x: int): seq<int>
    requires Acyclic(t, depth, bound)
    decreases Room(depth, bound, x), 1, 0
  {
    KidsExactly(t.pids, t.parent, x);
    [x] + KidTrees(t, depth, bound, x, Kids(t, x))
  }

  ghost function KidTrees(t: Table, depth: int -> nat, bound: nat, x: int, kids: seq<int>): seq<int>
    requires Acyclic(t, depth, bound)
    requires forall k :: k in kids ==> k in t.parent && t.parent[k] == x
    decreases Room(depth, bound, x), 0, |kids|
  {
    if kids == [] then []
    else
      assert kids[|kids| - 1] in kids;
      Preorder(t, depth, bound, kids[|kids| - 1]) + KidTrees(t, depth, bound, x, kids[..|kids| - 1])
  }

  /** What is still to come out of a stack. */
  ghost function Unstacked(t: Table, depth: int -> nat, bound: nat, stack: seq<int>): seq<int>
    requires Acyclic(t, depth, bound)
  {
    if stack == [] then []
    else Preorder(t, depth, bound, stack[|stack| - 1]) + Unstacked(t, depth, bound, stack[..|stack| - 1])
  }

  lemma {:induction false} UnstackedConcat(t: Table, depth: int -> nat, bound: nat, a: seq<int>, b: seq<int>)
    requires Acyclic(t, depth, bound)
    ensures Unstacked(t, depth, bound, a + b) == Unstacked(t, depth, bound, b) + Unstacked(t, depth, bound, a)
  {
    if b == [] {
      assert a + b == a;
    } else {
      assert (a + b)[..|a + b| - 1] == a + b[..|b| - 1];
      UnstackedConcat(t, depth, bound, a, b[..|b| - 1]);
    }
  }

  lemma {:induction false} KidTreesUnstacked(t: Table, depth: int -> nat, bound: nat, x: int, kids: seq<int>)
    requires Acyclic(t, depth, bound)
    requires forall k :: k in kids ==> k in t.parent && t.parent[k] == x
    ensures KidTrees(t, depth, bound, x, kids) == Unstacked(t, depth, bound, kids)
    decreases |kids|
  {
    if kids != [] { KidTreesUnstacked(t, depth, bound, x, kids[..|kids| - 1]); }
  }

  lemma PreorderIs(t: Table, depth: int -> nat, bound: nat, x: int)
    requires Acyclic(t, depth, bound)
    ensures Preorder(t, depth, bound, x) == [x] + Unstacked(t, depth, bound, Kids(t, x))
  {
    KidsExactly(t.pids, t.parent, x);
    KidTreesUnstacked(t, depth, bound, x, Kids(t, x));
  }

  lemma ConsConcat(x: int, a: seq<int>, b: seq<int>)
    ensures ([x] + a) + b == [x] + (a + b)
  {
  }

  lemma SnocConcat(a: seq<int>, x: int, b: seq<int>)
    ensures (a + [x]) + b == a + ([x] + b)
  {
  }

  lemma TreeStep(t: Table, depth: int -> nat, bound: nat, rest: seq<int>, x: int)
    requires Acyclic(t, depth, bound)
    ensures Preorder(t, depth, bound, x) + Unstacked(t, depth, bound, rest) ==
            [x] + Unstacked(t, depth, bound, rest + Kids(t, x))
  {
    PreorderIs(t, depth, bound, x);
    UnstackedConcat(t, depth, bound, rest, Kids(t, x));
    ConsConcat(x, Unstacked(t, depth, bound, Kids(t, x)), Unstacked(t, depth, bound, rest));
  }

  /** tree: a walk with an explicit stack. */
  method Tree(pid: int, children: map<int, seq<int>>, ghost t: Table, ghost depth: int -> nat, ghost bound: nat)
    returns (out: seq<int>)
    requires Acyclic(t, depth, bound)
    requires forall x :: Get(children, x) == Kids(t, x)
    ensures out == Preorder(t, depth, bound, pid)
  {
    var stack := [pid];
    out := [];
    assert Unstacked(t, depth, bound, stack) == Preorder(t, depth, bound, pid) + Unstacked(t, depth, bound, []);
    while stack != []
      invariant out + Unstacked(t, depth, bound, stack) == Preorder(t, depth, bound, pid)
      decreases |Unstacked(t, depth, bound, stack)|
    {
      var x := stack[|stack| - 1];
      stack := stack[..|stack| - 1];
      TreeStep(t, depth, bound, stack, x);
      SnocConcat(out, x, Unstacked(t, depth, bound, stack + Kids(t, x)));
      out := out + [x];
      stack := stack + Get(children, x);
    }
  }

  // ---------- ancestry ----------

  /** y is x or has x above it. */
  ghost predicate Under(t: Table, depth: int -> nat, bound: nat, y: int, x: int)
    requires Acyclic(t, depth, bound)
    decreases depth(y)
  {
    y == x || (y in t.parent && Under(t, depth, bound, t.parent[y], x))
  }

  lemma {:induction false} UnderTransitive(t: Table, depth: int -> nat, bound: nat, z: int, y: int, x: int)
    requires Acyclic(t, depth, bound) && Under(t, depth, bound, z, y) && Under(t, depth, bound, y, x)
    ensures Under(t, depth, bound, z, x)
    decreases depth(z)
  {
    if z != y { UnderTransitive(t, depth, bound, t.parent[z], y, x); }
  }

  lemma {:induction false} UnderIsDeeper(t: Table, depth: int -> nat, bound: nat, y: int, x: int)
    requires Acyclic(t, depth, bound) && Under(t, depth, bound, y, x)
    ensures depth(y) >= depth(x) && (y != x ==> depth(y) > depth(x) && y in t.parent)
    decreases depth(y)
  {
    if y != x { UnderIsDeeper(t, depth, bound, t.parent[y], x); }
  }

  /** Two ancestors of one process are ancestors of each other, one way or the other. */
  lemma {:induction false} UnderIsAChain(t: Table, depth: int -> nat, bound: nat, y: int, a: int, b: int)
    requires Acyclic(t, depth, bound) && Under(t, depth, bound, y, a) && Under(t, depth, bound, y, b)
    ensures Under(t, depth, bound, a, b) || Under(t, depth, bound, b, a)
    decreases depth(y)
  {
    if y != a && y != b { UnderIsAChain(t, depth, bound, t.parent[y], a, b); }
  }

  lemma {:induction false} KidTreesAreUnder(t: Table, depth: int -> nat, bound: nat, x: int, kids: seq<int>, y: int)
    requires Acyclic(t, depth, bound)
    requires forall k :: k in kids ==> k in t.parent && t.parent[k] == x
    ensures y in KidTrees(t, depth, bound, x, kids) <==> exists k :: k in kids && Under(t, depth, bound, y, k)
    decreases Room(depth, bound, x), 0, |kids|
  {
    if kids != [] {
      var last, init := kids[|kids| - 1], kids[..|kids| - 1];
      assert last in kids;
      TreeIsDescendants(t, depth, bound, last, y);
      KidTreesAreUnder(t, depth, bound, x, init, y);
      assert forall k :: k in kids <==> k in init || k == last;
    }
  }

  /** A process tree holds the process and its descendants, and nothing else. */
  lemma {:induction false} TreeIsDescendants(t: Table, depth: int -> nat, bound: nat, x: int, y: int)
    requires Acyclic(t, depth, bound)
    ensures y in Preorder(t, depth, bound, x) <==> Under(t, depth, bound, y, x)
    decreases Room(depth, bound, x), 1, 0
  {
    var kids := Kids(t, x);
    KidsExactly(t.pids, t.parent, x);
    KidTreesAreUnder(t, depth, bound, x, kids, y);
    if y != x {
      if Under(t, depth, bound, y, x) {
        var k := KidAbove(t, depth, bound, y, x);
      } else {
        forall k | k in kids
          ensures !Under(t, depth, bound, y, k)
        {
          if Under(t, depth, bound, y, k) {
            assert Under(t, depth, bound, x, x) && Under(t, depth, bound, k, x);
            UnderTransitive(t, depth, bound, y, k, x);
          }
        }
      }
    }
  }

  /** The child of x on the way down to y. */
  lemma {:induction false} KidAbove(t: Table, depth: int -> nat, bound: nat, y: int, x: int) returns (k: int)
    requires Acyclic(t, depth, bound) && Under(t, depth, bound, y, x) && y != x
    ensures k in t.parent && t.parent[k] == x && Under(t, depth, bound, y, k)
    decreases depth(y)
  {
    if t.parent[y] == x { k := y; } else { k := KidAbove(t, depth, bound, t.parent[y], x); }
  }

  /** Filtering a listed process's tree by the table drops nothing. */
  lemma TreeIsListed(t: Table, depth: int -> nat, bound: nat, x: int, y: int)
    requires Acyclic(t, depth, bound) && x in t.parent && y in Preorder(t, depth, bound, x)
    ensures y in t.parent
  {
    TreeIsDescendants(t, depth, bound, x, y);
    UnderIsDeeper(t, depth, bound, y, x);
  }

  // ---------- no process twice ----------

  lemma DistinctConcat(a: seq<int>, b: seq<int>)
    requires Distinct(a) && Distinct(b) && forall x :: x in a ==> x !in b
    ensures Distinct(a + b)
  {
    forall i, j | 0 <= i < j < |a + b|
      ensures (a + b)[i] != (a + b)[j]
    {
      assert j < |a| ==> (a + b)[j] == a[j];
      assert i < |a| <= j ==> a[i] in a && (a + b)[j] == b[j - |a|];
    }
  }

  lemma SiblingsApart(t: Table, depth: int -> nat, bound: nat, a: int, b: int, y: int)
    requires Acyclic(t, depth, bound) && a in t.parent && b in t.parent && t.parent[a] == t.parent[b] && a != b
    ensures !(Under(t, depth, bound, y, a) && Under(t, depth, bound, y, b))
  {
    if Under(t, depth, bound, y, a) && Under(t, depth, bound, y, b) {
      UnderIsAChain(t, depth, bound, y, a, b);
      var low, high := if Under(t, depth, bound, a, b) then a else b, if Under(t, depth, bound, a, b) then b else a;
      UnderIsDeeper(t, depth, bound, t.parent[low], high);
    }
  }

  lemma {:induction false} KidTreesDistinct(t: Table, depth: int -> nat, bound: nat, x: int, kids: seq<int>)
    requires Acyclic(t, depth, bound) && Distinct(kids)
    requires forall k :: k in kids ==> k in t.parent && t.parent[k] == x
    ensures Distinct(KidTrees(t, depth, bound, x, kids))
    decreases Room(depth, bound, x), 0, |kids|
  {
    if kids != [] {
      var last, init := kids[|kids| - 1], kids[..|kids| - 1];
      assert last in kids;
      TreeDistinct(t, depth, bound, last);
      KidTreesDistinct(t, depth, bound, x, init);
      forall y | y in Preorder(t, depth, bound, last)
        ensures y !in KidTrees(t, depth, bound, x, init)
      {
        TreeIsDescendants(t, depth, bound, last, y);
        KidTreesAreUnder(t, depth, bound, x, init, y);
        forall k | k in init
          ensures !Under(t, depth, bound, y, k)
        {
          SiblingsApart(t, depth, bound, last, k, y);
        }
      }
      DistinctConcat(Preorder(t, depth, bound, last), KidTrees(t, depth, bound, x, init));
    }
  }

  /** No process is twice in a tree. */
  lemma {:induction false} TreeDistinct(t: Table, depth: int -> nat, bound: nat, x: int)
    requires Acyclic(t, depth, bound)
    ensures Distinct(Preorder(t, depth, bound, x))
    decreases Room(depth, bound, x), 1, 0
  {
    var kids := Kids(t, x);
    KidsExactly(t.pids, t.parent, x);
    KidTreesDistinct(t, depth, bound, x, kids);
    KidTreesAreUnder(t, depth, bound, x, kids, x);
    forall k | k in kids
      ensures !Under(t, depth, bound, x, k)
    {
      if Under(t, depth, bound, x, k) { UnderIsDeeper(t, depth, bound, x, k); }
    }
    DistinctConcat([x], KidTrees(t, depth, bound, x, kids));
  }

  // ---------- roots ----------

  /** No target is above this process, itself included. */
  ghost predicate ClearAbove(t: Table, depth: int -> nat, bound: nat, targets: set<int>, a: int)
    requires Acyclic(t, depth, bound)
    decreases depth(a)
  {
    a in t.parent ==> a !in targets && ClearAbove(t, depth, bound, targets, t.parent[a])
  }

  /** A target with no target above it. */
  ghost predicate Topmost(t: Table, depth: int -> nat, bound: nat, targets: set<int>, pid: int)
    requires Acyclic(t, depth, bound)
  {
    pid in targets && pid in t.parent && ClearAbove(t, depth, bound, targets, t.parent[pid])
  }

  /** Being topmost says that no other target has this one under it. */
  lemma {:induction false} ClearMeansNoneAbove(t: Table, depth: int -> nat, bound: nat, targets: set<int>, a: int)
    requires Acyclic(t, depth, bound) && forall x :: x in targets ==> x in t.parent
    ensures ClearAbove(t, depth, bound, targets, a) <==> forall x :: x in targets ==> !Under(t, depth, bound, a, x)
    decreases depth(a)
  {
    if a in t.parent {
      ClearMeansNoneAbove(t, depth, bound, targets, t.parent[a]);
      if a in targets { assert Under(t, depth, bound, a, a); }
    }
  }

  function ToSet(s: seq<int>): set<int> {
    set x | x in s
  }

  /** roots: the topmost targets, in the order given. */
  method Roots(t: Table, order: seq<int>, ghost depth: int -> nat, ghost bound: nat) returns (r: seq<int>)
    requires Acyclic(t, depth, bound) && Distinct(order) && forall x :: x in order ==> x in t.parent
    ensures Distinct(r)
    ensures forall x :: x in r <==> Topmost(t, depth, bound, ToSet(order), x)
  {
    var targets := ToSet(order);
    r := [];
    var i := 0;
    while i < |order|
      invariant 0 <= i <= |order|
      invariant Distinct(r)
      invariant forall x :: x in r <==> x in order[..i] && Topmost(t, depth, bound, targets, x)
    {
      var pid := order[i];
      var a := t.parent[pid];
      var top := true;
      while a in t.parent && top
        invariant top ==>
                    (ClearAbove(t, depth, bound, targets, a) <==> ClearAbove(t, depth, bound, targets, t.parent[pid]))
        invariant !top ==> !ClearAbove(t, depth, bound, targets, t.parent[pid])
        decreases top, depth(a)
      {
        if a in targets { top := false; } else { a := t.parent[a]; }
      }
      assert order[..i + 1] == order[..i] + [pid];
      assert pid !in order[..i];
      if top { r := r + [pid]; }
      i := i + 1;
    }
    assert order[..i] == order;
  }

  /** Every target has a root above it. */
  lemma {:induction false} RootAbove(t: Table, depth: int -> nat, bound: nat, targets: set<int>, x: int)
      returns (r: int)
    requires Acyclic(t, depth, bound) && x in targets && forall y :: y in targets ==> y in t.parent
    ensures Topmost(t, depth, bound, targets, r) && Under(t, depth, bound, x, r)
    decreases depth(x)
  {
    ClearMeansNoneAbove(t, depth, bound, targets, t.parent[x]);
    if ClearAbove(t, depth, bound, targets, t.parent[x]) {
      r := x;
    } else {
      var y :| y in targets && Under(t, depth, bound, t.parent[x], y);
      UnderIsDeeper(t, depth, bound, t.parent[x], y);
      r := RootAbove(t, depth, bound, targets, y);
      assert Under(t, depth, bound, x, y);
      UnderTransitive(t, depth, bound, x, y, r);
    }
  }

  /** No process is under two roots. */
  lemma RootsApart(t: Table, depth: int -> nat, bound: nat, targets: set<int>, a: int, b: int, x: int)
    requires Acyclic(t, depth, bound) && forall y :: y in targets ==> y in t.parent
    requires Topmost(t, depth, bound, targets, a) && Topmost(t, depth, bound, targets, b)
    requires Under(t, depth, bound, x, a) && Under(t, depth, bound, x, b)
    ensures a == b
  {
    UnderIsAChain(t, depth, bound, x, a, b);
    ClearMeansNoneAbove(t, depth, bound, targets, t.parent[a]);
    ClearMeansNoneAbove(t, depth, bound, targets, t.parent[b]);
  }

  /** Every target is in exactly one root's tree. */
  lemma ExactlyOneTree(t: Table, depth: int -> nat, bound: nat, targets: set<int>, x: int)
    requires Acyclic(t, depth, bound) && x in targets && forall y :: y in targets ==> y in t.parent
    ensures exists r :: Topmost(t, depth, bound, targets, r) && x in Preorder(t, depth, bound, r)
    ensures forall a, b | Topmost(t, depth, bound, targets, a) && Topmost(t, depth, bound, targets, b) ::
              x in Preorder(t, depth, bound, a) && x in Preorder(t, depth, bound, b) ==> a == b
  {
    var r := RootAbove(t, depth, bound, targets, x);
    TreeIsDescendants(t, depth, bound, r, x);
    forall a, b | Topmost(t, depth, bound, targets, a) && Topmost(t, depth, bound, targets, b)
                  && x in Preorder(t, depth, bound, a) && x in Preorder(t, depth, bound, b)
      ensures a == b
    {
      TreeIsDescendants(t, depth, bound, a, x);
      TreeIsDescendants(t, depth, bound, b, x);
      RootsApart(t, depth, bound, targets, a, b, x);
    }
  }

  // ---------- sums ----------

  function SumOver(pids: seq<int>, value: map<int, real>): real {
    if pids == [] then 0.0 else (if pids[0] in value then value[pids[0]] else 0.0) + SumOver(pids[1..], value)
  }

  lemma {:induction false} SumConcat(a: seq<int>, b: seq<int>, value: map<int, real>)
    ensures SumOver(a + b, value) == SumOver(a, value) + SumOver(b, value)
  {
    if a == [] {
      assert a + b == b;
    } else {
      assert (a + b)[1..] == a[1..] + b;
      SumConcat(a[1..], b, value);
    }
  }

  /** A process without a number counts for nothing, and nothing adds up to nothing. */
  lemma SumAdds(pids: seq<int>, pid: int, value: map<int, real>)
    ensures SumOver([], value) == 0.0
    ensures SumOver(pids + [pid], value) == SumOver(pids, value) + if pid in value then value[pid] else 0.0
  {
    SumConcat(pids, [pid], value);
    assert [pid][1..] == [];
  }

  /** The members of all root trees, one root after another. */
  ghost function Members(t: Table, depth: int -> nat, bound: nat, roots: seq<int>): seq<int>
    requires Acyclic(t, depth, bound)
  {
    if roots == [] then []
    else Members(t, depth, bound, roots[..|roots| - 1]) + Preorder(t, depth, bound, roots[|roots| - 1])
  }

  lemma {:induction false} MembersAre(t: Table, depth: int -> nat, bound: nat, roots: seq<int>, x: int)
    requires Acyclic(t, depth, bound)
    ensures x in Members(t, depth, bound, roots) <==> exists r :: r in roots && Under(t, depth, bound, x, r)
  {
    if roots != [] {
      var last, init := roots[|roots| - 1], roots[..|roots| - 1];
      MembersAre(t, depth, bound, init, x);
      TreeIsDescendants(t, depth, bound, last, x);
      assert forall r :: r in roots <==> r in init || r == last;
    }
  }

  /** The root trees are disjoint and hold each process once: those with a target at or above them. */
  lemma {:induction false} MembersOnce(t: Table, depth: int -> nat, bound: nat, targets: set<int>, roots: seq<int>)
    requires Acyclic(t, depth, bound) && (forall y :: y in targets ==> y in t.parent) && Distinct(roots)
    requires forall r :: r in roots ==> Topmost(t, depth, bound, targets, r)
    ensures Distinct(Members(t, depth, bound, roots))
  {
    if roots != [] {
      var last, init := roots[|roots| - 1], roots[..|roots| - 1];
      MembersOnce(t, depth, bound, targets, init);
      TreeDistinct(t, depth, bound, last);
      forall x | x in Members(t, depth, bound, init)
        ensures x !in Preorder(t, depth, bound, last)
      {
        MembersAre(t, depth, bound, init, x);
        var r :| r in init && Under(t, depth, bound, x, r);
        TreeIsDescendants(t, depth, bound, last, x);
        if Under(t, depth, bound, x, last) { RootsApart(t, depth, bound, targets, r, last, x); }
      }
      DistinctConcat(Members(t, depth, bound, init), Preorder(t, depth, bound, last));
    }
  }

  lemma MembersAreTargetTrees(t: Table, depth: int -> nat, bound: nat, targets: set<int>, roots: seq<int>, x: int)
    requires Acyclic(t, depth, bound) && forall y :: y in targets ==> y in t.parent
    requires forall r :: r in roots <==> Topmost(t, depth, bound, targets, r)
    ensures x in Members(t, depth, bound, roots) <==> exists y :: y in targets && Under(t, depth, bound, x, y)
  {
    MembersAre(t, depth, bound, roots, x);
    if y :| y in targets && Under(t, depth, bound, x, y) {
      var r := RootAbove(t, depth, bound, targets, y);
      UnderTransitive(t, depth, bound, x, y, r);
    }
  }

  datatype Stat = Stat(cpu: real, rss: real)

  function Total(roots: seq<int>, stats: map<int, Stat>): Stat {
    if roots == [] then Stat(0.0, 0.0)
    else
      var rest, last := Total(roots[..|roots| - 1], stats), roots[|roots| - 1];
      if last in stats then Stat(rest.cpu + stats[last].cpu, rest.rss + stats[last].rss) else rest
  }

  ghost predicate StatsOf(t: Table, depth: int -> nat, bound: nat, cpu: map<int, real>, rss: map<int, real>,
                          roots: seq<int>, stats: map<int, Stat>)
    requires Acyclic(t, depth, bound)
  {
    forall r | r in roots ::
      && r in stats
      && stats[r] == Stat(SumOver(Preorder(t, depth, bound, r), cpu), SumOver(Preorder(t, depth, bound, r), rss))
  }

  /** Adding up the per-root sums counts every process of every tree once. */
  lemma {:induction false} TotalsCountOnce(t: Table, depth: int -> nat, bound: nat,
                                           cpu: map<int, real>, rss: map<int, real>,
                                           roots: seq<int>, stats: map<int, Stat>)
    requires Acyclic(t, depth, bound) && StatsOf(t, depth, bound, cpu, rss, roots, stats)
    ensures var all := Members(t, depth, bound, roots);
            Total(roots, stats) == Stat(SumOver(all, cpu), SumOver(all, rss))
  {
    if roots != [] {
      var last, init := roots[|roots| - 1], roots[..|roots| - 1];
      assert last in roots && forall r :: r in init ==> r in roots;
      TotalsCountOnce(t, depth, bound, cpu, rss, init, stats);
      SumConcat(Members(t, depth, bound, init), Preorder(t, depth, bound, last), cpu);
      SumConcat(Members(t, depth, bound, init), Preorder(t, depth, bound, last), rss);
    }
  }

  /** `sum(value.get(x, 0.0) for x in members)`. */
  method SumValues(members: seq<int>, value: map<int, real>) returns (total: real)
    ensures total == SumOver(members, value)
  {
    total := 0.0;
    var i := 0;
    while i < |members|
      invariant 0 <= i <= |members|
      invariant total == SumOver(members[..i], value)
    {
      SumConcat(members[..i], [members[i]], value);
      assert members[..i + 1] == members[..i] + [members[i]];
      assert [members[i]][1..] == [];
      if members[i] in value { total := total + value[members[i]]; }
      i := i + 1;
    }
    assert members[..i] == members;
  }

  /** The guard's per-root sums: processor use and memory of each root's whole tree. */
  method RootStats(t: Table, order: seq<int>, cpu: map<int, real>, rss: map<int, real>,
                   ghost depth: int -> nat, ghost bound: nat)
    returns (roots: seq<int>, stats: map<int, Stat>)
    requires Acyclic(t, depth, bound) && Distinct(order) && forall x :: x in order ==> x in t.parent
    ensures Distinct(roots) && forall x :: x in roots <==> Topmost(t, depth, bound, ToSet(order), x)
    ensures StatsOf(t, depth, bound, cpu, rss, roots, stats)
    ensures Distinct(Members(t, depth, bound, roots))
    ensures var all := Members(t, depth, bound, roots);
            Total(roots, stats) == Stat(SumOver(all, cpu), SumOver(all, rss))
  {
    var children := ChildrenMap(t);
    roots := Roots(t, order, depth, bound);
    stats := map[];
    var i := 0;
    while i < |roots|
      invariant 0 <= i <= |roots|
      invariant StatsOf(t, depth, bound, cpu, rss, roots[..i], stats)
    {
      var members := Tree(roots[i], children, t, depth, bound);
      var c := SumValues(members, cpu);
      var m := SumValues(members, rss);
      assert roots[..i + 1] == roots[..i] + [roots[i]];
      stats := stats[roots[i] := Stat(c, m)];
      i := i + 1;
    }
    assert roots[..i] == roots;
    MembersOnce(t, depth, bound, ToSet(order), roots);
    TotalsCountOnce(t, depth, bound, cpu, rss, roots, stats);
  }

  // ---------- collectProcessTree ----------

  /** A directory entry of /proc that is a pid, with the parent its stat file gave, if it could be read. */
  datatype Entry = Entry(pid: int, ppid: Option<int>)

  ghost predicate Edge(entries: seq<Entry>, from: int, to: int) {
    Entry(to, Some(from)) in entries
  }

  ghost predicate Path(entries: seq<Entry>, path: seq<int>) {
    path != [] && forall i :: 0 < i < |path| ==> Edge(entries, path[i - 1], path[i])
  }

  /** There is a chain of parent links from one process down to another. */
  ghost predicate Reaches(entries: seq<Entry>, from: int, to: int) {
    exists path :: Path(entries, path) && path[0] == from && path[|path| - 1] == to
  }

  lemma ReachesStep(entries: seq<Entry>, from: int, via: int, to: int)
    requires Reaches(entries, from, via) && Edge(entries, via, to)
    ensures Reaches(entries, from, to)
  {
    var path :| Path(entries, path) && path[0] == from && path[|path| - 1] == via;
    var longer := path + [to];
    assert forall i :: 0 < i < |longer| ==> Edge(entries, longer[i - 1], longer[i]);
    assert longer[0] == from && longer[|longer| - 1] == to;
  }

  lemma {:induction false} ClosedHoldsPaths(entries: seq<Entry>, seen: set<int>, path: seq<int>, n: nat)
    requires Path(entries, path) && path[0] in seen && n < |path|
    requires forall a, b :: a in seen && Edge(entries, a, b) ==> b in seen
    ensures path[n] in seen
  {
    if n > 0 {
      ClosedHoldsPaths(entries, seen, path, n - 1);
      assert Edge(entries, path[n - 1], path[n]);
    }
  }

  method ChildrenByParent(entries: seq<Entry>) returns (children: map<int, seq<int>>)
    ensures forall a, b :: b in Get(children, a) <==> Edge(entries, a, b)
  {
    children := map[];
    var i := 0;
    while i < |entries|
      invariant 0 <= i <= |entries|
      invariant forall a, b :: b in Get(children, a) <==> Edge(entries[..i], a, b)
    {
      assert entries[..i + 1] == entries[..i] + [entries[i]];
      assert forall a, b ::
        Edge(entries[..i + 1], a, b) <==> Edge(entries[..i], a, b) || Entry(b, Some(a)) == entries[i];
      if entries[i].ppid.Some? {
        var ppid := entries[i].ppid.value;
        children := children[ppid := Get(children, ppid) + [entries[i].pid]];
      }
      i := i + 1;
    }
    assert entries[..i] == entries;
  }

  /** collectProcessTree: on any parent links, cycles included, exactly the processes the root reaches, once each. */
  method Collect(root: int, rootReadable: bool, listing: Option<seq<Entry>>) returns (r: Option<seq<int>>)
    ensures r.None? <==> !rootReadable
    ensures r.Some? && listing.None? ==> r.value == [root]
    ensures r.Some? ==> Distinct(r.value) && r.value != [] && r.value[0] == root
    ensures r.Some? && listing.Some? ==> forall x :: x in r.value <==> Reaches(listing.value, root, x)
  {
    if !rootReadable { return None; }
    if listing.None? { return Some([root]); }
    var entries := listing.value;
    var children := ChildrenByParent(entries);
    var result: seq<int>, visited: set<int>, queue := [], {}, [root];
    ghost var all := {root} + set e | e in entries :: e.pid;
    assert Path(entries, [root]);
    assert Reaches(entries, root, root);
    while queue != []
      invariant Distinct(result) && forall x :: x in result <==> x in visited
      invariant visited <= all && forall x :: x in queue ==> x in all && Reaches(entries, root, x)
      invariant forall x :: x in visited ==> Reaches(entries, root, x)
      invariant forall a, b :: a in visited && Edge(entries, a, b) ==> b in visited || b in queue
      invariant if result == [] then queue == [root] else result[0] == root
      decreases all - visited, |queue|
    {
      var pid := queue[0];
      assert queue == [pid] + queue[1..];
      queue := queue[1..];
      if pid in visited { continue; }
      visited := visited + {pid};
      result := result + [pid];
      var kids := Get(children, pid);
      forall b | b in kids
        ensures b in all && Reaches(entries, root, b)
      {
        assert Edge(entries, pid, b);
        assert Entry(b, Some(pid)).pid == b;
        ReachesStep(entries, root, pid, b);
      }
      queue := queue + kids;
    }
    forall x | Reaches(entries, root, x)
      ensures x in result
    {
      var path :| Path(entries, path) && path[0] == root && path[|path| - 1] == x;
      ClosedHoldsPaths(entries, visited, path, |path| - 1);
    }
    r := Some(result);
  }
}
