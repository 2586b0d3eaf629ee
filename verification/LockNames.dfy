/**
 Paths of lock files. A lock lies in the `locks` directory beside the path it is made for; a lease
 is made for the board's path with the task's id after it.
 */
module LockNames {
  import opened Text

  /** What a character of the path becomes in the file name. */
  function NameChar(c: char): char {
    if c == '/' || c == '.' then '-' else LowerChar(c)
  }

  function NameChars(s: string): (t: string)
    ensures |t| == |s|
    ensures forall k :: 0 <= k < |s| ==> t[k] == NameChar(s[k])
  {
    seq(|s|, k requires 0 <= k < |s| => NameChar(s[k]))
  }

  function DropLeadingSlash(path: string): string {
    if path != "" && path[0] == '/' then path[1..] else path
  }

  function LockName(path: string): string {
    NameChars(DropLeadingSlash(path)) + ".lock"
  }

  /** What comes before the last slash. */
  function DirOf(path: string): string
    decreases |path|
  {
    if path == "" then ""
    else if path[|path| - 1] == '/' then path[..|path| - 1]
    else DirOf(path[..|path| - 1])
  }

  /** The file that locks a path. */
  function LockPath(path: string): string {
    DirOf(path) + "/locks/" + LockName(path)
  }

  /** The lock that serialises board mutations. */
  function BoardLock(board: string): string {
    LockPath(board)
  }

  /** What a lease is made for. */
  function LeasePath(board: string, id: string): string {
    board + ".claim-" + id
  }

  /** The lease that taking a task creates. */
  function LeaseLock(board: string, id: string): string {
    LockPath(LeasePath(board, id))
  }

  /** The lease that is read and removed: it is looked for beside the board. */
  function LeaseFile(board: string, id: string): string {
    DirOf(board) + "/locks/" + LockName(LeasePath(board, id))
  }

  // ---------- paths come apart ----------

  lemma JoinApart(d1: string, n1: string, d2: string, n2: string)
    requires '/' !in n1 && '/' !in n2
    ensures d1 + "/locks/" + n1 == d2 + "/locks/" + n2 <==> d1 == d2 && n1 == n2
  {
    var p1, p2 := d1 + "/locks/" + n1, d2 + "/locks/" + n2;
    if p1 == p2 {
      SlashBefore(d1 + "/locks", n1, d2 + "/locks", n2, p1);
      assert p1[|p1| - |n1|..] == n1 && p2[|p2| - |n2|..] == n2;
      assert p1[..|p1| - |n1| - 7] == d1 && p2[..|p2| - |n2| - 7] == d2;
    }
  }

  lemma LastSlash(a: string, n: string, p: string)
    requires '/' !in n && p == a + "/" + n
    ensures |p| > |a| && p[|a|] == '/' && forall k :: |a| < k < |p| ==> p[k] != '/'
  {
    assert p == (a + "/") + n;
    assert forall k :: |a| < k < |p| ==> p[k] == n[k - |a| - 1];
  }

  lemma SlashBefore(a: string, n1: string, b: string, n2: string, p: string)
    requires '/' !in n1 && '/' !in n2 && p == a + "/" + n1 == b + "/" + n2
    ensures |n1| == |n2|
  {
    LastSlash(a, n1, p);
    LastSlash(b, n2, p);
  }

  lemma NameHasNoSlash(path: string)
    ensures '/' !in LockName(path)
  {
    var t := NameChars(DropLeadingSlash(path));
    assert forall k :: 0 <= k < |t| ==> t[k] != '/';
  }

  lemma {:induction false} DirConcat(a: string, b: string)
    ensures DirOf(a + b) == if '/' in b then a + DirOf(b) else DirOf(a)
    decreases |b|
  {
    if b == "" {
      assert a + b == a;
    } else {
      var init := b[..|b| - 1];
      assert b == init + [b[|b| - 1]];
      assert (a + b)[..|a + b| - 1] == a + init;
      DirConcat(a, init);
    }
  }

  lemma SameName(p: string, q: string)
    ensures LockName(p) == LockName(q) <==> NameChars(DropLeadingSlash(p)) == NameChars(DropLeadingSlash(q))
  {
    assert LockName(p)[..|LockName(p)| - 5] == NameChars(DropLeadingSlash(p));
    assert LockName(q)[..|LockName(q)| - 5] == NameChars(DropLeadingSlash(q));
  }

  /** The path without the one slash it may begin with. */
  predicate IsBare(path: string, bare: string) {
    path == "/" + bare || (path == bare && (bare == "" || bare[0] != '/'))
  }

  /** A lock is named by its bare path in lower case, with a hyphen for each slash and each dot, and ends in `.lock`. */
  lemma LockNameReads(path: string, bare: string)
    requires IsBare(path, bare)
    ensures var name := LockName(path);
            && |name| == |bare| + 5 && name[|bare|..] == ".lock"
            && forall k :: 0 <= k < |bare| ==>
                 name[k] == if bare[k] == '/' || bare[k] == '.' then '-' else LowerChar(bare[k])
  {
    assert DropLeadingSlash(path) == bare;
  }

  lemma {:induction false} DirBefore(dir: string, base: string)
    requires '/' !in base
    ensures DirOf(dir + "/" + base) == dir
  {
    var path := dir + "/" + base;
    if base == "" {
      assert path[..|path| - 1] == dir;
    } else {
      var init := base[..|base| - 1];
      assert path[|path| - 1] == base[|base| - 1] && base[|base| - 1] in base;
      assert path[..|path| - 1] == dir + "/" + init;
      assert forall c :: c in init ==> c in base;
      DirBefore(dir, init);
    }
  }

  /** It lies in the directory `locks` beside the path. */
  lemma LockLiesBeside(dir: string, base: string)
    requires '/' !in base
    ensures LockPath(dir + "/" + base) == dir + "/locks/" + LockName(dir + "/" + base)
  {
    DirBefore(dir, base);
  }

  /** Two paths have one lock exactly if they lie in one directory and read alike. */
  lemma LockCollision(p: string, q: string)
    ensures LockPath(p) == LockPath(q) <==>
            DirOf(p) == DirOf(q) && NameChars(DropLeadingSlash(p)) == NameChars(DropLeadingSlash(q))
  {
    NameHasNoSlash(p);
    NameHasNoSlash(q);
    JoinApart(DirOf(p), LockName(p), DirOf(q), LockName(q));
    SameName(p, q);
  }

  // ---------- leases ----------

  lemma LeaseNameChars(board: string, id: string)
    requires board != ""
    ensures NameChars(DropLeadingSlash(LeasePath(board, id))) ==
            NameChars(DropLeadingSlash(board)) + NameChars(".claim-") + NameChars(id)
  {
    var b := DropLeadingSlash(board);
    assert DropLeadingSlash(LeasePath(board, id)) == b + ".claim-" + id;
    assert NameChars(b + ".claim-" + id) == NameChars(b) + NameChars(".claim-") + NameChars(id);
  }

  lemma LeaseDir(board: string, id: string)
    ensures DirOf(LeasePath(board, id)) == if '/' in id then board + ".claim-" + DirOf(id) else DirOf(board)
  {
    assert LeasePath(board, id) == board + (".claim-" + id);
    DirConcat(board + ".claim-", id);
    DirConcat(board, ".claim-");
  }

  lemma NameLength(board: string, id: string)
    requires board != ""
    ensures |LockName(LeasePath(board, id))| > |LockName(board)|
  {
    LeaseNameChars(board, id);
  }

  /** No lease, created or looked for, is its board's own lock. */
  lemma LeaseIsNotBoardLock(board: string, id: string)
    requires board != ""
    ensures LeaseLock(board, id) != BoardLock(board) && LeaseFile(board, id) != BoardLock(board)
  {
    var path := LeasePath(board, id);
    NameLength(board, id);
    NameHasNoSlash(board);
    NameHasNoSlash(path);
    JoinApart(DirOf(path), LockName(path), DirOf(board), LockName(board));
    JoinApart(DirOf(board), LockName(path), DirOf(board), LockName(board));
  }

  /** A lease is looked for where it was created exactly if the id has no slash. */
  lemma LeaseIsFound(board: string, id: string)
    ensures LeaseLock(board, id) == LeaseFile(board, id) <==> '/' !in id
  {
    var path := LeasePath(board, id);
    NameHasNoSlash(path);
    JoinApart(DirOf(path), LockName(path), DirOf(board), LockName(path));
    LeaseDir(board, id);
    DirIsShort(board);
  }

  lemma {:induction false} DirIsShort(path: string)
    ensures |DirOf(path)| <= |path|
    decreases |path|
  {
    if path != "" { DirIsShort(path[..|path| - 1]); }
  }

  /** Two tasks of one board are looked for in one file exactly if their ids read alike. */
  lemma LeaseFileCollision(board: string, a: string, b: string)
    requires board != ""
    ensures LeaseFile(board, a) == LeaseFile(board, b) <==> NameChars(a) == NameChars(b)
  {
    var p, q := LeasePath(board, a), LeasePath(board, b);
    NameHasNoSlash(p);
    NameHasNoSlash(q);
    JoinApart(DirOf(board), LockName(p), DirOf(board), LockName(q));
    SameName(p, q);
    LeaseNameChars(board, a);
    LeaseNameChars(board, b);
    SamePrefix(NameChars(DropLeadingSlash(board)) + NameChars(".claim-"), NameChars(a), NameChars(b));
  }

  lemma SamePrefix(pre: string, s: string, t: string)
    ensures pre + s == pre + t <==> s == t
  {
    assert (pre + s)[|pre|..] == s && (pre + t)[|pre|..] == t;
  }

  /**
   Leases of tasks of one board, whose ids have no slash, share a file exactly if the ids agree after lower-casing and
   turning `.` into `-`; they are not always distinct, as the comment there says.
   */
  lemma LeaseCollision(board: string, a: string, b: string)
    requires board != "" && '/' !in a && '/' !in b
    ensures LeaseLock(board, a) == LeaseLock(board, b) <==> NameChars(a) == NameChars(b)
  {
    LeaseIsFound(board, a);
    LeaseIsFound(board, b);
    LeaseFileCollision(board, a, b);
  }

  /** In general, for any two boards and ids: the directories are one, and what follows reads alike. */
  lemma LeasesOfBoardsCollide(board: string, a: string, other: string, b: string)
    requires board != "" && other != ""
    ensures LeaseLock(board, a) == LeaseLock(other, b) <==>
            && (if '/' in a then board + ".claim-" + DirOf(a) else DirOf(board)) ==
               (if '/' in b then other + ".claim-" + DirOf(b) else DirOf(other))
            && NameChars(DropLeadingSlash(board)) + NameChars(".claim-") + NameChars(a) ==
               NameChars(DropLeadingSlash(other)) + NameChars(".claim-") + NameChars(b)
  {
    LockCollision(LeasePath(board, a), LeasePath(other, b));
    LeaseDir(board, a);
    LeaseDir(other, b);
    LeaseNameChars(board, a);
    LeaseNameChars(other, b);
  }

  // ---------- examples ----------

  lemma LeaseCollisionExample()
    ensures "T1" != "t1" && LeaseLock("/b.md", "T1") == LeaseLock("/b.md", "t1")
  {
    LeaseCollision("/b.md", "T1", "t1");
    assert NameChars("T1") == NameChars("t1");
  }

  /** Two boards in one directory that share the board lock and all leases. */
  lemma BoardCollisionExample(id: string)
    ensures BoardLock("/b.md") == BoardLock("/b-md") && LeaseLock("/b.md", id) == LeaseLock("/b-md", id) <==> '/' !in id
  {
    var p, q := "/b.md", "/b-md";
    assert DirOf(p) == "" == DirOf(q) by {
      DirConcat("/", "b.md");
      DirConcat("/", "b-md");
      assert "/" + "b.md" == p && "/" + "b-md" == q;
    }
    assert NameChars(DropLeadingSlash(p)) == NameChars(DropLeadingSlash(q));
    LockCollision(p, q);
    LeasesOfBoardsCollide(p, id, q, id);
    assert '/' in id ==> (p + ".claim-" + DirOf(id))[2] == '.' && (q + ".claim-" + DirOf(id))[2] == '-';
  }
}
