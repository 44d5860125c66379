/** The directory tree that a flat list of entries encodes.

    Walking a path, climbing to the root, and the three edits of the list: appending an entry,
    dropping one, and re-hanging one under another parent. */
module Tree {
  import opened Domain

  // ---- lookups ---------------------------------------------------------------------------

  function PositionFrom(es: seq<Entry>, d: DirectoryId, name: string, k: nat): (r: Option<nat>)
    requires k <= |es|
    ensures r.Some? ==> k <= r.value < |es| && es[r.value].parent == d && es[r.value].name == name
    ensures r.None? ==> forall j :: k <= j < |es| ==> es[j].parent != d || es[j].name != name
    decreases |es| - k
  {
    if k == |es| then None
    else if es[k].parent == d && es[k].name == name then Some(k)
    else PositionFrom(es, d, name, k + 1)
  }

  /** Index of the first entry of directory `d` called `name`. */
  function Position(es: seq<Entry>, d: DirectoryId, name: string): Option<nat> {
    PositionFrom(es, d, name, 0)
  }

  function Lookup(es: seq<Entry>, d: DirectoryId, name: string): Option<Target> {
    var k := Position(es, d, name);
    if k.Some? then Some(es[k.value].target) else None
  }

  /** Parent of the first entry that targets directory `d`. */
  function ParentOf(es: seq<Entry>, d: DirectoryId): (r: Option<DirectoryId>)
    ensures r.Some? ==> exists j :: 0 <= j < |es| && es[j].target == Directory(d) && es[j].parent == r.value
    ensures r.None? ==> forall j :: 0 <= j < |es| ==> es[j].target != Directory(d)
  {
    if es == [] then None
    else if es[0].target == Directory(d) then Some(es[0].parent)
    else
      var r := ParentOf(es[1..], d);
      assert forall j :: 0 < j < |es| ==> es[1..][j - 1] == es[j];
      assert r.Some? ==> exists j :: 0 < j < |es| && es[j].target == Directory(d) && es[j].parent == r.value by {
        if r.Some? {
          var j :| 0 <= j < |es[1..]| && es[1..][j].target == Directory(d) && es[1..][j].parent == r.value;
          assert es[j + 1].target == Directory(d) && es[j + 1].parent == r.value;
        }
      }
      r
  }

  /** Follows components downwards from directory `cur`. */
  function Walk(es: seq<Entry>, cur: DirectoryId, cs: seq<string>): Result<Target>
    decreases |cs|
  {
    if cs == [] then Ok(Directory(cur))
    else match Lookup(es, cur, cs[0])
      case None => Err(NotFound)
      case Some(Directory(d)) => Walk(es, d, cs[1..])
      case Some(File(f)) => if |cs| == 1 then Ok(File(f)) else Err(NotDirectory)
  }

  // ---- shape and validity ----------------------------------------------------------------

  datatype Shape = Shape(root: DirectoryId, dirs: set<DirectoryId>, files: set<FileId>, entries: seq<Entry>)

  predicate Known(sh: Shape, t: Target) {
    match t
    case File(f) => f in sh.files
    case Directory(d) => d in sh.dirs
  }

  ghost predicate UniqueNames(es: seq<Entry>) {
    forall i, j :: 0 <= i < j < |es| ==> es[i].parent != es[j].parent || es[i].name != es[j].name
  }

  ghost predicate UniqueTargets(es: seq<Entry>) {
    forall i, j :: 0 <= i < j < |es| ==> es[i].target != es[j].target
  }

  /** No dangling identifier: entries connect existing objects and never target the root. */
  ghost predicate Connected(sh: Shape) {
    && sh.root in sh.dirs
    && forall i :: 0 <= i < |sh.entries| ==>
      && sh.entries[i].parent in sh.dirs
      && Known(sh, sh.entries[i].target)
      && sh.entries[i].target != Directory(sh.root)
  }

  ghost predicate Targeted(es: seq<Entry>, t: Target) {
    exists i :: 0 <= i < |es| && es[i].target == t
  }

  /** No orphan identifier: every object except the root hangs somewhere. */
  ghost predicate NoOrphans(sh: Shape) {
    forall t :: Known(sh, t) && t != Directory(sh.root) ==> Targeted(sh.entries, t)
  }

  ghost predicate Ranked(es: seq<Entry>, rank: DirectoryId -> nat) {
    forall i :: 0 <= i < |es| && es[i].target.Directory? ==> rank(es[i].parent) < rank(es[i].target.dir)
  }

  ghost predicate Acyclic(es: seq<Entry>) {
    exists rank :: Ranked(es, rank)
  }

  ghost predicate RootedTree(sh: Shape) {
    && Connected(sh) && NoOrphans(sh)
    && UniqueNames(sh.entries) && UniqueTargets(sh.entries)
    && Acyclic(sh.entries)
  }

  // ---- climbing --------------------------------------------------------------------------

  /** `d` reaches `a` in exactly `n` steps towards the root. */
  ghost predicate Climbs(es: seq<Entry>, d: DirectoryId, a: DirectoryId, n: nat)
    decreases n
  {
    if n == 0 then d == a
    else ParentOf(es, d).Some? && Climbs(es, ParentOf(es, d).value, a, n - 1)
  }

  ghost predicate Descends(es: seq<Entry>, d: DirectoryId, a: DirectoryId) {
    exists n: nat :: Climbs(es, d, a, n)
  }

  lemma {:induction false} ClimbsRank(es: seq<Entry>, d: DirectoryId, a: DirectoryId, n: nat, rank: DirectoryId -> nat)
    requires Ranked(es, rank) && Climbs(es, d, a, n)
    ensures rank(a) + n <= rank(d)
    decreases n
  {
    if n > 0 {
      ClimbsRank(es, ParentOf(es, d).value, a, n - 1, rank);
    }
  }

  lemma DescendsSelf(es: seq<Entry>, d: DirectoryId)
    ensures Descends(es, d, d)
  {
    assert Climbs(es, d, d, 0);
  }

  lemma DescendsRank(es: seq<Entry>, d: DirectoryId, a: DirectoryId, rank: DirectoryId -> nat)
    requires Ranked(es, rank) && Descends(es, d, a)
    ensures rank(a) <= rank(d)
  {
    var n: nat :| Climbs(es, d, a, n);
    ClimbsRank(es, d, a, n, rank);
  }

  lemma ParentIs(es: seq<Entry>, i: nat)
    requires UniqueTargets(es) && i < |es| && es[i].target.Directory?
    ensures ParentOf(es, es[i].target.dir) == Some(es[i].parent)
  {
  }

  /** Below an entry, being a descendant of `a` is inherited from the parent. */
  lemma DescendsStep(es: seq<Entry>, i: nat, a: DirectoryId)
    requires UniqueTargets(es) && i < |es| && es[i].target.Directory?
    ensures Descends(es, es[i].parent, a) ==> Descends(es, es[i].target.dir, a)
    ensures es[i].target.dir != a && Descends(es, es[i].target.dir, a) ==> Descends(es, es[i].parent, a)
  {
    ParentIs(es, i);
    var c, p := es[i].target.dir, es[i].parent;
    if Descends(es, p, a) {
      var n: nat :| Climbs(es, p, a, n);
      assert Climbs(es, c, a, n + 1);
    }
    if c != a && Descends(es, c, a) {
      var n: nat :| Climbs(es, c, a, n);
      assert Climbs(es, p, a, n - 1);
    }
  }

  /** The climbing loop: it terminates on every tree and decides ancestry exactly. */
  method IsDescendant(sh: Shape, start: DirectoryId, ancestor: DirectoryId) returns (r: bool)
    requires RootedTree(sh)
    ensures r <==> Descends(sh.entries, start, ancestor)
  {
    var es := sh.entries;
    var candidate := start;
    ghost var rank :| Ranked(es, rank);
    while true
      invariant Descends(es, start, ancestor) <==> Descends(es, candidate, ancestor)
      decreases rank(candidate)
    {
      if candidate == ancestor {
        DescendsSelf(es, candidate);
        return true;
      }
      if candidate == sh.root {
        StopsWithoutParent(es, candidate, ancestor);
        return false;
      }
      var parent := ParentOf(es, candidate);
      if parent.None? {
        StopsWithoutParent(es, candidate, ancestor);
        return false;
      }
      ClimbOnce(es, candidate, ancestor);
      candidate := parent.value;
    }
  }

  lemma StopsWithoutParent(es: seq<Entry>, d: DirectoryId, a: DirectoryId)
    requires d != a && ParentOf(es, d).None?
    ensures !Descends(es, d, a)
  {
  }

  lemma ClimbOnce(es: seq<Entry>, d: DirectoryId, a: DirectoryId)
    requires d != a && ParentOf(es, d).Some?
    ensures Descends(es, d, a) <==> Descends(es, ParentOf(es, d).value, a)
  {
    if Descends(es, d, a) {
      var n: nat :| Climbs(es, d, a, n);
      assert Climbs(es, ParentOf(es, d).value, a, n - 1);
    }
    if Descends(es, ParentOf(es, d).value, a) {
      var n: nat :| Climbs(es, ParentOf(es, d).value, a, n);
      assert Climbs(es, d, a, n + 1);
    }
  }

  // ---- walking ---------------------------------------------------------------------------

  lemma LookupIs(es: seq<Entry>, i: nat)
    requires UniqueNames(es) && i < |es|
    ensures Position(es, es[i].parent, es[i].name) == Some(i)
    ensures Lookup(es, es[i].parent, es[i].name) == Some(es[i].target)
  {
  }

  lemma {:induction false} WalkConcat(es: seq<Entry>, cur: DirectoryId, p: seq<string>, q: seq<string>)
    ensures Walk(es, cur, p + q) ==
      match Walk(es, cur, p)
      case Ok(Directory(d)) => Walk(es, d, q)
      case Ok(File(f)) => if q == [] then Ok(File(f)) else Err(NotDirectory)
      case Err(e) => Err(e)
    decreases |p|
  {
    if p == [] {
      assert p + q == q;
    } else {
      assert (p + q)[1..] == p[1..] + q;
      match Lookup(es, cur, p[0]) {
        case None =>
        case Some(Directory(d)) => WalkConcat(es, d, p[1..], q);
        case Some(File(f)) =>
      }
    }
  }

  lemma WalkSnoc(es: seq<Entry>, cur: DirectoryId, p: seq<string>, name: string)
    ensures Walk(es, cur, p + [name]) ==
      match Walk(es, cur, p)
      case Ok(Directory(d)) => (match Lookup(es, d, name) case None => Err(NotFound) case Some(t) => Ok(t))
      case Ok(File(f)) => Err(NotDirectory)
      case Err(e) => Err(e)
  {
    WalkConcat(es, cur, p, [name]);
  }

  /** In a tree an object is reached by at most one path. */
  lemma {:induction false} PathUnique(sh: Shape, p: seq<string>, q: seq<string>)
    requires RootedTree(sh)
    requires Walk(sh.entries, sh.root, p).Ok? && Walk(sh.entries, sh.root, p) == Walk(sh.entries, sh.root, q)
    ensures p == q
    decreases |p|
  {
    if p == [] || q == [] {
      if p != [] { var _ := LastStep(sh, p); }
      if q != [] { var _ := LastStep(sh, q); }
    } else {
      var i := LastStep(sh, p);
      var j := LastStep(sh, q);
      assert i == j;
      PathUnique(sh, p[..|p| - 1], q[..|q| - 1]);
      assert p == p[..|p| - 1] + [p[|p| - 1]] && q == q[..|q| - 1] + [q[|q| - 1]];
    }
  }

  /** The last step of a successful walk goes through the one entry that targets its end. */
  lemma LastStep(sh: Shape, p: seq<string>) returns (i: nat)
    requires RootedTree(sh) && p != [] && Walk(sh.entries, sh.root, p).Ok?
    ensures i < |sh.entries| && sh.entries[i].name == p[|p| - 1]
    ensures sh.entries[i].target == Walk(sh.entries, sh.root, p).value
    ensures Walk(sh.entries, sh.root, p[..|p| - 1]) == Ok(Directory(sh.entries[i].parent))
    ensures Walk(sh.entries, sh.root, p) != Ok(Directory(sh.root))
  {
    var init, name := p[..|p| - 1], p[|p| - 1];
    assert p == init + [name];
    WalkSnoc(sh.entries, sh.root, init, name);
    i := Position(sh.entries, Walk(sh.entries, sh.root, init).value.dir, name).value;
  }

  ghost predicate NamesFrom(p: seq<string>, es: seq<Entry>) {
    forall k :: 0 <= k < |p| ==> exists j :: 0 <= j < |es| && es[j].name == p[k]
  }

  /** In a tree every object is reached by some path. */
  lemma PathExists(sh: Shape, t: Target) returns (p: seq<string>)
    requires RootedTree(sh) && Known(sh, t)
    ensures Walk(sh.entries, sh.root, p) == Ok(t)
    ensures NamesFrom(p, sh.entries)
  {
    var rank :| Ranked(sh.entries, rank);
    if t.Directory? {
      p := PathToDirectory(sh, t.dir, rank);
    } else {
      assert Targeted(sh.entries, t);
      var i :| 0 <= i < |sh.entries| && sh.entries[i].target == t;
      var q := PathToDirectory(sh, sh.entries[i].parent, rank);
      p := q + [sh.entries[i].name];
      WalkSnoc(sh.entries, sh.root, q, sh.entries[i].name);
      LookupIs(sh.entries, i);
    }
  }

  lemma {:induction false} PathToDirectory(sh: Shape, d: DirectoryId, rank: DirectoryId -> nat) returns (p: seq<string>)
    requires RootedTree(sh) && Ranked(sh.entries, rank) && d in sh.dirs
    ensures Walk(sh.entries, sh.root, p) == Ok(Directory(d))
    ensures NamesFrom(p, sh.entries)
    decreases rank(d)
  {
    if d == sh.root {
      p := [];
    } else {
      assert Known(sh, Directory(d)) && Targeted(sh.entries, Directory(d));
      var i :| 0 <= i < |sh.entries| && sh.entries[i].target == Directory(d);
      var q := PathToDirectory(sh, sh.entries[i].parent, rank);
      p := q + [sh.entries[i].name];
      WalkSnoc(sh.entries, sh.root, q, sh.entries[i].name);
      LookupIs(sh.entries, i);
    }
  }

  lemma {:induction false} WalkDescends(es: seq<Entry>, cur: DirectoryId, p: seq<string>)
    requires UniqueTargets(es) && Walk(es, cur, p).Ok? && Walk(es, cur, p).value.Directory?
    ensures Descends(es, Walk(es, cur, p).value.dir, cur)
    decreases |p|
  {
    if p == [] {
      DescendsSelf(es, cur);
    } else {
      var init, name := p[..|p| - 1], p[|p| - 1];
      assert p == init + [name];
      WalkSnoc(es, cur, init, name);
      WalkDescends(es, cur, init);
      var d := Walk(es, cur, init).value.dir;
      DescendsStep(es, Position(es, d, name).value, cur);
    }
  }
}
