/** The effect of the three entry-list edits on the tree and on every path. */
module TreeEdits {
  import opened Domain
  import opened Tree

  ghost predicate SameSlot(es: seq<Entry>, es': seq<Entry>, d: DirectoryId, name: string) {
    Lookup(es', d, name) == Lookup(es, d, name)
  }

  /** Lookups agree everywhere except perhaps in the two given slots. */
  ghost predicate AgreeExcept(es: seq<Entry>, es': seq<Entry>, d1: DirectoryId, n1: string, d2: DirectoryId,
                              n2: string) {
    forall d, name :: !(d == d1 && name == n1) && !(d == d2 && name == n2) ==> SameSlot(es, es', d, name)
  }

  /** A walk that only meets unchanged slots is unchanged. */
  lemma {:induction false} SameWalk(es: seq<Entry>, es': seq<Entry>, cur: DirectoryId, p: seq<string>)
    requires forall i :: 0 <= i < |p| && Walk(es, cur, p[..i]).Ok? && Walk(es, cur, p[..i]).value.Directory? ==>
      SameSlot(es, es', Walk(es, cur, p[..i]).value.dir, p[i])
    ensures Walk(es', cur, p) == Walk(es, cur, p)
    decreases |p|
  {
    if p != [] {
      assert p[..0] == [];
      assert SameSlot(es, es', Walk(es, cur, p[..0]).value.dir, p[0]);
      var next := Lookup(es, cur, p[0]);
      if next.Some? && next.value.Directory? {
        var d, q := next.value.dir, p[1..];
        forall i | 0 <= i < |q| && Walk(es, d, q[..i]).Ok? && Walk(es, d, q[..i]).value.Directory?
          ensures SameSlot(es, es', Walk(es, d, q[..i]).value.dir, q[i])
        {
          assert p[..i + 1][1..] == q[..i];
          assert Walk(es, cur, p[..i + 1]) == Walk(es, d, q[..i]);
        }
        SameWalk(es, es', d, q);
      }
    }
  }

  /** Meeting the slot `name` of the directory at `parent` means following `parent + [name]`. */
  lemma SlotOnPath(sh: Shape, parent: seq<string>, name: string, q: seq<string>, i: nat)
    requires RootedTree(sh) && i < |q| && Walk(sh.entries, sh.root, parent).Ok?
    ensures Walk(sh.entries, sh.root, q[..i]) == Walk(sh.entries, sh.root, parent) && q[i] == name ==>
      parent + [name] <= q
  {
    if Walk(sh.entries, sh.root, q[..i]) == Walk(sh.entries, sh.root, parent) && q[i] == name {
      PathUnique(sh, q[..i], parent);
      assert q[..i + 1] == parent + [name];
    }
  }

  /** Paths that extend neither changed slot keep their exact result or error. */
  lemma OtherPaths(sh: Shape, es': seq<Entry>, fp: seq<string>, fn: string, tp: seq<string>, tn: string, q: seq<string>)
    requires RootedTree(sh)
    requires Walk(sh.entries, sh.root, fp).Ok? && Walk(sh.entries, sh.root, fp).value.Directory?
    requires Walk(sh.entries, sh.root, tp).Ok? && Walk(sh.entries, sh.root, tp).value.Directory?
    requires AgreeExcept(sh.entries, es', Walk(sh.entries, sh.root, fp).value.dir, fn,
                         Walk(sh.entries, sh.root, tp).value.dir, tn)
    requires !(fp + [fn] <= q) && !(tp + [tn] <= q)
    ensures Walk(es', sh.root, q) == Walk(sh.entries, sh.root, q)
  {
    var es, root := sh.entries, sh.root;
    forall i | 0 <= i < |q| && Walk(es, root, q[..i]).Ok? && Walk(es, root, q[..i]).value.Directory?
      ensures SameSlot(es, es', Walk(es, root, q[..i]).value.dir, q[i])
    {
      SlotOnPath(sh, fp, fn, q, i);
      SlotOnPath(sh, tp, tn, q, i);
    }
    SameWalk(es, es', root, q);
  }

  // ---- appending an entry ------------------------------------------------------------------

  function Added(sh: Shape, e: Entry): Shape {
    sh.(entries := sh.entries + [e],
        dirs := if e.target.Directory? then sh.dirs + {e.target.dir} else sh.dirs,
        files := if e.target.File? then sh.files + {e.target.file} else sh.files)
  }

  ghost predicate CanAdd(sh: Shape, e: Entry) {
    e.parent in sh.dirs && Lookup(sh.entries, e.parent, e.name).None? && !Known(sh, e.target)
  }

  lemma AddRanked(sh: Shape, e: Entry)
    requires Connected(sh) && Acyclic(sh.entries) && CanAdd(sh, e)
    ensures Acyclic(Added(sh, e).entries)
  {
    var es, es' := sh.entries, Added(sh, e).entries;
    var rank :| Ranked(es, rank);
    var rank' := d => if e.target == Directory(d) then rank(e.parent) + 1 else rank(d);
    forall i | 0 <= i < |es'| && es'[i].target.Directory?
      ensures rank'(es'[i].parent) < rank'(es'[i].target.dir)
    {
      if i < |es| {
        assert es'[i] == es[i];
        assert es[i].parent in sh.dirs && es[i].target.dir in sh.dirs;
      }
    }
    assert Ranked(es', rank');
  }

  lemma AddNoOrphans(sh: Shape, e: Entry)
    requires NoOrphans(sh)
    ensures NoOrphans(Added(sh, e))
  {
    var es, es' := sh.entries, Added(sh, e).entries;
    forall t | Known(Added(sh, e), t) && t != Directory(sh.root) ensures Targeted(es', t) {
      if t == e.target {
        assert es'[|es|].target == t;
      } else {
        assert Targeted(es, t);
        var i :| 0 <= i < |es| && es[i].target == t;
        assert es'[i].target == t;
      }
    }
  }

  lemma AddKeepsTree(sh: Shape, e: Entry)
    requires RootedTree(sh) && CanAdd(sh, e)
    ensures RootedTree(Added(sh, e))
  {
    hide Acyclic, NoOrphans;
    AddRanked(sh, e);
    AddNoOrphans(sh, e);
  }

  lemma AddedLookup(sh: Shape, e: Entry)
    requires RootedTree(sh) && CanAdd(sh, e)
    ensures Lookup(Added(sh, e).entries, e.parent, e.name) == Some(e.target)
    ensures AgreeExcept(sh.entries, Added(sh, e).entries, e.parent, e.name, e.parent, e.name)
  {
    AddKeepsTree(sh, e);
    var es, es' := sh.entries, Added(sh, e).entries;
    LookupIs(es', |es|);
    forall d, name | !(d == e.parent && name == e.name) ensures SameSlot(es, es', d, name) {
      var k := Position(es, d, name);
      if k.Some? {
        LookupIs(es', k.value);
      }
    }
  }

  /** A new entry appears at its path, is empty below, and no other path notices. */
  lemma AddPaths(sh: Shape, e: Entry, parent: seq<string>, q: seq<string>)
    requires RootedTree(sh) && CanAdd(sh, e) && Walk(sh.entries, sh.root, parent) == Ok(Directory(e.parent))
    ensures Walk(Added(sh, e).entries, sh.root, q) ==
      if q == parent + [e.name] then Ok(e.target)
      else if parent + [e.name] <= q then Err(if e.target.File? then NotDirectory else NotFound)
      else Walk(sh.entries, sh.root, q)
  {
    AddedLookup(sh, e);
    var es, es', full := sh.entries, Added(sh, e).entries, parent + [e.name];
    if full <= q {
      OtherPaths(sh, es', parent, e.name, parent, e.name, parent);
      WalkSnoc(es', sh.root, parent, e.name);
      var rest := q[|full|..];
      assert q == full + rest;
      WalkConcat(es', sh.root, full, rest);
      if rest != [] && e.target.Directory? {
        forall i | 0 <= i < |es'| ensures es'[i].parent != e.target.dir { }
      }
    } else {
      OtherPaths(sh, es', parent, e.name, parent, e.name, q);
    }
  }

  // ---- dropping an entry ---------------------------------------------------------------------

  function Dropped(sh: Shape, i: nat): Shape
    requires i < |sh.entries|
  {
    var t := sh.entries[i].target;
    sh.(entries := sh.entries[..i] + sh.entries[i + 1..],
        dirs := if t.Directory? then sh.dirs - {t.dir} else sh.dirs,
        files := if t.File? then sh.files - {t.file} else sh.files)
  }

  ghost predicate CanDrop(sh: Shape, i: nat) {
    && i < |sh.entries|
    && (sh.entries[i].target.Directory? ==>
      forall j :: 0 <= j < |sh.entries| ==> sh.entries[j].parent != sh.entries[i].target.dir)
  }

  lemma DroppedEntry(sh: Shape, i: nat, j: nat)
    requires i < |sh.entries| && j < |sh.entries| && j != i
    ensures
      var k := if j < i then j else j - 1;
      k < |Dropped(sh, i).entries| && Dropped(sh, i).entries[k] == sh.entries[j]
  {
  }

  lemma DropNoOrphans(sh: Shape, i: nat)
    requires NoOrphans(sh) && UniqueTargets(sh.entries) && i < |sh.entries|
    ensures NoOrphans(Dropped(sh, i))
  {
    forall t | Known(Dropped(sh, i), t) && t != Directory(sh.root) ensures Targeted(Dropped(sh, i).entries, t) {
      assert Known(sh, t) && Targeted(sh.entries, t);
      var j :| 0 <= j < |sh.entries| && sh.entries[j].target == t;
      assert j != i;
      DroppedEntry(sh, i, j);
    }
  }

  lemma DropConnected(sh: Shape, i: nat)
    requires Connected(sh) && UniqueTargets(sh.entries) && CanDrop(sh, i)
    ensures Connected(Dropped(sh, i))
  {
    var es, es' := sh.entries, Dropped(sh, i).entries;
    forall j | 0 <= j < |es'|
      ensures es'[j].parent in Dropped(sh, i).dirs
      ensures Known(Dropped(sh, i), es'[j].target) && es'[j].target != Directory(sh.root)
    {
      var k := if j < i then j else j + 1;
      assert es'[j] == es[k] && es[k].target != es[i].target;
    }
  }

  lemma DropKeepsTree(sh: Shape, i: nat)
    requires RootedTree(sh) && CanDrop(sh, i)
    ensures RootedTree(Dropped(sh, i))
  {
    DropNoOrphans(sh, i);
    DropConnected(sh, i);
    hide Connected, NoOrphans, CanDrop;
    var es, es' := sh.entries, Dropped(sh, i).entries;
    assert forall j :: 0 <= j < |es'| ==> es'[j] == es[if j < i then j else j + 1];
    var rank :| Ranked(es, rank);
    assert Ranked(es', rank);
  }

  lemma DroppedLookup(sh: Shape, i: nat)
    requires RootedTree(sh) && CanDrop(sh, i)
    ensures Lookup(Dropped(sh, i).entries, sh.entries[i].parent, sh.entries[i].name).None?
    ensures AgreeExcept(sh.entries, Dropped(sh, i).entries, sh.entries[i].parent, sh.entries[i].name,
                        sh.entries[i].parent, sh.entries[i].name)
  {
    DropKeepsTree(sh, i);
    var es, es', e := sh.entries, Dropped(sh, i).entries, sh.entries[i];
    assert UniqueNames(es) && UniqueNames(es');
    hide RootedTree, CanDrop;
    DroppedSlotEmpty(es, i);
    forall d, name | !(d == e.parent && name == e.name) ensures SameSlot(es, es', d, name) {
      DroppedOtherSlot(es, i, d, name);
    }
  }

  lemma DroppedSlotEmpty(es: seq<Entry>, i: nat)
    requires i < |es| && UniqueNames(es)
    ensures Lookup(es[..i] + es[i + 1..], es[i].parent, es[i].name).None?
  {
    var es' := es[..i] + es[i + 1..];
    assert forall j :: 0 <= j < |es'| ==> es'[j] == es[if j < i then j else j + 1];
  }

  lemma DroppedOtherSlot(es: seq<Entry>, i: nat, d: DirectoryId, name: string)
    requires i < |es| && UniqueNames(es[..i] + es[i + 1..]) && !(d == es[i].parent && name == es[i].name)
    ensures SameSlot(es, es[..i] + es[i + 1..], d, name)
  {
    var es' := es[..i] + es[i + 1..];
    assert forall j :: 0 <= j < |es'| ==> es'[j] == es[if j < i then j else j + 1];
    var k := Position(es, d, name);
    if k.Some? {
      var k' := if k.value < i then k.value else k.value - 1;
      assert es'[k'] == es[k.value];
      LookupIs(es', k');
    }
  }

  /** A dropped entry takes exactly the paths that extend it away. */
  lemma DropPaths(sh: Shape, i: nat, parent: seq<string>, q: seq<string>)
    requires RootedTree(sh) && CanDrop(sh, i)
    requires Walk(sh.entries, sh.root, parent) == Ok(Directory(sh.entries[i].parent))
    ensures Walk(Dropped(sh, i).entries, sh.root, q) ==
      if parent + [sh.entries[i].name] <= q then Err(NotFound) else Walk(sh.entries, sh.root, q)
  {
    DroppedLookup(sh, i);
    var es, es', name := sh.entries, Dropped(sh, i).entries, sh.entries[i].name;
    var full := parent + [name];
    if full <= q {
      OtherPaths(sh, es', parent, name, parent, name, parent);
      WalkSnoc(es', sh.root, parent, name);
      assert q == full + q[|full|..];
      WalkConcat(es', sh.root, full, q[|full|..]);
    } else {
      OtherPaths(sh, es', parent, name, parent, name, q);
    }
  }

  // ---- re-hanging an entry -------------------------------------------------------------------

  function Moved(sh: Shape, i: nat, parent: DirectoryId, name: string): Shape
    requires i < |sh.entries|
  {
    sh.(entries := sh.entries[i := Entry(parent, name, sh.entries[i].target)])
  }

  ghost predicate CanMove(sh: Shape, i: nat, parent: DirectoryId, name: string) {
    && i < |sh.entries| && parent in sh.dirs
    && Lookup(sh.entries, parent, name).None?
    && (sh.entries[i].target.Directory? ==> !Descends(sh.entries, parent, sh.entries[i].target.dir))
  }

  /** Ranks after a move: the carried subtree is lifted above its new parent. */
  lemma MoveRanked(sh: Shape, i: nat, parent: DirectoryId, name: string)
    requires RootedTree(sh) && CanMove(sh, i, parent, name)
    ensures Acyclic(Moved(sh, i, parent, name).entries)
  {
    var es, es' := sh.entries, Moved(sh, i, parent, name).entries;
    var rank :| Ranked(es, rank);
    if es[i].target.File? {
      assert Ranked(es', rank);
    } else {
      var x := es[i].target.dir;
      var lift := rank(parent) + 1;
      var rank' := (d: DirectoryId) => if Descends(es, d, x) then rank(d) + lift else rank(d);
      forall k | 0 <= k < |es'| && es'[k].target.Directory?
        ensures rank'(es'[k].parent) < rank'(es'[k].target.dir)
      {
        if k == i {
          DescendsSelf(es, x);
        } else {
          assert es[k].target.dir != x;
          DescendsStep(es, k, x);
        }
      }
      assert Ranked(es', rank');
    }
  }

  lemma MoveKeepsTree(sh: Shape, i: nat, parent: DirectoryId, name: string)
    requires RootedTree(sh) && CanMove(sh, i, parent, name)
    ensures RootedTree(Moved(sh, i, parent, name))
  {
    MoveRanked(sh, i, parent, name);
    var es, es' := sh.entries, Moved(sh, i, parent, name).entries;
    assert forall k :: 0 <= k < |es| ==> es'[k].target == es[k].target;
    assert NoOrphans(Moved(sh, i, parent, name)) by {
      forall t | Known(sh, t) && t != Directory(sh.root) ensures Targeted(es', t) {
        assert Targeted(es, t);
        var k :| 0 <= k < |es| && es[k].target == t;
        assert es'[k].target == t;
      }
    }
  }

  lemma MovedLookup(sh: Shape, i: nat, parent: DirectoryId, name: string)
    requires RootedTree(sh) && CanMove(sh, i, parent, name)
    ensures Lookup(Moved(sh, i, parent, name).entries, parent, name) == Some(sh.entries[i].target)
    ensures Lookup(Moved(sh, i, parent, name).entries, sh.entries[i].parent, sh.entries[i].name).None?
    ensures AgreeExcept(sh.entries, Moved(sh, i, parent, name).entries,
                        sh.entries[i].parent, sh.entries[i].name, parent, name)
  {
    MoveKeepsTree(sh, i, parent, name);
    var es, es' := sh.entries, Moved(sh, i, parent, name).entries;
    LookupIs(es', i);
    LookupIs(es, i);
    forall d, n | !(d == es[i].parent && n == es[i].name) && !(d == parent && n == name)
      ensures SameSlot(es, es', d, n)
    {
      var k := Position(es, d, n);
      if k.Some? {
        LookupIs(es', k.value);
      }
    }
  }

  /** Inside the carried subtree no walk meets a changed slot. */
  lemma CarriedWalk(sh: Shape, i: nat, parent: DirectoryId, name: string, p: seq<string>)
    requires RootedTree(sh) && CanMove(sh, i, parent, name) && sh.entries[i].target.Directory?
    ensures Walk(Moved(sh, i, parent, name).entries, sh.entries[i].target.dir, p)
         == Walk(sh.entries, sh.entries[i].target.dir, p)
  {
    MovedLookup(sh, i, parent, name);
    var es, es', x := sh.entries, Moved(sh, i, parent, name).entries, sh.entries[i].target.dir;
    var rank :| Ranked(es, rank);
    forall k | 0 <= k < |p| && Walk(es, x, p[..k]).Ok? && Walk(es, x, p[..k]).value.Directory?
      ensures SameSlot(es, es', Walk(es, x, p[..k]).value.dir, p[k])
    {
      WalkDescends(es, x, p[..k]);
      DescendsRank(es, Walk(es, x, p[..k]).value.dir, x, rank);
    }
    SameWalk(es, es', x, p);
  }

  /** Source and destination of a legal move are never prefixes of one another. */
  lemma MoveIncomparable(sh: Shape, i: nat, fp: seq<string>, tp: seq<string>, name: string)
    requires RootedTree(sh)
    requires i < |sh.entries| && Walk(sh.entries, sh.root, fp) == Ok(Directory(sh.entries[i].parent))
    requires Walk(sh.entries, sh.root, tp).Ok? && Walk(sh.entries, sh.root, tp).value.Directory?
    requires CanMove(sh, i, Walk(sh.entries, sh.root, tp).value.dir, name)
    ensures !(fp + [sh.entries[i].name] <= tp) && !(tp + [name] <= fp)
    ensures !(fp + [sh.entries[i].name] <= tp + [name]) && !(tp + [name] <= fp + [sh.entries[i].name])
  {
    var es, root, from, to := sh.entries, sh.root, fp + [sh.entries[i].name], tp + [name];
    LookupIs(es, i);
    WalkSnoc(es, root, fp, es[i].name);
    WalkSnoc(es, root, tp, name);
    assert Walk(es, root, from) == Ok(es[i].target) && Walk(es, root, to) == Err(NotFound);
    if from <= tp {
      assert tp == from + tp[|from|..];
      WalkConcat(es, root, from, tp[|from|..]);
      if es[i].target.Directory? {
        WalkDescends(es, es[i].target.dir, tp[|from|..]);
      }
    }
    if to <= from {
      assert from == to + from[|to|..];
      WalkConcat(es, root, to, from[|to|..]);
    }
  }

  /** A move carries the whole subtree and nothing else. */
  lemma MovePaths(sh: Shape, i: nat, fp: seq<string>, tp: seq<string>, name: string, q: seq<string>)
    requires RootedTree(sh)
    requires i < |sh.entries| && Walk(sh.entries, sh.root, fp) == Ok(Directory(sh.entries[i].parent))
    requires Walk(sh.entries, sh.root, tp).Ok? && Walk(sh.entries, sh.root, tp).value.Directory?
    requires CanMove(sh, i, Walk(sh.entries, sh.root, tp).value.dir, name)
    ensures
      var from, to := fp + [sh.entries[i].name], tp + [name];
      Walk(Moved(sh, i, Walk(sh.entries, sh.root, tp).value.dir, name).entries, sh.root, q) ==
        if to <= q then Walk(sh.entries, sh.root, from + q[|to|..])
        else if from <= q then Err(NotFound)
        else Walk(sh.entries, sh.root, q)
  {
    var es, root, parent := sh.entries, sh.root, Walk(sh.entries, sh.root, tp).value.dir;
    var es' := Moved(sh, i, parent, name).entries;
    var from, to := fp + [es[i].name], tp + [name];
    MoveIncomparable(sh, i, fp, tp, name);
    if to <= q {
      assert q == to + q[|to|..];
      MovedArrives(sh, i, fp, tp, name, q[|to|..]);
    } else if from <= q {
      assert q == from + q[|from|..];
      MovedAway(sh, i, fp, tp, name, q[|from|..]);
    } else {
      MovedLookup(sh, i, parent, name);
      OtherPaths(sh, es', fp, es[i].name, tp, name, q);
    }
  }

  lemma MovedArrives(sh: Shape, i: nat, fp: seq<string>, tp: seq<string>, name: string, rest: seq<string>)
    requires RootedTree(sh)
    requires i < |sh.entries| && Walk(sh.entries, sh.root, fp) == Ok(Directory(sh.entries[i].parent))
    requires Walk(sh.entries, sh.root, tp).Ok? && Walk(sh.entries, sh.root, tp).value.Directory?
    requires CanMove(sh, i, Walk(sh.entries, sh.root, tp).value.dir, name)
    ensures Walk(Moved(sh, i, Walk(sh.entries, sh.root, tp).value.dir, name).entries, sh.root, tp + [name] + rest)
         == Walk(sh.entries, sh.root, fp + [sh.entries[i].name] + rest)
  {
    hide RootedTree, CanMove;
    var es, root, parent := sh.entries, sh.root, Walk(sh.entries, sh.root, tp).value.dir;
    var es' := Moved(sh, i, parent, name).entries;
    MovedLookup(sh, i, parent, name);
    MoveIncomparable(sh, i, fp, tp, name);
    OtherPaths(sh, es', fp, es[i].name, tp, name, tp);
    WalkSnoc(es', root, tp, name);
    WalkConcat(es', root, tp + [name], rest);
    EntryFound(sh, i);
    WalkSnoc(es, root, fp, es[i].name);
    WalkConcat(es, root, fp + [es[i].name], rest);
    if es[i].target.Directory? {
      CarriedWalk(sh, i, parent, name, rest);
    }
  }

  lemma EntryFound(sh: Shape, i: nat)
    requires RootedTree(sh) && i < |sh.entries|
    ensures Lookup(sh.entries, sh.entries[i].parent, sh.entries[i].name) == Some(sh.entries[i].target)
  {
    LookupIs(sh.entries, i);
  }

  lemma MovedAway(sh: Shape, i: nat, fp: seq<string>, tp: seq<string>, name: string, rest: seq<string>)
    requires RootedTree(sh)
    requires i < |sh.entries| && Walk(sh.entries, sh.root, fp) == Ok(Directory(sh.entries[i].parent))
    requires Walk(sh.entries, sh.root, tp).Ok? && Walk(sh.entries, sh.root, tp).value.Directory?
    requires CanMove(sh, i, Walk(sh.entries, sh.root, tp).value.dir, name)
    requires fp + [sh.entries[i].name] != tp + [name]
    ensures Walk(Moved(sh, i, Walk(sh.entries, sh.root, tp).value.dir, name).entries, sh.root,
      fp + [sh.entries[i].name] + rest)
         == Err(NotFound)
  {
    hide RootedTree, CanMove;
    var es, root, parent := sh.entries, sh.root, Walk(sh.entries, sh.root, tp).value.dir;
    var es' := Moved(sh, i, parent, name).entries;
    MovedLookup(sh, i, parent, name);
    MoveIncomparable(sh, i, fp, tp, name);
    OtherPaths(sh, es', fp, es[i].name, tp, name, fp);
    WalkSnoc(es', root, fp, es[i].name);
    WalkConcat(es', root, fp + [es[i].name], rest);
  }
}
