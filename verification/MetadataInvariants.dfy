/** What every committed edit keeps, and what it does to every path. */
module MetadataInvariants {
  import opened Domain
  import opened Paths
  import opened Tree
  import opened TreeEdits
  import opened Metadata

  // ---- the invariant -----------------------------------------------------------------------

  ghost predicate GoodNames(es: seq<Entry>) {
    forall i :: 0 <= i < |es| ==> ValidComponent(es[i].name)
  }

  ghost predicate GoodFile(f: FileMetadata) {
    && f.generation >= 1
    && match f.manifest
       case None => f.size == 0
       case Some(m) => |m.chunks| == 1 && m == Single(m.chunks[0].contentId, f.size)
  }

  ghost predicate GoodRecords(s: Snapshot) {
    && (forall d :: d in s.directories ==> s.directories[d].id == d && s.directories[d].generation >= 1)
    && (forall f :: f in s.files ==> s.files[f].id == f && GoodFile(s.files[f]))
  }

  /** Retention mirrors the live references exactly, beside whatever is pinned. */
  ghost predicate RetentionExact(s: Snapshot) {
    && s.retentions.Keys == s.placements.Keys
    && (forall f, c :: f in s.files && References(s.files[f], c) ==> c in s.retentions)
    && (forall c :: c in s.retentions && s.retentions[c] != Snapshotted ==>
      s.retentions[c] == if LiveReferenced(s.files, c) then LiveReference else GarbageCandidate)
  }

  /** The content is kept for a snapshot, whether or not a file refers to it. */
  predicate Pinned(rets: map<ContentId, Retention>, c: ContentId) {
    c in rets && rets[c] == Snapshotted
  }

  /** No operation of the program creates a pin. */
  ghost predicate NoPins(s: Snapshot) {
    forall c :: !Pinned(s.retentions, c)
  }

  ghost predicate DistinctNodes(rs: seq<Replica>) {
    forall i, j :: 0 <= i < j < |rs| ==> rs[i].nodeId != rs[j].nodeId
  }

  ghost predicate GoodPlacements(s: Snapshot) {
    forall c :: c in s.placements ==> s.placements[c].contentId == c && DistinctNodes(s.placements[c].replicas)
  }

  ghost predicate Valid(s: Snapshot) {
    && RootedTree(ShapeOf(s)) && GoodNames(s.entries) && GoodRecords(s)
    && RetentionExact(s) && NoPins(s) && GoodPlacements(s)
  }

  /** Freshly drawn identifiers do not occur in the snapshot. */
  ghost predicate Fresh(op: Op, s: Snapshot) {
    && (op.Mkdir? ==> op.newDir !in s.directories)
    && (op.Create? ==> op.newFile !in s.files)
  }

  lemma DefaultValid()
    ensures Valid(DEFAULT_SNAPSHOT)
  {
    assert Ranked(DEFAULT_SNAPSHOT.entries, d => 0);
  }

  // ---- which fields an edit may change -------------------------------------------------------

  /** Namespace edits only bump directory generations; everything else about content is untouched. */
  ghost predicate SameContent(s: Snapshot, s': Snapshot) {
    s'.revision == s.revision && s'.root == s.root && s'.placements == s.placements
  }

  lemma MkdirEffect(s: Snapshot, path: string, id: DirectoryId)
    requires EditMkdir(s, path, id).Ok?
    ensures
      var s', at := EditMkdir(s, path, id).value, Locate(s, path).value;
      && SameContent(s, s') && s'.files == s.files && s'.retentions == s.retentions
      && s'.entries == s.entries + [Entry(at.0, at.1, Directory(id))]
      && s'.directories == Touch(s.(directories := s.directories[id := DirectoryMetadata(id, 1)]), at.0).directories
  {
  }

  lemma CreateEffect(s: Snapshot, path: string, id: FileId)
    requires EditCreate(s, path, id).Ok?
    ensures
      var s', at := EditCreate(s, path, id).value, Locate(s, path).value;
      && SameContent(s, s') && s'.files == s.files[id := FileMetadata(id, 0, 1, None)] && s'.retentions == s.retentions
      && s'.entries == s.entries + [Entry(at.0, at.1, File(id))]
      && s'.directories == Touch(s, at.0).directories
  {
  }

  lemma RenameAtEffect(s: Snapshot, fd: DirectoryId, fn: string, td: DirectoryId, tn: string)
    requires RenameAt(s, fd, fn, td, tn).Ok?
    ensures
      var s' := RenameAt(s, fd, fn, td, tn).value;
      && SameContent(s, s') && s'.files == s.files && s'.retentions == s.retentions
      && s'.directories == (if td != fd then Touch(Touch(s, fd), td) else Touch(s, fd)).directories
  {
  }

  lemma RenameAtMoves(s: Snapshot, fd: DirectoryId, fn: string, td: DirectoryId, tn: string)
    requires RenameAt(s, fd, fn, td, tn).Ok? && fd in s.directories && td in s.directories
    ensures
      var s', i := RenameAt(s, fd, fn, td, tn).value, Position(s.entries, fd, fn);
      && i.Some? && CanMove(ShapeOf(s), i.value, td, tn)
      && ShapeOf(s') == Moved(ShapeOf(s), i.value, td, tn)
  {
  }

  lemma RenameEffect(s: Snapshot, from: string, to: string)
    requires EditRename(s, from, to).Ok?
    ensures
      var s', f, t := EditRename(s, from, to).value, Locate(s, from).value, Locate(s, to).value;
      && SameContent(s, s') && s'.files == s.files && s'.retentions == s.retentions
      && s'.directories == (if t.0 != f.0 then Touch(Touch(s, f.0), t.0) else Touch(s, f.0)).directories
  {
    var f, t := Locate(s, from).value, Locate(s, to).value;
    assert EditRename(s, from, to) == RenameAt(s, f.0, f.1, t.0, t.1);
    RenameAtEffect(s, f.0, f.1, t.0, t.1);
  }

  lemma RemoveEffect(s: Snapshot, path: string)
    requires EditRemove(s, path).Ok?
    ensures
      var s', at := EditRemove(s, path).value, Locate(s, path).value;
      var i := Position(s.entries, at.0, at.1);
      && i.Some? && SameContent(s, s')
      && s'.entries == s.entries[..i.value] + s.entries[i.value + 1..]
      && match s.entries[i.value].target
         case File(f) =>
           && s'.files == s.files - {f} && s'.directories == Touch(s, at.0).directories
           && s'.retentions == MarkGarbage(s'.files, s.retentions, if f in s.files then ChunkIds(s.files[f]) else [])
         case Directory(d) =>
           && s'.files == s.files && s'.retentions == s.retentions
           && s'.directories == Touch(s.(directories := s.directories - {d}), at.0).directories
           && forall j :: 0 <= j < |s.entries| ==> s.entries[j].parent != d
  {
  }

  // ---- shapes of the edits -----------------------------------------------------------------

  lemma LocateFacts(s: Snapshot, path: string)
    requires Locate(s, path).Ok?
    ensures Parse(path).Ok? && Parse(path).value != [] && ValidComponents(Parse(path).value)
    ensures
      var cs := Parse(path).value;
      && Walk(s.entries, s.root, cs[..|cs| - 1]) == Ok(Directory(Locate(s, path).value.0))
      && Locate(s, path).value.1 == cs[|cs| - 1]
      && cs == cs[..|cs| - 1] + [Locate(s, path).value.1]
  {
    RenderParse(path);
  }

  /** A directory reached by a walk exists. */
  lemma WalkKnown(s: Snapshot, cs: seq<string>)
    requires RootedTree(ShapeOf(s)) && Walk(s.entries, s.root, cs).Ok?
    ensures Known(ShapeOf(s), Walk(s.entries, s.root, cs).value)
  {
    if cs != [] {
      var i := LastStep(ShapeOf(s), cs);
    }
  }

  lemma AddShape(s: Snapshot, op: Op)
    requires Valid(s) && (op.Mkdir? || op.Create?) && Fresh(op, s) && Apply(op, s).Commit?
    ensures
      var at := Locate(s, op.path).value;
      var e := Entry(at.0, at.1, if op.Mkdir? then Directory(op.newDir) else File(op.newFile));
      && CanAdd(ShapeOf(s), e)
      && ShapeOf(Apply(op, s).next) == Added(ShapeOf(s), e)
      && ValidComponent(at.1)
  {
    hide Walk, Locate, Parse, RootedTree, ValidComponent;
    LocateFacts(s, op.path);
    var cs := Parse(op.path).value;
    WalkKnown(s, cs[..|cs| - 1]);
    if op.Mkdir? { MkdirEffect(s, op.path, op.newDir); } else { CreateEffect(s, op.path, op.newFile); }
  }

  lemma MoveShape(s: Snapshot, op: Op)
    requires Valid(s) && op.Rename? && Apply(op, s).Commit?
    ensures
      var f, t := Locate(s, op.from).value, Locate(s, op.to).value;
      var i := Position(s.entries, f.0, f.1);
      && i.Some? && CanMove(ShapeOf(s), i.value, t.0, t.1)
      && ShapeOf(Apply(op, s).next) == Moved(ShapeOf(s), i.value, t.0, t.1)
      && ValidComponent(t.1)
  {
    LocateFacts(s, op.from);
    LocateFacts(s, op.to);
    var f, t := Locate(s, op.from).value, Locate(s, op.to).value;
    WalkKnown(s, Parse(op.from).value[..|Parse(op.from).value| - 1]);
    WalkKnown(s, Parse(op.to).value[..|Parse(op.to).value| - 1]);
    assert EditRename(s, op.from, op.to) == RenameAt(s, f.0, f.1, t.0, t.1);
    RenameAtMoves(s, f.0, f.1, t.0, t.1);
  }

  lemma ParentIsNotTarget(s: Snapshot, i: nat)
    requires Acyclic(s.entries) && i < |s.entries|
    ensures s.entries[i].target != Directory(s.entries[i].parent)
  {
    var rank :| Ranked(s.entries, rank);
  }

  lemma DropShape(s: Snapshot, op: Op)
    requires Valid(s) && op.Remove? && Apply(op, s).Commit?
    ensures
      var at := Locate(s, op.path).value;
      var i := Position(s.entries, at.0, at.1);
      && i.Some? && CanDrop(ShapeOf(s), i.value)
      && ShapeOf(Apply(op, s).next) == Dropped(ShapeOf(s), i.value)
  {
    RemoveEffect(s, op.path);
    var at := Locate(s, op.path).value;
    ParentIsNotTarget(s, Position(s.entries, at.0, at.1).value);
  }

  lemma OtherShape(s: Snapshot, op: Op)
    requires Apply(op, s).Commit? && (op.Write? || op.Refresh? || op.Upsert? || op.Mark?)
    ensures ShapeOf(Apply(op, s).next) == ShapeOf(s)
    ensures Apply(op, s).next.directories == s.directories
  {
  }

  // ---- the tree ------------------------------------------------------------------------------

  /** Every committed edit keeps the rooted tree and the name grammar. */
  lemma KeepsTree(s: Snapshot, op: Op)
    requires Valid(s) && Fresh(op, s) && Apply(op, s).Commit?
    ensures RootedTree(ShapeOf(Apply(op, s).next)) && GoodNames(Apply(op, s).next.entries)
  {
    hide RootedTree, CanAdd, CanMove, CanDrop, Locate;
    match op {
      case Mkdir(path, id) =>
        AddShape(s, op);
        var at := Locate(s, path).value;
        AddKeepsTree(ShapeOf(s), Entry(at.0, at.1, Directory(id)));
      case Create(path, id) =>
        AddShape(s, op);
        var at := Locate(s, path).value;
        AddKeepsTree(ShapeOf(s), Entry(at.0, at.1, File(id)));
      case Rename(from, to) =>
        MoveShape(s, op);
        var f, t := Locate(s, from).value, Locate(s, to).value;
        MoveKeepsTree(ShapeOf(s), Position(s.entries, f.0, f.1).value, t.0, t.1);
      case Remove(path) =>
        DropShape(s, op);
        var at := Locate(s, path).value;
        DropKeepsTree(ShapeOf(s), Position(s.entries, at.0, at.1).value);
      case Write(_, _, _, _, _, _) => OtherShape(s, op);
      case Refresh(_, _) => OtherShape(s, op);
      case Upsert(_, _, _) => OtherShape(s, op);
      case Mark(_, _, _) => OtherShape(s, op);
    }
  }

  /** A successful rename moves the whole subtree and nothing else. */
  lemma RenameMovesSubtree(s: Snapshot, from: string, to: string, q: seq<string>)
    requires Valid(s) && EditRename(s, from, to).Ok?
    ensures Parse(from).Ok? && Parse(to).Ok?
    ensures
      var f, t, s' := Parse(from).value, Parse(to).value, EditRename(s, from, to).value;
      Walk(s'.entries, s'.root, q) ==
        if t <= q then Walk(s.entries, s.root, f + q[|t|..])
        else if f <= q then Err(NotFound)
        else Walk(s.entries, s.root, q)
  {
    var op := Rename(from, to);
    assert Apply(op, s).Commit?;
    MoveShape(s, op);
    LocateFacts(s, from);
    LocateFacts(s, to);
    var f, t := Parse(from).value, Parse(to).value;
    var l := Locate(s, from).value;
    MovePaths(ShapeOf(s), Position(s.entries, l.0, l.1).value, f[..|f| - 1], t[..|t| - 1], t[|t| - 1], q);
  }

  /** A created object appears at its path, alone, and no other path notices. */
  lemma CreateAddsPath(s: Snapshot, op: Op, q: seq<string>)
    requires Valid(s) && (op.Mkdir? || op.Create?) && Fresh(op, s) && Apply(op, s).Commit?
    ensures Parse(op.path).Ok?
    ensures
      var p, s' := Parse(op.path).value, Apply(op, s).next;
      Walk(s'.entries, s'.root, q) ==
        if q == p then Ok(if op.Mkdir? then Directory(op.newDir) else File(op.newFile))
        else if p <= q then Err(if op.Mkdir? then NotFound else NotDirectory)
        else Walk(s.entries, s.root, q)
  {
    AddShape(s, op);
    LocateFacts(s, op.path);
    var p, at := Parse(op.path).value, Locate(s, op.path).value;
    var e := Entry(at.0, at.1, if op.Mkdir? then Directory(op.newDir) else File(op.newFile));
    AddPaths(ShapeOf(s), e, p[..|p| - 1], q);
  }

  /** Removal takes exactly its own path away. */
  lemma RemoveDropsPath(s: Snapshot, path: string, q: seq<string>)
    requires Valid(s) && EditRemove(s, path).Ok?
    ensures Parse(path).Ok?
    ensures
      var p, s' := Parse(path).value, EditRemove(s, path).value;
      Walk(s'.entries, s'.root, q) == if p <= q then Err(NotFound) else Walk(s.entries, s.root, q)
  {
    var op := Remove(path);
    assert Apply(op, s).Commit?;
    DropShape(s, op);
    LocateFacts(s, path);
    var p, at := Parse(path).value, Locate(s, path).value;
    DropPaths(ShapeOf(s), Position(s.entries, at.0, at.1).value, p[..|p| - 1], q);
  }

  /** Every file and directory has exactly one absolute path string. */
  lemma OnePathString(s: Snapshot, t: Target) returns (path: string)
    requires Valid(s) && Known(ShapeOf(s), t)
    ensures Resolve(s, path) == Ok(t)
    ensures forall other :: Resolve(s, other) == Ok(t) ==> other == path
  {
    var p := PathExists(ShapeOf(s), t);
    path := Render(p);
    ParseRender(p);
    forall other | Resolve(s, other) == Ok(t) ensures other == path {
      RenderParse(other);
      PathUnique(ShapeOf(s), p, Parse(other).value);
    }
  }

  // ---- directory generations -------------------------------------------------------------------

  ghost function Children(es: seq<Entry>, d: DirectoryId): set<(string, Target)> {
    set i | 0 <= i < |es| && es[i].parent == d :: (es[i].name, es[i].target)
  }

  ghost predicate GenerationFollows(s: Snapshot, s': Snapshot, d: DirectoryId)
    requires d in s.directories && d in s'.directories
  {
    s'.directories[d].generation ==
      s.directories[d].generation + if Children(s'.entries, d) != Children(s.entries, d) then 1 else 0
  }

  lemma ChildrenByLookup(es: seq<Entry>, d: DirectoryId, name: string, t: Target)
    requires UniqueNames(es)
    ensures (name, t) in Children(es, d) <==> Lookup(es, d, name) == Some(t)
  {
    if (name, t) in Children(es, d) {
      var i :| 0 <= i < |es| && es[i].parent == d && (es[i].name, es[i].target) == (name, t);
      LookupIs(es, i);
    }
  }

  lemma ChildrenAgree(es: seq<Entry>, es': seq<Entry>, d: DirectoryId)
    requires UniqueNames(es) && UniqueNames(es')
    requires forall name :: SameSlot(es, es', d, name)
    ensures Children(es', d) == Children(es, d)
  {
    forall name, t ensures (name, t) in Children(es, d) <==> (name, t) in Children(es', d) {
      assert SameSlot(es, es', d, name);
      ChildrenByLookup(es, d, name, t);
      ChildrenByLookup(es', d, name, t);
    }
  }

  lemma ChildrenDiffer(es: seq<Entry>, es': seq<Entry>, d: DirectoryId, name: string)
    requires UniqueNames(es) && UniqueNames(es') && !SameSlot(es, es', d, name)
    ensures Children(es', d) != Children(es, d)
  {
    var was, now := Lookup(es, d, name), Lookup(es', d, name);
    var t := if was.Some? then was.value else now.value;
    ChildrenByLookup(es, d, name, t);
    ChildrenByLookup(es', d, name, t);
  }

  /** One slot of directory `p` changed; every listing but that of `p` is as before. */
  lemma OneSlotListing(es: seq<Entry>, es': seq<Entry>, p: DirectoryId, name: string, d: DirectoryId)
    requires UniqueNames(es) && UniqueNames(es')
    requires AgreeExcept(es, es', p, name, p, name) && !SameSlot(es, es', p, name)
    ensures Children(es', d) != Children(es, d) <==> d == p
  {
    if d == p { ChildrenDiffer(es, es', d, name); } else { ChildrenAgree(es, es', d); }
  }

  lemma AddGeneration(s: Snapshot, op: Op, d: DirectoryId)
    requires Valid(s) && (op.Mkdir? || op.Create?) && Fresh(op, s) && Apply(op, s).Commit? && d in s.directories
    ensures d in Apply(op, s).next.directories && GenerationFollows(s, Apply(op, s).next, d)
  {
    KeepsTree(s, op);
    AddShape(s, op);
    var at := Locate(s, op.path).value;
    AddedLookup(ShapeOf(s), Entry(at.0, at.1, if op.Mkdir? then Directory(op.newDir) else File(op.newFile)));
    OneSlotListing(s.entries, Apply(op, s).next.entries, at.0, at.1, d);
    if op.Mkdir? { MkdirEffect(s, op.path, op.newDir); } else { CreateEffect(s, op.path, op.newFile); }
  }

  lemma RemoveGeneration(s: Snapshot, path: string, d: DirectoryId)
    requires Valid(s) && Apply(Remove(path), s).Commit?
    requires d in s.directories && d in Apply(Remove(path), s).next.directories
    ensures GenerationFollows(s, Apply(Remove(path), s).next, d)
  {
    var op := Remove(path);
    KeepsTree(s, op);
    DropShape(s, op);
    var at := Locate(s, path).value;
    var i := Position(s.entries, at.0, at.1).value;
    DroppedLookup(ShapeOf(s), i);
    LookupIs(s.entries, i);
    OneSlotListing(s.entries, Apply(op, s).next.entries, at.0, at.1, d);
    RemoveEffect(s, path);
  }

  /** A move changes exactly the listings of its two parents. */
  lemma MoveListing(sh: Shape, i: nat, parent: DirectoryId, name: string, d: DirectoryId)
    requires RootedTree(sh) && CanMove(sh, i, parent, name)
    ensures Children(Moved(sh, i, parent, name).entries, d) != Children(sh.entries, d) <==>
      d == sh.entries[i].parent || d == parent
  {
    var es, es' := sh.entries, Moved(sh, i, parent, name).entries;
    MoveKeepsTree(sh, i, parent, name);
    MovedLookup(sh, i, parent, name);
    LookupIs(es, i);
    assert UniqueNames(es) && UniqueNames(es') && Lookup(es, parent, name).None?;
    hide RootedTree, CanMove, Children;
    if d == parent {
      ChildrenDiffer(es, es', d, name);
    } else if d == es[i].parent {
      ChildrenDiffer(es, es', d, es[i].name);
    } else {
      ChildrenAgree(es, es', d);
    }
  }

  lemma RenameGeneration(s: Snapshot, from: string, to: string, d: DirectoryId)
    requires Valid(s) && Apply(Rename(from, to), s).Commit? && d in s.directories
    ensures d in Apply(Rename(from, to), s).next.directories
    ensures GenerationFollows(s, Apply(Rename(from, to), s).next, d)
  {
    hide RootedTree, CanMove, Children, Locate, RenameAt;
    var op := Rename(from, to);
    MoveShape(s, op);
    var f, t := Locate(s, from).value, Locate(s, to).value;
    MoveListing(ShapeOf(s), Position(s.entries, f.0, f.1).value, t.0, t.1, d);
    RenameEffect(s, from, to);
  }

  /** A directory's generation rises by one exactly when its listing changes. */
  lemma GenerationTracksListing(s: Snapshot, op: Op, d: DirectoryId)
    requires Valid(s) && Fresh(op, s) && Apply(op, s).Commit?
    requires d in s.directories && d in Apply(op, s).next.directories
    ensures GenerationFollows(s, Apply(op, s).next, d)
  {
    if op.Mkdir? || op.Create? {
      AddGeneration(s, op, d);
    } else if op.Rename? {
      RenameGeneration(s, op.from, op.to, d);
    } else if op.Remove? {
      RemoveGeneration(s, op.path, d);
    } else {
      OtherShape(s, op);
    }
  }

  // ---- records, retention and placements ---------------------------------------------------------

  /** Of the listed contents, exactly the unreferenced and unpinned become garbage candidates. */
  lemma {:induction false} MarkGarbageMeans(
      files: map<FileId, FileMetadata>, rets: map<ContentId, Retention>, ids: seq<ContentId>, c: ContentId)
    ensures
      var r := MarkGarbage(files, rets, ids);
      var marked := c in ids && !LiveReferenced(files, c) && !Pinned(rets, c);
      && (c in r <==> c in rets || marked)
      && (c in r ==> r[c] == if marked then GarbageCandidate else rets[c])
    decreases |ids|
  {
    if ids != [] {
      var x := ids[0];
      var next := if !LiveReferenced(files, x) && !(x in rets && rets[x] == Snapshotted)
                  then rets[x := GarbageCandidate] else rets;
      MarkGarbageMeans(files, next, ids[1..], c);
      assert ids == [x] + ids[1..];
    }
  }

  lemma TouchKeepsRecords(s: Snapshot, d: DirectoryId)
    requires GoodRecords(s)
    ensures GoodRecords(Touch(s, d))
  {
  }

  lemma KeepsRecords(s: Snapshot, op: Op)
    requires GoodRecords(s) && Apply(op, s).Commit?
    ensures GoodRecords(Apply(op, s).next)
  {
    match op {
      case Mkdir(path, id) =>
        MkdirEffect(s, path, id);
        TouchKeepsRecords(s.(directories := s.directories[id := DirectoryMetadata(id, 1)]), Locate(s, path).value.0);
      case Create(path, id) =>
        CreateEffect(s, path, id);
        TouchKeepsRecords(s, Locate(s, path).value.0);
      case Rename(from, to) =>
        RenameEffect(s, from, to);
        TouchKeepsRecords(s, Locate(s, from).value.0);
        TouchKeepsRecords(Touch(s, Locate(s, from).value.0), Locate(s, to).value.0);
      case Remove(path) =>
        RemoveEffect(s, path);
        RemoveKeepsRecords(s, path);
      case Write(_, _, _, _, _, _) =>
      case Refresh(_, _) =>
      case Upsert(_, _, _) =>
      case Mark(_, _, _) =>
    }
  }

  lemma RemoveKeepsRecords(s: Snapshot, path: string)
    requires GoodRecords(s) && EditRemove(s, path).Ok?
    ensures GoodRecords(EditRemove(s, path).value)
  {
    RemoveEffect(s, path);
    var at := Locate(s, path).value;
    var target := s.entries[Position(s.entries, at.0, at.1).value].target;
    TouchKeepsRecords(s, at.0);
    if target.Directory? {
      TouchKeepsRecords(s.(directories := s.directories - {target.dir}), at.0);
    }
  }

  lemma RemoveKeepsRetention(s: Snapshot, path: string)
    requires RetentionExact(s) && Connected(ShapeOf(s)) && EditRemove(s, path).Ok?
    ensures RetentionExact(EditRemove(s, path).value)
  {
    RemoveEffect(s, path);
    var s' := EditRemove(s, path).value;
    var at := Locate(s, path).value;
    var target := s.entries[Position(s.entries, at.0, at.1).value].target;
    if target.File? {
      var f := target.file;
      assert s'.files == s.files - {f};
      var ids := ChunkIds(s.files[f]);
      assert s'.retentions == MarkGarbage(s'.files, s.retentions, ids);
      forall c ensures c in s'.retentions <==> c in s.retentions
        ensures c in s.retentions && s'.retentions[c] != Snapshotted ==>
          s'.retentions[c] == if LiveReferenced(s'.files, c) then LiveReference else GarbageCandidate
      {
        MarkGarbageMeans(s'.files, s.retentions, ids, c);
        assert c in ids <==> References(s.files[f], c);
        if LiveReferenced(s.files, c) && c !in ids {
          var g :| g in s.files && References(s.files[g], c);
          assert g in s'.files;
        }
      }
    }
  }

  lemma WriteKeepsRetention(s: Snapshot, op: Op)
    requires RetentionExact(s) && op.Write? && EditWrite(s, op).Ok?
    ensures RetentionExact(EditWrite(s, op).value)
  {
    var s' := EditWrite(s, op).value;
    var was := s.files[op.file];
    var rets := s.retentions[op.content := LiveReference];
    var ids := ChunkIds(was);
    var now := s'.files[op.file];
    assert s'.retentions == MarkGarbage(s'.files, rets, ids);
    assert forall c :: References(now, c) <==> c == op.content by {
      assert now.manifest.value.chunks[0].contentId == op.content;
    }
    forall c ensures c in s'.retentions <==> c in rets
      ensures c in rets && s'.retentions[c] != Snapshotted ==>
        s'.retentions[c] == if LiveReferenced(s'.files, c) then LiveReference else GarbageCandidate
    {
      MarkGarbageMeans(s'.files, rets, ids, c);
      assert c in ids <==> References(was, c);
      if c == op.content { assert References(s'.files[op.file], c); }
      if LiveReferenced(s.files, c) && c !in ids {
        var g :| g in s.files && References(s.files[g], c);
        assert g != op.file && References(s'.files[g], c);
      }
    }
    forall f, c | f in s'.files && References(s'.files[f], c) ensures c in s'.retentions { }
  }

  lemma CreateKeepsRetention(s: Snapshot, path: string, id: FileId)
    requires RetentionExact(s) && EditCreate(s, path, id).Ok? && id !in s.files
    ensures RetentionExact(EditCreate(s, path, id).value)
  {
    CreateEffect(s, path, id);
    var files := EditCreate(s, path, id).value.files;
    forall c ensures LiveReferenced(files, c) <==> LiveReferenced(s.files, c) {
      if LiveReferenced(s.files, c) {
        var g :| g in s.files && References(s.files[g], c);
        assert References(files[g], c);
      }
    }
  }

  lemma KeepsRetention(s: Snapshot, op: Op)
    requires RetentionExact(s) && Connected(ShapeOf(s)) && Fresh(op, s) && Apply(op, s).Commit?
    ensures RetentionExact(Apply(op, s).next)
  {
    match op {
      case Mkdir(path, id) => MkdirEffect(s, path, id);
      case Create(path, id) => CreateKeepsRetention(s, path, id);
      case Rename(from, to) => RenameEffect(s, from, to);
      case Remove(path) => RemoveKeepsRetention(s, path);
      case Write(_, _, _, _, _, _) => WriteKeepsRetention(s, op);
      case Refresh(_, _) =>
      case Upsert(_, _, _) =>
      case Mark(_, _, _) =>
    }
  }

  ghost predicate Overwrites(op: Op, c: ContentId) {
    op.Write? && op.content == c
  }

  lemma WriteAfter(s: Snapshot, op: Op, c: ContentId)
    requires op.Write? && EditWrite(s, op).Ok?
    ensures
      var s' := EditWrite(s, op).value;
      && (c == op.content ==> c in s'.retentions && s'.retentions[c] == LiveReference)
      && (c != op.content ==> (Pinned(s'.retentions, c) <==> Pinned(s.retentions, c)))
  {
    var s' := EditWrite(s, op).value;
    MarkGarbageMeans(s'.files, s.retentions[op.content := LiveReference], ChunkIds(s.files[op.file]), c);
    if c == op.content {
      assert s'.files[op.file].manifest.value.chunks[0].contentId == c;
      assert References(s'.files[op.file], c);
    }
  }

  lemma RemoveAfter(s: Snapshot, path: string, c: ContentId)
    requires EditRemove(s, path).Ok?
    ensures Pinned(EditRemove(s, path).value.retentions, c) <==> Pinned(s.retentions, c)
  {
    RemoveEffect(s, path);
    var s' := EditRemove(s, path).value;
    var at := Locate(s, path).value;
    var target := s.entries[Position(s.entries, at.0, at.1).value].target;
    if target.File? {
      var ids := if target.file in s.files then ChunkIds(s.files[target.file]) else [];
      MarkGarbageMeans(s'.files, s.retentions, ids, c);
    }
  }

  /** A pin survives an edit exactly if the edit is not a write of that very content, and no edit
      creates one. */
  lemma PinsAfter(s: Snapshot, op: Op, c: ContentId)
    requires Apply(op, s).Commit?
    ensures Pinned(Apply(op, s).next.retentions, c) <==> Pinned(s.retentions, c) && !Overwrites(op, c)
  {
    hide EditWrite, EditRemove;
    match op {
      case Mkdir(path, id) => MkdirEffect(s, path, id);
      case Create(path, id) => CreateEffect(s, path, id);
      case Rename(from, to) => RenameEffect(s, from, to);
      case Remove(path) => RemoveAfter(s, path, c);
      case Write(_, _, _, _, _, _) => WriteAfter(s, op, c);
      case Refresh(_, _) =>
      case Upsert(_, _, _) =>
      case Mark(_, _, _) =>
    }
  }

  lemma UpsertDistinct(rs: seq<Replica>, node: DeviceId, state: ReplicaState)
    requires DistinctNodes(rs)
    ensures DistinctNodes(UpsertState(rs, node, state))
  {
  }

  /** Fields that no edit rewrites, and the placements of the namespace edits. */
  lemma Frame(s: Snapshot, op: Op)
    requires Apply(op, s).Commit?
    ensures Apply(op, s).next.revision == s.revision && Apply(op, s).next.root == s.root
    ensures op.Mkdir? || op.Create? || op.Rename? || op.Remove? ==> Apply(op, s).next.placements == s.placements
  {
    match op {
      case Mkdir(path, id) => MkdirEffect(s, path, id);
      case Create(path, id) => CreateEffect(s, path, id);
      case Rename(from, to) => RenameEffect(s, from, to);
      case Remove(path) => RemoveEffect(s, path);
      case Write(_, _, _, _, _, _) =>
      case Refresh(_, _) =>
      case Upsert(_, _, _) =>
      case Mark(_, _, _) =>
    }
  }

  lemma KeepsPlacements(s: Snapshot, op: Op)
    requires GoodPlacements(s) && Apply(op, s).Commit?
    ensures GoodPlacements(Apply(op, s).next)
  {
    Frame(s, op);
    match op {
      case Write(_, c, _, _, node, _) =>
        UpsertDistinct(if c in s.placements then s.placements[c].replicas else [], node, Healthy);
      case Upsert(c, node, state) => UpsertDistinct(s.placements[c].replicas, node, state);
      case Mkdir(_, _) =>
      case Create(_, _) =>
      case Rename(_, _) =>
      case Remove(_) =>
      case Refresh(_, _) =>
      case Mark(_, _, _) =>
    }
  }

  /** Every committed edit with fresh identifiers keeps the whole invariant, and never touches the revision. */
  lemma KeepsValid(s: Snapshot, op: Op)
    requires Valid(s) && Fresh(op, s) && Apply(op, s).Commit?
    ensures Valid(Apply(op, s).next)
    ensures Apply(op, s).next.revision == s.revision && Apply(op, s).next.root == s.root
  {
    KeepsTree(s, op);
    KeepsRecords(s, op);
    KeepsRetention(s, op);
    forall c ensures !Pinned(Apply(op, s).next.retentions, c) { PinsAfter(s, op, c); }
    KeepsPlacements(s, op);
    Frame(s, op);
  }

  /** Bumping the revision, as the store does on a swap, keeps the invariant. */
  lemma RevisionIsFree(s: Snapshot, revision: nat)
    requires Valid(s)
    ensures Valid(s.(revision := revision))
  {
    assert ShapeOf(s.(revision := revision)) == ShapeOf(s);
  }

  /** Retention says exactly whether some file references a content; a retained one has a placement. */
  lemma RetainedMeansLive(s: Snapshot, c: ContentId)
    requires Valid(s)
    ensures Retained(s, c) <==> LiveReferenced(s.files, c)
    ensures c in s.retentions ==>
      s.retentions[c] == if LiveReferenced(s.files, c) then LiveReference else GarbageCandidate
    ensures Retained(s, c) ==> c in s.placements
  {
    assert !Pinned(s.retentions, c);
    if LiveReferenced(s.files, c) {
      var f :| f in s.files && References(s.files[f], c);
      assert c in s.retentions;
    }
  }
}
