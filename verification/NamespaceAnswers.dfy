/** What the namespace operations answer, told from paths alone: which target, if any, each path leads
    to before the call. */
module NamespaceAnswers {
  import opened Domain
  import opened Paths
  import opened Tree
  import opened Metadata
  import opened MetadataInvariants

  /** What a component path leads to. */
  function At(s: Snapshot, p: seq<string>): Result<Target> {
    Walk(s.entries, s.root, p)
  }

  function Parent(p: seq<string>): seq<string>
    requires p != []
  {
    p[..|p| - 1]
  }

  ghost predicate HasChild(s: Snapshot, p: seq<string>) {
    exists name :: At(s, p + [name]).Ok?
  }

  /** The place where an entry would be is not in a directory. */
  function ParentProblem(s: Snapshot, p: seq<string>): Option<FsError>
    requires p != []
  {
    match At(s, Parent(p))
    case Err(e) => Some(e)
    case Ok(File(_)) => Some(NotDirectory)
    case Ok(Directory(_)) => None
  }

  /** Why mkdir or create must fail, if it must. */
  function AddProblem(s: Snapshot, path: string): Option<FsError> {
    if Parse(path).Err? || Parse(path).value == [] then Some(InvalidPath)
    else
      var p := Parse(path).value;
      if ParentProblem(s, p).Some? then ParentProblem(s, p)
      else if At(s, p).Ok? then Some(AlreadyExists)
      else None
  }

  /** Why remove must fail, if it must. */
  ghost function RemoveProblem(s: Snapshot, path: string): Option<FsError> {
    if Parse(path).Err? || Parse(path).value == [] then Some(InvalidPath)
    else
      var p := Parse(path).value;
      if ParentProblem(s, p).Some? then ParentProblem(s, p)
      else if At(s, p).Err? then Some(NotFound)
      else if At(s, p).value.Directory? && HasChild(s, p) then Some(DirectoryNotEmpty)
      else None
  }

  /** Why rename must fail, if it must: among others because a directory would move below itself. */
  function RenameProblem(s: Snapshot, from: string, to: string): Option<FsError> {
    if Parse(from).Err? || Parse(to).Err? || Parse(from).value == [] || Parse(to).value == [] then Some(InvalidPath)
    else
      var f, t := Parse(from).value, Parse(to).value;
      if ParentProblem(s, f).Some? then ParentProblem(s, f)
      else if ParentProblem(s, t).Some? then ParentProblem(s, t)
      else if At(s, t).Ok? then Some(AlreadyExists)
      else if At(s, f).Err? then Some(NotFound)
      else if At(s, f).value.Directory? && f <= Parent(t) then Some(InvalidPath)
      else None
  }

  // ---- places --------------------------------------------------------------------------------------

  lemma LocateAnswer(s: Snapshot, path: string)
    requires Parse(path).Ok? && Parse(path).value != []
    ensures
      var p := Parse(path).value;
      match Locate(s, path)
      case Err(e) => ParentProblem(s, p) == Some(e)
      case Ok((d, name)) =>
        && ParentProblem(s, p).None? && At(s, Parent(p)) == Ok(Directory(d)) && name == p[|p| - 1]
        && At(s, p) == (match Lookup(s.entries, d, name) case None => Err(NotFound) case Some(t) => Ok(t))
  {
    var p := Parse(path).value;
    assert p == Parent(p) + [p[|p| - 1]];
    WalkSnoc(s.entries, s.root, Parent(p), p[|p| - 1]);
  }

  lemma NoPlace(s: Snapshot, path: string)
    requires Parse(path).Err? || Parse(path).value == []
    ensures Locate(s, path) == Err(InvalidPath)
  {
  }

  // ---- mkdir and create ------------------------------------------------------------------------------

  /** mkdir succeeds exactly if its path is free in an existing directory, with the exact error
      otherwise; it adds one empty directory of generation 1 and no other object. */
  lemma MkdirAnswer(s: Snapshot, path: string, id: DirectoryId)
    ensures
      match EditMkdir(s, path, id)
      case Err(e) => AddProblem(s, path) == Some(e)
      case Ok(s') =>
        && AddProblem(s, path).None? && s'.directories.Keys == s.directories.Keys + {id}
        && (id !in s.directories && RootedTree(ShapeOf(s)) ==> s'.directories[id] == DirectoryMetadata(id, 1))
        && s'.files == s.files && s'.placements == s.placements && s'.retentions == s.retentions
  {
    if Parse(path).Err? || Parse(path).value == [] {
      NoPlace(s, path);
    } else {
      LocateAnswer(s, path);
      if RootedTree(ShapeOf(s)) && At(s, Parent(Parse(path).value)).Ok? {
        WalkKnown(s, Parent(Parse(path).value));
      }
    }
  }

  /** create likewise: one empty file of generation 1 without content. */
  lemma CreateAnswer(s: Snapshot, path: string, id: FileId)
    ensures
      match EditCreate(s, path, id)
      case Err(e) => AddProblem(s, path) == Some(e)
      case Ok(s') =>
        && AddProblem(s, path).None? && s'.files == s.files[id := FileMetadata(id, 0, 1, None)]
        && s'.directories.Keys == s.directories.Keys
        && s'.placements == s.placements && s'.retentions == s.retentions
  {
    if Parse(path).Err? || Parse(path).value == [] {
      NoPlace(s, path);
    } else {
      LocateAnswer(s, path);
    }
  }

  // ---- remove ---------------------------------------------------------------------------------------

  lemma ChildMeans(s: Snapshot, p: seq<string>, d: DirectoryId)
    requires UniqueNames(s.entries) && At(s, p) == Ok(Directory(d))
    ensures HasChild(s, p) <==> exists j :: 0 <= j < |s.entries| && s.entries[j].parent == d
  {
    forall j | 0 <= j < |s.entries| && s.entries[j].parent == d ensures HasChild(s, p) {
      WalkSnoc(s.entries, s.root, p, s.entries[j].name);
      LookupIs(s.entries, j);
    }
    if HasChild(s, p) {
      var name :| At(s, p + [name]).Ok?;
      WalkSnoc(s.entries, s.root, p, name);
    }
  }

  /** remove succeeds exactly on a file or an empty directory other than the root, with the exact error
      otherwise; that one object goes and no other. */
  lemma RemoveAnswer(s: Snapshot, path: string)
    requires Valid(s)
    ensures
      match EditRemove(s, path)
      case Err(e) => RemoveProblem(s, path) == Some(e)
      case Ok(s') =>
        && RemoveProblem(s, path).None? && s'.placements == s.placements
        && (match At(s, Parse(path).value).value
            case File(f) => s'.files == s.files - {f} && s'.directories.Keys == s.directories.Keys
            case Directory(d) =>
              && s'.files == s.files && s'.directories.Keys == s.directories.Keys - {d}
              && s'.retentions == s.retentions)
  {
    if Parse(path).Err? || Parse(path).value == [] {
      NoPlace(s, path);
    } else {
      LocateAnswer(s, path);
      var p := Parse(path).value;
      if At(s, p).Ok? && At(s, p).value.Directory? {
        ChildMeans(s, p, At(s, p).value.dir);
      }
      hide Valid, Walk, Parse;
      if EditRemove(s, path).Ok? {
        RemoveEffect(s, path);
        DirectoriesTouched(s, path);
      }
    }
  }

  lemma DirectoriesTouched(s: Snapshot, path: string)
    requires Locate(s, path).Ok? && EditRemove(s, path).Ok?
    ensures
      var at := Locate(s, path).value;
      && Position(s.entries, at.0, at.1).Some?
      && match s.entries[Position(s.entries, at.0, at.1).value].target
         case File(_) => EditRemove(s, path).value.directories.Keys == s.directories.Keys
         case Directory(d) => EditRemove(s, path).value.directories.Keys == s.directories.Keys - {d}
  {
    hide Locate;
    RemoveEffect(s, path);
  }

  // ---- rename ---------------------------------------------------------------------------------------

  /** Climbing is walking back. */
  lemma {:induction false} ClimbIsWalk(es: seq<Entry>, d: DirectoryId, a: DirectoryId, n: nat) returns (q: seq<string>)
    requires UniqueNames(es) && Climbs(es, d, a, n)
    ensures Walk(es, a, q) == Ok(Directory(d))
    decreases n
  {
    if n == 0 {
      q := [];
    } else {
      var up := ParentOf(es, d).value;
      var init := ClimbIsWalk(es, up, a, n - 1);
      var i :| 0 <= i < |es| && es[i].target == Directory(d) && es[i].parent == up;
      q := init + [es[i].name];
      WalkSnoc(es, a, init, es[i].name);
      LookupIs(es, i);
    }
  }

  /** One directory lies below another, or is it, exactly if its path extends the other's. */
  lemma BelowMeans(sh: Shape, f: seq<string>, p: seq<string>, a: DirectoryId, d: DirectoryId)
    requires RootedTree(sh)
    requires Walk(sh.entries, sh.root, f) == Ok(Directory(a)) && Walk(sh.entries, sh.root, p) == Ok(Directory(d))
    ensures Descends(sh.entries, d, a) <==> f <= p
  {
    if f <= p {
      assert p == f + p[|f|..];
      WalkConcat(sh.entries, sh.root, f, p[|f|..]);
      WalkDescends(sh.entries, a, p[|f|..]);
    }
    if Descends(sh.entries, d, a) {
      var n: nat :| Climbs(sh.entries, d, a, n);
      var q := ClimbIsWalk(sh.entries, d, a, n);
      WalkConcat(sh.entries, sh.root, f, q);
      PathUnique(sh, p, f + q);
    }
  }

  /** The answer once both places are known. */
  lemma RenameAtAnswer(s: Snapshot, fd: DirectoryId, fn: string, td: DirectoryId, tn: string)
    ensures
      var target := Lookup(s.entries, fd, fn);
      match RenameAt(s, fd, fn, td, tn)
      case Err(AlreadyExists) => Lookup(s.entries, td, tn).Some?
      case Err(NotFound) => Lookup(s.entries, td, tn).None? && target.None?
      case Err(InvalidPath) =>
        && Lookup(s.entries, td, tn).None? && target.Some? && target.value.Directory?
        && Descends(s.entries, td, target.value.dir)
      case Err(_) => false
      case Ok(_) =>
        && Lookup(s.entries, td, tn).None? && target.Some?
        && !(target.value.Directory? && Descends(s.entries, td, target.value.dir))
  {
    hide Descends;
  }

  lemma RenameParts(s: Snapshot, from: string, to: string)
    requires Parse(from).Ok? && Parse(to).Ok? && Parse(from).value != [] && Parse(to).value != []
    ensures EditRename(s, from, to) ==
      if Locate(s, from).Err? then Err(Locate(s, from).error)
      else if Locate(s, to).Err? then Err(Locate(s, to).error)
      else RenameAt(s, Locate(s, from).value.0, Locate(s, from).value.1, Locate(s, to).value.0, Locate(s, to).value.1)
  {
    hide RenameAt, Locate, Parse;
  }

  lemma RenameError(s: Snapshot, from: string, to: string)
    requires RootedTree(ShapeOf(s))
    ensures EditRename(s, from, to).Err? <==> RenameProblem(s, from, to).Some?
    ensures EditRename(s, from, to).Err? ==> RenameProblem(s, from, to) == Some(EditRename(s, from, to).error)
  {
    hide RootedTree, Walk, Parse, Locate, Descends, RenameAt;
    if !(Parse(from).Err? || Parse(to).Err? || Parse(from).value == [] || Parse(to).value == []) {
      LocateAnswer(s, from);
      LocateAnswer(s, to);
      RenameParts(s, from, to);
      hide EditRename;
      var f, t := Parse(from).value, Parse(to).value;
      if ParentProblem(s, f).None? && ParentProblem(s, t).None? {
        var a, b := Locate(s, from).value, Locate(s, to).value;
        RenameAtAnswer(s, a.0, a.1, b.0, b.1);
        if At(s, f).Ok? && At(s, f).value.Directory? {
          BelowMeans(ShapeOf(s), f, Parent(t), At(s, f).value.dir, b.0);
        }
      }
    }
  }

  /** rename succeeds exactly if the source exists, the destination is free in an existing directory,
      and no directory would move below itself, with the exact error otherwise; it leaves every
      object's own record alone but for the generations of the two parents. */
  lemma RenameAnswer(s: Snapshot, from: string, to: string)
    requires Valid(s)
    ensures
      match EditRename(s, from, to)
      case Err(e) => RenameProblem(s, from, to) == Some(e)
      case Ok(s') =>
        && RenameProblem(s, from, to).None? && s'.directories.Keys == s.directories.Keys
        && s'.files == s.files && s'.placements == s.placements && s'.retentions == s.retentions
  {
    hide EditRename, RootedTree, RenameProblem;
    RenameError(s, from, to);
    if EditRename(s, from, to).Ok? {
      RenameEffect(s, from, to);
    }
  }
}
