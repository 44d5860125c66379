/** The metadata store object and the namespace operations that run against it. */
module Namespace {
  import opened Domain
  import opened Orders
  import opened Paths
  import opened Tree
  import opened Metadata
  import opened MetadataInvariants

  /** A snapshot installed in the store, by this client or by another one. */
  datatype Install = Mine(installed: Snapshot) | Theirs(installed: Snapshot)

  class MetadataStore {
    var state: Snapshot
    ghost var trail: seq<Install>

    constructor ()
      ensures state == DEFAULT_SNAPSHOT && trail == []
    {
      state := DEFAULT_SNAPSHOT;
      trail := [];
    }

    method CompareAndSwap(replacement: Snapshot) returns (r: Result<()>)
      modifies this
      ensures old(state).revision != replacement.revision ==>
        r == Err(Conflict) && state == old(state) && trail == old(trail)
      ensures old(state).revision == replacement.revision ==>
        && r == Ok(()) && state == replacement.(revision := replacement.revision + 1)
        && trail == old(trail) + [Mine(state)]
    {
      if state.revision != replacement.revision { return Err(Conflict); }
      state := replacement.(revision := replacement.revision + 1);
      trail := trail + [Mine(state)];
      return Ok(());
    }

    /** The other clients of the store: any number of valid commits that do not use `op`'s identifiers,
        each one revision further. A caller knows this contract and nothing more. */
    method OtherClients(ghost op: Op)
      requires Valid(state) && Fresh(op, state)
      modifies this
      ensures Valid(state) && Fresh(op, state)
      ensures OnlyTheirs(old(trail), trail) && state == Latest(old(state), old(trail), trail)
      ensures state.revision == old(state).revision + |trail| - |old(trail)|
    {
    }
  }

  ghost predicate OnlyTheirs(before: seq<Install>, after: seq<Install>) {
    before <= after && forall i :: |before| <= i < |after| ==> after[i].Theirs?
  }

  /** What the store holds once `before` has grown to `after`: the last snapshot installed. */
  ghost function Latest(start: Snapshot, before: seq<Install>, after: seq<Install>): Snapshot {
    if |after| > |before| then after[|after| - 1].installed else start
  }

  // ---- the edits as they run ---------------------------------------------------------------------

  method FindParent(s: Snapshot, path: string) returns (r: Result<(DirectoryId, string)>)
    ensures r == Locate(s, path)
  {
    var parsed := Parse(path);
    if parsed.Err? { return Err(parsed.error); }
    var cs := parsed.value;
    if cs == [] { return Err(InvalidPath); }
    var target := ResolveComponents(s, cs[..|cs| - 1]);
    match target {
      case Err(e) => return Err(e);
      case Ok(File(_)) => return Err(NotDirectory);
      case Ok(Directory(d)) => return Ok((d, cs[|cs| - 1]));
    }
  }

  method ComputeRename(s: Snapshot, from: string, to: string) returns (r: Result<Snapshot>)
    requires Valid(s)
    ensures r == EditRename(s, from, to)
  {
    hide Valid;
    var pf, pt := Parse(from), Parse(to);
    if pf.Err? || pt.Err? || pf.value == [] || pt.value == [] { return Err(InvalidPath); }
    var f := FindParent(s, from);
    if f.Err? { return Err(f.error); }
    var t := FindParent(s, to);
    if t.Err? { return Err(t.error); }
    r := ComputeMove(s, f.value.0, f.value.1, t.value.0, t.value.1);
  }

  method ComputeMove(s: Snapshot, fd: DirectoryId, fn: string, td: DirectoryId, tn: string)
    returns (r: Result<Snapshot>)
    requires Valid(s)
    ensures r == RenameAt(s, fd, fn, td, tn)
  {
    if Lookup(s.entries, td, tn).Some? { return Err(AlreadyExists); }
    var index := Position(s.entries, fd, fn);
    if index.None? { return Err(NotFound); }
    var target := s.entries[index.value].target;
    if target.Directory? {
      var inside := IsDescendant(ShapeOf(s), td, target.dir);
      if inside { return Err(InvalidPath); }
    }
    hide Valid, Descends;
    var moved := s.(entries := s.entries[index.value := Entry(td, tn, target)]);
    moved := Touch(moved, fd);
    if td != fd { moved := Touch(moved, td); }
    return Ok(moved);
  }

  method ComputeGarbage(files: map<FileId, FileMetadata>, start: map<ContentId, Retention>, ids: seq<ContentId>)
    returns (rets: map<ContentId, Retention>)
    ensures rets == MarkGarbage(files, start, ids)
  {
    rets := start;
    var k := 0;
    while k < |ids|
      invariant 0 <= k <= |ids|
      invariant MarkGarbage(files, start, ids) == MarkGarbage(files, rets, ids[k..])
    {
      var c := ids[k];
      if !LiveReferenced(files, c) && !(c in rets && rets[c] == Snapshotted) {
        rets := rets[c := GarbageCandidate];
      }
      assert ids[k..][1..] == ids[k + 1..];
      k := k + 1;
    }
  }

  method ComputeRemove(s: Snapshot, path: string) returns (r: Result<Snapshot>)
    ensures r == EditRemove(s, path)
  {
    var at := FindParent(s, path);
    if at.Err? { return Err(at.error); }
    var index := Position(s.entries, at.value.0, at.value.1);
    if index.None? { return Err(NotFound); }
    var i := index.value;
    var rest := s.entries[..i] + s.entries[i + 1..];
    match s.entries[i].target {
      case File(f) =>
        var ids := if f in s.files then ChunkIds(s.files[f]) else [];
        var files := s.files - {f};
        var rets := ComputeGarbage(files, s.retentions, ids);
        return Ok(Touch(s.(files := files, retentions := rets, entries := rest), at.value.0));
      case Directory(d) =>
        if exists j :: 0 <= j < |s.entries| && s.entries[j].parent == d { return Err(DirectoryNotEmpty); }
        return Ok(Touch(s.(directories := s.directories - {d}, entries := rest), at.value.0));
    }
  }

  predicate IsNamespaceOp(op: Op) {
    op.Mkdir? || op.Create? || op.Rename? || op.Remove?
  }

  predicate IsRecordOp(op: Op) {
    op.Refresh? || op.Upsert? || op.Mark?
  }

  method ComputeNamespaceEdit(op: Op, s: Snapshot) returns (r: Result<Snapshot>)
    requires IsNamespaceOp(op) && Valid(s)
    ensures Plain(r) == Apply(op, s)
  {
    hide Valid;
    match op {
      case Mkdir(path, id) =>
        var at := FindParent(s, path);
        if at.Err? { return Err(at.error); }
        if Lookup(s.entries, at.value.0, at.value.1).Some? { return Err(AlreadyExists); }
        return Ok(Touch(s.(directories := s.directories[id := DirectoryMetadata(id, 1)],
                           entries := s.entries + [Entry(at.value.0, at.value.1, Directory(id))]), at.value.0));
      case Create(path, id) =>
        var at := FindParent(s, path);
        if at.Err? { return Err(at.error); }
        if Lookup(s.entries, at.value.0, at.value.1).Some? { return Err(AlreadyExists); }
        return Ok(Touch(s.(files := s.files[id := FileMetadata(id, 0, 1, None)],
                           entries := s.entries + [Entry(at.value.0, at.value.1, File(id))]), at.value.0));
      case Rename(from, to) => r := ComputeRename(s, from, to);
      case Remove(path) => r := ComputeRemove(s, path);
    }
  }

  method ComputeStates(start: seq<Replica>, states: seq<(DeviceId, ReplicaState)>) returns (rs: seq<Replica>)
    ensures rs == SetStates(start, states)
  {
    rs := start;
    var k := 0;
    while k < |states|
      invariant 0 <= k <= |states|
      invariant SetStates(start, states) == SetStates(rs, states[k..])
    {
      rs := SetState(rs, states[k].0, states[k].1);
      assert states[k..][1..] == states[k + 1..];
      k := k + 1;
    }
  }

  method ComputeRecordEdit(op: Op, s: Snapshot) returns (r: Outcome)
    requires IsRecordOp(op)
    ensures r == Apply(op, s)
  {
    var c := op.content;
    if op.Mark? {
      if c !in s.placements || !HasReplica(s.placements[c].replicas, op.node) { return Skip; }
      if StateOf(s.placements[c].replicas, op.node) == op.state { return Skip; }
      return Commit(WithReplicas(s, c, SetState(s.placements[c].replicas, op.node, op.state)));
    }
    if !Retained(s, c) { return Skip; }
    if c !in s.placements { return Fail(ContentUnavailable); }
    var rs := s.placements[c].replicas;
    if op.Refresh? { rs := ComputeStates(rs, op.states); } else { rs := UpsertState(rs, op.node, op.state); }
    return Commit(WithReplicas(s, c, rs));
  }

  /** The edit of a file write: file record, placement and retentions, in this order. */
  method ComputeWrite(op: Op, s: Snapshot) returns (r: Result<Snapshot>)
    requires op.Write?
    ensures r == EditWrite(s, op)
  {
    var f, c := op.file, op.content;
    if f !in s.files { return Err(MetadataUnavailable); }
    var file := s.files[f];
    if op.expected.Some? && op.expected.value != file.generation { return Err(Conflict); }
    var manifest := Some(Single(c, op.size));
    var files := s.files[f := file.(generation := file.generation + 1, size := op.size, manifest := manifest)];
    var placement := if c in s.placements then s.placements[c] else Placement(c, op.desired, []);
    placement := placement.(desired := op.desired, replicas := UpsertState(placement.replicas, op.node, Healthy));
    var rets := ComputeGarbage(files, s.retentions[c := LiveReference], ChunkIds(file));
    return Ok(s.(files := files, placements := s.placements[c := placement], retentions := rets));
  }

  method ComputeEdit(op: Op, s: Snapshot) returns (r: Outcome)
    requires Valid(s)
    ensures r == Apply(op, s)
  {
    hide Valid;
    if IsRecordOp(op) {
      r := ComputeRecordEdit(op, s);
    } else if op.Write? {
      var edited := ComputeWrite(op, s);
      r := Plain(edited);
    } else {
      var edited := ComputeNamespaceEdit(op, s);
      r := Plain(edited);
    }
  }

  // ---- the retry loop -------------------------------------------------------------------------------

  datatype Answer = Installed | NothingToDo | Rejected(error: FsError)

  class MetadataClient {
    const store: MetadataStore

    constructor (store: MetadataStore)
      ensures this.store == store
    {
      this.store := store;
    }

    /** Rounds of load, edit and swap while other clients keep committing. A success installs exactly
        one snapshot of ours: the edit applied to `before`, the state just before it. Every other
        answer leaves no trace of ours: an error of the edit or nothing to do, as the store's state
        demanded, or exhausted retries, for which others must have committed at least once a round. */
    method Mutate(op: Op) returns (r: Answer, ghost before: Snapshot)
      requires Valid(store.state) && Fresh(op, store.state)
      modifies store
      ensures Valid(store.state)
      ensures r == Installed ==>
        && |store.trail| > |old(store.trail)|
        && var others := store.trail[..|store.trail| - 1];
          && OnlyTheirs(old(store.trail), others) && before == Latest(old(store.state), old(store.trail), others)
          && Apply(op, before).Commit? && store.trail == others + [Mine(store.state)]
          && store.state == Apply(op, before).next.(revision := before.revision + 1)
      ensures r != Installed ==>
        && OnlyTheirs(old(store.trail), store.trail)
        && store.state == Latest(old(store.state), old(store.trail), store.trail)
      ensures r == NothingToDo ==> before == store.state && Apply(op, before) == Skip
      ensures r.Rejected? ==>
        || (before == store.state && Apply(op, before) == Fail(r.error))
        || (r.error == Conflict && |store.trail| >= |old(store.trail)| + Attempts(op))
    {
      hide Valid, Apply;
      before := store.state;
      var k := 0;
      while k < Attempts(op)
        invariant 0 <= k <= Attempts(op)
        invariant Valid(store.state) && Fresh(op, store.state)
        invariant OnlyTheirs(old(store.trail), store.trail) && |store.trail| >= |old(store.trail)| + k
        invariant store.state == Latest(old(store.state), old(store.trail), store.trail)
      {
        store.OtherClients(op);
        var loaded := store.state;
        before := loaded;
        var edited := ComputeEdit(op, loaded);
        if edited.Fail? { return Rejected(edited.error), before; }
        if edited.Skip? { return NothingToDo, before; }
        Frame(loaded, op);
        store.OtherClients(op);
        var swapped := store.CompareAndSwap(edited.next);
        if swapped.Ok? {
          KeepsValid(loaded, op);
          RevisionIsFree(edited.next, loaded.revision + 1);
          return Installed, before;
        }
        k := k + 1;
      }
      return Rejected(Conflict), before;
    }
  }

  // ---- listing -----------------------------------------------------------------------------------------

  datatype EntryMetadata = FileEntry(file: FileMetadata) | DirectoryEntry(directory: DirectoryMetadata)
  datatype Listed = Listed(name: string, metadata: EntryMetadata)

  function MetadataFor(s: Snapshot, t: Target): Result<EntryMetadata> {
    match t
    case File(f) => if f in s.files then Ok(FileEntry(s.files[f])) else Err(MetadataUnavailable)
    case Directory(d) => if d in s.directories then Ok(DirectoryEntry(s.directories[d])) else Err(MetadataUnavailable)
  }

  predicate ByName(a: Listed, b: Listed) {
    TextLt(a.name, b.name)
  }

  predicate IsChild(s: Snapshot, d: DirectoryId, x: Listed, i: nat) {
    && i < |s.entries| && s.entries[i].parent == d && s.entries[i].name == x.name
    && match s.entries[i].target
       case File(f) => f in s.files && x.metadata == FileEntry(s.files[f])
       case Directory(e) => e in s.directories && x.metadata == DirectoryEntry(s.directories[e])
  }

  /** In a valid snapshot listing a directory succeeds with exactly its children, in name order. */
  method List(s: Snapshot, path: string) returns (r: Result<seq<Listed>>)
    requires Valid(s)
    ensures Resolve(s, path).Err? ==> r == Err(Resolve(s, path).error)
    ensures Resolve(s, path).Ok? && Resolve(s, path).value.File? ==> r == Err(NotDirectory)
    ensures Resolve(s, path).Ok? && Resolve(s, path).value.Directory? ==>
      && r.Ok? && (forall i, j :: 0 <= i < j < |r.value| ==> Before(r.value[i].name, r.value[j].name))
      && forall x :: x in r.value <==> exists i :: IsChild(s, Resolve(s, path).value.dir, x, i)
  {
    var parsed := Parse(path);
    if parsed.Err? { return Err(parsed.error); }
    var target := ResolveComponents(s, parsed.value);
    if target.Err? { return Err(target.error); }
    if target.value.File? { return Err(NotDirectory); }
    var found := CollectChildren(s, target.value.dir);
    ByNameOrder(s, target.value.dir, found);
    SortAscending(found, ByName);
    var sorted := Sort(found, ByName);
    forall i, j | 0 <= i < j < |sorted| ensures Before(sorted[i].name, sorted[j].name) {
      TextLtMeans(sorted[i].name, sorted[j].name);
    }
    return Ok(sorted);
  }

  method CollectChildren(s: Snapshot, d: DirectoryId) returns (found: seq<Listed>)
    requires Valid(s)
    ensures NoDuplicates(found)
    ensures forall x :: x in found <==> exists i :: IsChild(s, d, x, i)
  {
    found := [];
    var k := 0;
    while k < |s.entries|
      invariant 0 <= k <= |s.entries|
      invariant NoDuplicates(found)
      invariant forall x :: x in found <==> exists i :: 0 <= i < k && IsChild(s, d, x, i)
    {
      var e := s.entries[k];
      if e.parent == d {
        assert Known(ShapeOf(s), e.target);
        var x := Listed(e.name, MetadataFor(s, e.target).value);
        assert IsChild(s, d, x, k);
        NotListedYet(s, d, x, k);
        assert x !in found;
        assert forall i :: 0 <= i < |found| ==> found[i] in found;
        found := found + [x];
      }
      k := k + 1;
    }
  }

  lemma ByNameOrder(s: Snapshot, d: DirectoryId, found: seq<Listed>)
    requires Valid(s) && forall x :: x in found ==> exists i :: IsChild(s, d, x, i)
    ensures StrictOrderOn(ByName, Elements(found))
  {
    var es := Elements(found);
    forall x | x in es ensures !ByName(x, x) { TextLtIrreflexive(x.name); }
    forall x, y, z | x in es && y in es && z in es && ByName(x, y) && ByName(y, z) ensures ByName(x, z) {
      TextLtTransitive(x.name, y.name, z.name);
    }
    forall x, y | x in es && y in es && x != y ensures ByName(x, y) || ByName(y, x) {
      var i :| IsChild(s, d, x, i);
      var j :| IsChild(s, d, y, j);
      if x.name == y.name { SameNameSameEntry(s.entries, i, j); } else { TextLtTotal(x.name, y.name); }
    }
  }

  lemma NotListedYet(s: Snapshot, d: DirectoryId, x: Listed, k: nat)
    requires UniqueNames(s.entries) && IsChild(s, d, x, k)
    ensures forall i :: 0 <= i < k ==> !IsChild(s, d, x, i)
  {
  }

  lemma SameNameSameEntry(es: seq<Entry>, i: nat, j: nat)
    requires UniqueNames(es) && i < |es| && j < |es| && es[i].parent == es[j].parent && es[i].name == es[j].name
    ensures i == j
  {
  }
}
