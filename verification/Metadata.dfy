/** Every edit that a client computes on a loaded snapshot before its compare-and-swap. */
module Metadata {
  import opened Domain
  import opened Paths
  import opened Tree

  datatype Op =
    | Mkdir(path: string, newDir: DirectoryId)
    | Create(path: string, newFile: FileId)
    | Rename(from: string, to: string)
    | Remove(path: string)
    | Write(file: FileId, content: ContentId, size: nat, expected: Option<nat>, node: DeviceId, desired: nat)
    | Refresh(content: ContentId, states: seq<(DeviceId, ReplicaState)>)
    | Upsert(content: ContentId, node: DeviceId, state: ReplicaState)
    | Mark(content: ContentId, node: DeviceId, state: ReplicaState)

  /** What an edit asks of the store: install a new snapshot, nothing at all, or report an error. */
  datatype Outcome = Commit(next: Snapshot) | Skip | Fail(error: FsError)

  function ShapeOf(s: Snapshot): Shape {
    Shape(s.root, s.directories.Keys, s.files.Keys, s.entries)
  }

  function Resolve(s: Snapshot, path: string): Result<Target> {
    var cs :- Parse(path);
    Walk(s.entries, s.root, cs)
  }

  function ResolveDirectory(s: Snapshot, cs: seq<string>): Result<DirectoryId> {
    var t :- Walk(s.entries, s.root, cs);
    match t
    case Directory(d) => Ok(d)
    case File(_) => Err(NotDirectory)
  }

  /** The component loop of path resolution. */
  method ResolveComponents(s: Snapshot, cs: seq<string>) returns (r: Result<Target>)
    ensures r == Walk(s.entries, s.root, cs)
  {
    var current := s.root;
    var k := 0;
    while k < |cs|
      invariant 0 <= k <= |cs|
      invariant Walk(s.entries, s.root, cs) == Walk(s.entries, current, cs[k..])
    {
      match Lookup(s.entries, current, cs[k]) {
        case None => return Err(NotFound);
        case Some(Directory(d)) => current := d;
        case Some(File(f)) =>
          if k + 1 == |cs| { return Ok(File(f)); }
          return Err(NotDirectory);
      }
      assert cs[k..][1..] == cs[k + 1..];
      k := k + 1;
    }
    return Ok(Directory(current));
  }

  function Touch(s: Snapshot, d: DirectoryId): Snapshot {
    if d in s.directories then
      s.(directories := s.directories[d := s.directories[d].(generation := s.directories[d].generation + 1)])
    else s
  }

  // ---- namespace edits -------------------------------------------------------------------

  function Locate(s: Snapshot, path: string): Result<(DirectoryId, string)> {
    var cs :- Parse(path);
    if cs == [] then Err(InvalidPath)
    else
      var d :- ResolveDirectory(s, cs[..|cs| - 1]);
      Ok((d, cs[|cs| - 1]))
  }

  function EditMkdir(s: Snapshot, path: string, id: DirectoryId): Result<Snapshot> {
    var at :- Locate(s, path);
    if Lookup(s.entries, at.0, at.1).Some? then Err(AlreadyExists)
    else Ok(Touch(s.(directories := s.directories[id := DirectoryMetadata(id, 1)],
                     entries := s.entries + [Entry(at.0, at.1, Directory(id))]), at.0))
  }

  function EditCreate(s: Snapshot, path: string, id: FileId): Result<Snapshot> {
    var at :- Locate(s, path);
    if Lookup(s.entries, at.0, at.1).Some? then Err(AlreadyExists)
    else Ok(Touch(s.(files := s.files[id := FileMetadata(id, 0, 1, None)],
                     entries := s.entries + [Entry(at.0, at.1, File(id))]), at.0))
  }

  /** Both paths are parsed before either is resolved. */
  ghost function EditRename(s: Snapshot, from: string, to: string): Result<Snapshot> {
    if Parse(from).Err? || Parse(to).Err? || Parse(from).value == [] || Parse(to).value == [] then Err(InvalidPath)
    else
      var f :- Locate(s, from);
      var t :- Locate(s, to);
      RenameAt(s, f.0, f.1, t.0, t.1)
  }

  ghost function RenameAt(s: Snapshot, fd: DirectoryId, fn: string, td: DirectoryId, tn: string): Result<Snapshot> {
    if Lookup(s.entries, td, tn).Some? then Err(AlreadyExists)
    else match Position(s.entries, fd, fn)
      case None => Err(NotFound)
      case Some(i) =>
        var target := s.entries[i].target;
        if target.Directory? && Descends(s.entries, td, target.dir) then Err(InvalidPath)
        else
          var moved := s.(entries := s.entries[i := Entry(td, tn, target)]);
          var touched := Touch(moved, fd);
          Ok(if td != fd then Touch(touched, td) else touched)
  }

  /** Content that no file references any more becomes a garbage candidate, unless a snapshot pins it. */
  function MarkGarbage(files: map<FileId, FileMetadata>, rets: map<ContentId, Retention>, ids: seq<ContentId>)
    : map<ContentId, Retention>
    decreases |ids|
  {
    if ids == [] then rets
    else
      var c := ids[0];
      var next := if !LiveReferenced(files, c) && !(c in rets && rets[c] == Snapshotted)
                  then rets[c := GarbageCandidate] else rets;
      MarkGarbage(files, next, ids[1..])
  }

  function EditRemove(s: Snapshot, path: string): Result<Snapshot> {
    var at :- Locate(s, path);
    match Position(s.entries, at.0, at.1)
    case None => Err(NotFound)
    case Some(i) =>
      var rest := s.entries[..i] + s.entries[i + 1..];
      match s.entries[i].target
      case File(f) =>
        var ids := if f in s.files then ChunkIds(s.files[f]) else [];
        var files := s.files - {f};
        Ok(Touch(s.(files := files, retentions := MarkGarbage(files, s.retentions, ids), entries := rest), at.0))
      case Directory(d) =>
        if exists j :: 0 <= j < |s.entries| && s.entries[j].parent == d then Err(DirectoryNotEmpty)
        else Ok(Touch(s.(directories := s.directories - {d}, entries := rest), at.0))
  }

  // ---- content edits -----------------------------------------------------------------------

  predicate HasReplica(rs: seq<Replica>, node: DeviceId) {
    exists i :: 0 <= i < |rs| && rs[i].nodeId == node
  }

  /** Updates the first record of `node`, if there is one. */
  function SetState(rs: seq<Replica>, node: DeviceId, state: ReplicaState): (r: seq<Replica>)
    ensures |r| == |rs|
    ensures forall i :: 0 <= i < |rs| ==> r[i].nodeId == rs[i].nodeId
    ensures forall i :: 0 <= i < |rs| && rs[i].nodeId != node ==> r[i] == rs[i]
  {
    if rs == [] then []
    else if rs[0].nodeId == node then [Replica(node, state)] + rs[1..]
    else [rs[0]] + SetState(rs[1..], node, state)
  }

  function SetStates(rs: seq<Replica>, states: seq<(DeviceId, ReplicaState)>): (r: seq<Replica>)
    ensures |r| == |rs|
    ensures forall i :: 0 <= i < |rs| ==> r[i].nodeId == rs[i].nodeId
    decreases |states|
  {
    if states == [] then rs
    else SetStates(SetState(rs, states[0].0, states[0].1), states[1..])
  }

  function UpsertState(rs: seq<Replica>, node: DeviceId, state: ReplicaState): seq<Replica> {
    if HasReplica(rs, node) then SetState(rs, node, state) else rs + [Replica(node, state)]
  }

  function EditWrite(s: Snapshot, op: Op): Result<Snapshot>
    requires op.Write?
  {
    if op.file !in s.files then Err(MetadataUnavailable)
    else
      var file := s.files[op.file];
      if op.expected.Some? && op.expected.value != file.generation then Err(Conflict)
      else
        var files := s.files[op.file := file.(generation := file.generation + 1, size := op.size,
                                              manifest := Some(Single(op.content, op.size)))];
        var replicas := if op.content in s.placements then s.placements[op.content].replicas else [];
        var id := if op.content in s.placements then s.placements[op.content].contentId else op.content;
        var placement := Placement(id, op.desired, UpsertState(replicas, op.node, Healthy));
        Ok(s.(files := files,
              placements := s.placements[op.content := placement],
              retentions := MarkGarbage(files, s.retentions[op.content := LiveReference], ChunkIds(file))))
  }

  function WithReplicas(s: Snapshot, c: ContentId, rs: seq<Replica>): Snapshot
    requires c in s.placements
  {
    s.(placements := s.placements[c := s.placements[c].(replicas := rs)])
  }

  function Plain(r: Result<Snapshot>): Outcome {
    match r case Ok(next) => Commit(next) case Err(e) => Fail(e)
  }

  /** Retry budgets: namespace and reconciler edits 8, replica marks 4, file writes a single try. */
  function Attempts(op: Op): nat {
    if op.Write? then 1 else if op.Mark? then 4 else 8
  }

  ghost function Apply(op: Op, s: Snapshot): Outcome {
    match op
    case Mkdir(path, id) => Plain(EditMkdir(s, path, id))
    case Create(path, id) => Plain(EditCreate(s, path, id))
    case Rename(from, to) => Plain(EditRename(s, from, to))
    case Remove(path) => Plain(EditRemove(s, path))
    case Write(_, _, _, _, _, _) => Plain(EditWrite(s, op))
    case Refresh(c, states) =>
      if !Retained(s, c) then Skip
      else if c !in s.placements then Fail(ContentUnavailable)
      else Commit(WithReplicas(s, c, SetStates(s.placements[c].replicas, states)))
    case Upsert(c, node, state) =>
      if !Retained(s, c) then Skip
      else if c !in s.placements then Fail(ContentUnavailable)
      else Commit(WithReplicas(s, c, UpsertState(s.placements[c].replicas, node, state)))
    case Mark(c, node, state) =>
      if c !in s.placements || !HasReplica(s.placements[c].replicas, node) then Skip
      else if StateOf(s.placements[c].replicas, node) == state then Skip
      else Commit(WithReplicas(s, c, SetState(s.placements[c].replicas, node, state)))
  }

  /** Recorded state of the first record of `node`. */
  function StateOf(rs: seq<Replica>, node: DeviceId): ReplicaState
    requires HasReplica(rs, node)
  {
    if rs[0].nodeId == node then rs[0].state
    else
      assert HasReplica(rs[1..], node) by {
        var i :| 0 <= i < |rs| && rs[i].nodeId == node;
        assert rs[1..][i - 1].nodeId == node;
      }
      StateOf(rs[1..], node)
  }
}
