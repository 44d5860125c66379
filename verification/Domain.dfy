/** The filesystem's records, error categories and retention queries. */
module Domain {

  datatype Option<+T> = None | Some(value: T)

  datatype FsError =
    | NotFound | AlreadyExists | NotDirectory | IsDirectory | DirectoryNotEmpty
    | Conflict | ContentUnavailable | NoSpace | InvalidPath | NodeNotFound
    | MetadataUnavailable | Storage

  datatype Result<+T> = Ok(value: T) | Err(error: FsError) {
    predicate IsFailure() { Err? }
    function PropagateFailure<U>(): Result<U>
      requires Err?
    {
      Err(error)
    }
    function Extract(): T
      requires Ok?
    {
      value
    }
  }

  type byte = x: int | 0 <= x < 256
  type Bytes = seq<byte>

  type ContentId = string
  type DeviceId = string
  /** Random 128-bit identifiers, ordered as numbers; the nil identifier names the root. */
  type FileId = nat
  type DirectoryId = nat
  const ROOT: DirectoryId := 0

  datatype Chunk = Chunk(contentId: ContentId, offset: nat, size: nat)

  datatype Manifest = Manifest(size: nat, chunks: seq<Chunk>)

  function Single(contentId: ContentId, size: nat): Manifest {
    Manifest(size, [Chunk(contentId, 0, size)])
  }

  datatype FileMetadata = FileMetadata(id: FileId, size: nat, generation: nat, manifest: Option<Manifest>)
  datatype DirectoryMetadata = DirectoryMetadata(id: DirectoryId, generation: nat)

  datatype Target = File(file: FileId) | Directory(dir: DirectoryId)
  datatype Entry = Entry(parent: DirectoryId, name: string, target: Target)

  datatype PowerSource = Mains | Battery | UnknownPower
  datatype Availability = Stable | Intermittent | UnknownAvailability
  datatype StorageNode =
    StorageNode(deviceId: DeviceId, online: bool, freeSpace: nat, power: PowerSource, availability: Availability)

  datatype ReplicaState = Healthy | Pending | Offline | Missing | Corrupted {
    /** States that count towards durability. */
    predicate Present() { Healthy? || Offline? }
  }
  datatype Replica = Replica(nodeId: DeviceId, state: ReplicaState)

  datatype Retention = LiveReference | Snapshotted | GarbageCandidate {
    predicate IsRetained() { LiveReference? || Snapshotted? }
  }

  datatype Placement = Placement(contentId: ContentId, desired: nat, replicas: seq<Replica>)

  function PresentCount(rs: seq<Replica>): nat {
    if rs == [] then 0 else (if rs[0].state.Present() then 1 else 0) + PresentCount(rs[1..])
  }

  predicate Degraded(p: Placement) {
    PresentCount(p.replicas) < p.desired
  }

  datatype Snapshot = Snapshot(
    revision: nat,
    root: DirectoryId,
    directories: map<DirectoryId, DirectoryMetadata>,
    files: map<FileId, FileMetadata>,
    entries: seq<Entry>,
    placements: map<ContentId, Placement>,
    retentions: map<ContentId, Retention>)

  const DEFAULT_SNAPSHOT: Snapshot :=
    Snapshot(0, ROOT, map[ROOT := DirectoryMetadata(ROOT, 1)], map[], [], map[], map[])

  predicate References(f: FileMetadata, c: ContentId) {
    f.manifest.Some? && exists k :: 0 <= k < |f.manifest.value.chunks| && f.manifest.value.chunks[k].contentId == c
  }

  function ChunkIds(f: FileMetadata): (r: seq<ContentId>)
    ensures forall c :: c in r <==> References(f, c)
  {
    if f.manifest.None? then []
    else
      var chunks := f.manifest.value.chunks;
      var r := seq(|chunks|, i requires 0 <= i < |chunks| => chunks[i].contentId);
      assert forall k :: 0 <= k < |chunks| ==> r[k] == chunks[k].contentId;
      r
  }

  predicate LiveReferenced(files: map<FileId, FileMetadata>, c: ContentId) {
    exists f :: f in files && References(files[f], c)
  }

  predicate Retained(s: Snapshot, c: ContentId) {
    (c in s.retentions && s.retentions[c].IsRetained()) || LiveReferenced(s.files, c)
  }

  /** The set that a reconcile pass iterates over. */
  method RetainedContentIds(s: Snapshot) returns (r: set<ContentId>)
    ensures forall c :: c in r <==> Retained(s, c)
  {
    r := set c | c in s.retentions && s.retentions[c].IsRetained();
    var rest := s.files.Keys;
    while rest != {}
      invariant rest <= s.files.Keys
      invariant forall c :: c in r <==>
        (c in s.retentions && s.retentions[c].IsRetained())
        || exists f :: f in s.files && f !in rest && References(s.files[f], c)
      decreases rest
    {
      var f :| f in rest;
      var ids := ChunkIds(s.files[f]);
      r := r + set c | c in ids;
      rest := rest - {f};
    }
  }
}
