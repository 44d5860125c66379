/** One reconcile pass as a function of the metadata and the node registry. */
module Replication {
  import opened Domain
  import opened Orders
  import opened Metadata
  import opened Content
  import opened PlacementPolicy

  datatype World = World(meta: Snapshot, reg: Registry)

  /** What a pass did so far: the world it leaves, the copies it made, the error that stopped it. */
  datatype Pass = Pass(world: World, created: nat, error: Option<FsError>)

  /** An uncontended load-edit-swap round. */
  ghost function Committed(s: Snapshot, op: Op): Snapshot {
    match Apply(op, s)
    case Commit(next) => next.(revision := s.revision + 1)
    case Skip => s
    case Fail(_) => s
  }

  /** Offline nodes cannot be checked: a known-bad record stays bad, any other counts as present. */
  function Observe(h: Hash, reg: Registry, c: ContentId, r: Replica): ReplicaState {
    if r.nodeId !in reg then Missing
    else if !reg[r.nodeId].state.online then
      if r.state.Missing? || r.state.Corrupted? then r.state else Offline
    else if c !in reg[r.nodeId].blobs then Missing
    else if h(reg[r.nodeId].blobs[c]) == c then Healthy
    else Corrupted
  }

  function Observed(h: Hash, reg: Registry, c: ContentId, rs: seq<Replica>): seq<(DeviceId, ReplicaState)> {
    seq(|rs|, i requires 0 <= i < |rs| => (rs[i].nodeId, Observe(h, reg, c, rs[i])))
  }

  /** First replica recorded healthy whose bytes can be read and verify. */
  function FindSource(h: Hash, reg: Registry, c: ContentId, rs: seq<Replica>): Option<(DeviceId, Bytes)> {
    if rs == [] then None
    else
      var got := GetFrom(reg, rs[0].nodeId, c);
      if rs[0].state.Healthy? && got.Ok? && h(got.value) == c then Some((rs[0].nodeId, got.value))
      else FindSource(h, reg, c, rs[1..])
  }

  ghost function Referencing(files: map<FileId, FileMetadata>, c: ContentId): set<FileId> {
    set f | f in files && References(files[f], c)
  }

  function ChunkSize(chunks: seq<Chunk>, c: ContentId): nat {
    if chunks == [] then 0 else if chunks[0].contentId == c then chunks[0].size else ChunkSize(chunks[1..], c)
  }

  /** Size of the first referencing chunk, in file identifier order; 0 if there is none. */
  ghost function ContentSize(s: Snapshot, c: ContentId): nat {
    var fs := Listing(Referencing(s.files, c), (a: FileId, b: FileId) => a < b);
    if fs == [] then 0
    else
      assert fs[0] in Elements(fs);
      ChunkSize(s.files[fs[0]].manifest.value.chunks, c)
  }

  ghost function NodeList(reg: Registry): seq<StorageNode> {
    var ids := Listing(reg.Keys, TextLt);
    seq(|ids|, i requires 0 <= i < |ids| => assert ids[i] in Elements(ids); reg[ids[i]].state)
  }

  ghost function CopyTo(h: Hash, w: World, c: ContentId, d: DeviceId, bytes: Bytes): Pass {
    if d !in w.reg then Pass(w, 0, Some(NodeNotFound))
    else
      var cleared := Without(w.reg, d, c);
      match PutOn(h, cleared, d, bytes)
      case Err(e) => Pass(World(w.meta, cleared), 0, Some(e))
      case Ok(reg) =>
        if h(bytes) != c then Pass(World(w.meta, reg), 0, Some(Storage))
        else Pass(World(Committed(w.meta, Upsert(c, d, Healthy)), reg), 1, None)
  }

  ghost function CopyLoop(h: Hash, w: World, c: ContentId, dests: seq<DeviceId>): Pass
    decreases |dests|
  {
    if dests == [] || !Retained(w.meta, c) then Pass(w, 0, None)
    else if c !in w.meta.placements then Pass(w, 0, Some(ContentUnavailable))
    else
      var rs := w.meta.placements[c].replicas;
      if Recorded(rs, dests[0]) then CopyLoop(h, w, c, dests[1..])
      else match FindSource(h, w.reg, c, rs)
        case None => Pass(w, 0, None)
        case Some(source) =>
          var step := CopyTo(h, w, c, dests[0], source.1);
          if step.error.Some? then step
          else
            var rest := CopyLoop(h, step.world, c, dests[1..]);
            rest.(created := rest.created + 1)
  }

  ghost function Refreshed(h: Hash, w: World, c: ContentId): World
    requires c in w.meta.placements
  {
    var p := w.meta.placements[c];
    w.(meta := Committed(w.meta, Refresh(c, Observed(h, w.reg, p.contentId, p.replicas))))
  }

  ghost function Destinations(w: World, c: ContentId): seq<DeviceId>
    requires c in w.meta.placements
  {
    DesiredNodes(ContentSize(w.meta, c), NodeList(w.reg), w.meta.placements[c].replicas, w.meta.placements[c].desired)
  }

  ghost function ReconcileContent(h: Hash, w: World, c: ContentId): Pass {
    if !Retained(w.meta, c) then Pass(w, 0, None)
    else if c !in w.meta.placements then Pass(w, 0, Some(ContentUnavailable))
    else
      var w1 := Refreshed(h, w, c);
      if c !in w1.meta.placements then Pass(w1, 0, Some(ContentUnavailable))
      else CopyLoop(h, w1, c, Destinations(w1, c))
  }

  datatype Report = Report(created: nat, degraded: seq<ContentId>)

  predicate ReportedDegraded(s: Snapshot, c: ContentId) {
    Retained(s, c) && c in s.placements && Degraded(s.placements[c])
  }

  ghost function ReconcileAll(h: Hash, w: World, cs: seq<ContentId>): (World, Report, Option<FsError>)
    decreases |cs|
  {
    if cs == [] then (w, Report(0, []), None)
    else
      var p := ReconcileContent(h, w, cs[0]);
      if p.error.Some? then (p.world, Report(0, []), p.error)
      else
        var (w', r, e) := ReconcileAll(h, p.world, cs[1..]);
        var mine := if ReportedDegraded(p.world.meta, cs[0]) then [cs[0]] else [];
        (w', Report(p.created + r.created, mine + r.degraded), e)
  }

  ghost function RetainedIds(s: Snapshot): set<ContentId> {
    (set c | c in s.retentions && s.retentions[c].IsRetained())
    + (set f, c | f in s.files && c in ChunkIds(s.files[f]) :: c)
  }

  lemma RetainedIdsMeans(s: Snapshot, c: ContentId)
    ensures c in RetainedIds(s) <==> Retained(s, c)
  {
    if LiveReferenced(s.files, c) {
      var f :| f in s.files && References(s.files[f], c);
      assert c in ChunkIds(s.files[f]);
    }
  }

  /** One deterministic pass over the retained contents in identifier order. */
  ghost function Reconcile(h: Hash, w: World): (World, Report, Option<FsError>) {
    ReconcileAll(h, w, Listing(RetainedIds(w.meta), TextLt))
  }
}
