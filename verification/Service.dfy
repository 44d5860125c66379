/** File writes and verified reads, and what a committed write guarantees to every later read. */
module Service {
  import opened Domain
  import Paths
  import opened Tree
  import opened Metadata
  import opened MetadataInvariants
  import opened Content
  import opened Replication
  import opened ReplicationProofs
  import opened ReplicationPass
  import opened ReplicationTheorems

  // ---- write -----------------------------------------------------------------------------------

  /** The blob is stored first; a rejected commit leaves it behind, unreferenced. */
  ghost function WriteFile(h: Hash, w: World, path: string, data: Bytes, expected: Option<nat>, node: DeviceId,
                           desired: nat)
    : (World, Result<FileMetadata>)
  {
    match Resolve(w.meta, path)
    case Err(e) => (w, Err(e))
    case Ok(Directory(_)) => (w, Err(IsDirectory))
    case Ok(File(f)) =>
      match PutOn(h, w.reg, node, data)
      case Err(e) => (w, Err(e))
      case Ok(reg) =>
        match EditWrite(w.meta, Write(f, h(data), |data|, expected, node, desired))
        case Err(e) => (World(w.meta, reg), Err(e))
        case Ok(next) => (World(next.(revision := w.meta.revision + 1), reg), Ok(next.files[f]))
  }

  // ---- read ------------------------------------------------------------------------------------

  /** What a read records about the replica it just tried. */
  function ReadMark(h: Hash, reg: Registry, c: ContentId, d: DeviceId): ReplicaState {
    if d !in reg then Missing
    else if !reg[d].state.online then Offline
    else if c !in reg[d].blobs then Missing
    else if h(reg[d].blobs[c]) == c then Healthy
    else Corrupted
  }

  /** Tries the replicas in recorded order, marking what it finds, until one verifies. */
  ghost function ReadReplicas(h: Hash, reg: Registry, s: Snapshot, c: ContentId, rs: seq<Replica>)
    : (Snapshot, Option<Bytes>)
    decreases |rs|
  {
    if rs == [] then (s, None)
    else
      var d, state := rs[0].nodeId, ReadMark(h, reg, c, rs[0].nodeId);
      var marked := Committed(s, Mark(c, d, state));
      if state.Healthy? then (marked, Some(reg[d].blobs[c]))
      else ReadReplicas(h, reg, marked, c, rs[1..])
  }

  /** Concatenates the chunks; `loaded` is the snapshot the read started from. */
  ghost function ReadChunks(h: Hash, reg: Registry, loaded: Snapshot, s: Snapshot, chunks: seq<Chunk>)
    : (Snapshot, Result<Bytes>)
    decreases |chunks|
  {
    if chunks == [] then (s, Ok([]))
    else if chunks[0].contentId !in loaded.placements then (s, Err(ContentUnavailable))
    else
      var c := chunks[0].contentId;
      var (s1, found) := ReadReplicas(h, reg, s, c, loaded.placements[c].replicas);
      if found.None? then (s1, Err(ContentUnavailable))
      else
        var (s2, rest) := ReadChunks(h, reg, loaded, s1, chunks[1..]);
        (s2, if rest.Ok? then Ok(found.value + rest.value) else rest)
  }

  ghost function ReadFile(h: Hash, w: World, path: string): (World, Result<Bytes>) {
    match Resolve(w.meta, path)
    case Err(e) => (w, Err(e))
    case Ok(Directory(_)) => (w, Err(IsDirectory))
    case Ok(File(f)) =>
      if f !in w.meta.files then (w, Err(MetadataUnavailable))
      else match w.meta.files[f].manifest
        case None => (w, Ok([]))
        case Some(m) =>
          var (s, r) := ReadChunks(h, w.reg, w.meta, w.meta, m.chunks);
          (w.(meta := s), r)
  }

  /** A copy that a read can use right now. */
  predicate Readable(h: Hash, reg: Registry, d: DeviceId, c: ContentId) {
    Holds(h, reg, d, c) && reg[d].state.online
  }

  /** A read of one content succeeds exactly when some recorded replica verifies, whatever its recorded
      state says, and then returns bytes with that identifier. */
  lemma {:induction false} ReadReplicasExact(h: Hash, reg: Registry, s: Snapshot, c: ContentId, rs: seq<Replica>)
    ensures
      var found := ReadReplicas(h, reg, s, c, rs).1;
      && (found.Some? <==> exists i :: 0 <= i < |rs| && Readable(h, reg, rs[i].nodeId, c))
      && (found.Some? ==> h(found.value) == c)
    decreases |rs|
  {
    hide Committed;
    if rs != [] {
      var d := rs[0].nodeId;
      assert Readable(h, reg, d, c) <==> ReadMark(h, reg, c, d).Healthy?;
      assert forall i :: 0 < i < |rs| ==> rs[1..][i - 1] == rs[i];
      if !Readable(h, reg, d, c) {
        ReadReplicasExact(h, reg, Committed(s, Mark(c, d, ReadMark(h, reg, c, d))), c, rs[1..]);
        if i :| 0 <= i < |rs[1..]| && Readable(h, reg, rs[1..][i].nodeId, c) {
          assert Readable(h, reg, rs[i + 1].nodeId, c);
        }
      }
    }
  }

  /** Two snapshots that differ in recorded replica states and the revision only. */
  ghost predicate SameButStates(s: Snapshot, s': Snapshot) {
    && s' == s.(placements := s'.placements, revision := s'.revision)
    && s'.placements.Keys == s.placements.Keys
    && forall c :: c in s.placements ==> SameNodes(s.placements[c], s'.placements[c])
  }

  ghost predicate SameNodes(p: Placement, p': Placement) {
    && p'.contentId == p.contentId && p'.desired == p.desired && |p'.replicas| == |p.replicas|
    && forall i :: 0 <= i < |p.replicas| ==> p'.replicas[i].nodeId == p.replicas[i].nodeId
  }

  lemma MarkSameButStates(s: Snapshot, c: ContentId, d: DeviceId, state: ReplicaState)
    ensures SameButStates(s, Committed(s, Mark(c, d, state)))
  {
  }

  lemma SameButStatesTransitive(s: Snapshot, s1: Snapshot, s2: Snapshot)
    requires SameButStates(s, s1) && SameButStates(s1, s2)
    ensures SameButStates(s, s2)
  {
    forall c | c in s.placements ensures SameNodes(s.placements[c], s2.placements[c]) {
      assert SameNodes(s.placements[c], s1.placements[c]) && SameNodes(s1.placements[c], s2.placements[c]);
    }
  }

  lemma {:induction false} ReadReplicasFrame(h: Hash, reg: Registry, s: Snapshot, c: ContentId, rs: seq<Replica>)
    ensures SameButStates(s, ReadReplicas(h, reg, s, c, rs).0)
    decreases |rs|
  {
    hide Committed, SameButStates;
    if rs == [] {
      SameButStatesSelf(s);
    } else {
      var d := rs[0].nodeId;
      var marked := Committed(s, Mark(c, d, ReadMark(h, reg, c, d)));
      MarkSameButStates(s, c, d, ReadMark(h, reg, c, d));
      ReadReplicasFrame(h, reg, marked, c, rs[1..]);
      SameButStatesTransitive(s, marked, ReadReplicas(h, reg, marked, c, rs[1..]).0);
    }
  }

  lemma SameButStatesSelf(s: Snapshot)
    ensures SameButStates(s, s)
  {
  }

  lemma {:induction false} ReadChunksFrame(h: Hash, reg: Registry, loaded: Snapshot, s: Snapshot, chunks: seq<Chunk>)
    ensures SameButStates(s, ReadChunks(h, reg, loaded, s, chunks).0)
    decreases |chunks|
  {
    hide SameButStates, ReadReplicas;
    SameButStatesSelf(s);
    if chunks != [] && chunks[0].contentId in loaded.placements {
      var c := chunks[0].contentId;
      var (s1, found) := ReadReplicas(h, reg, s, c, loaded.placements[c].replicas);
      ReadReplicasFrame(h, reg, s, c, loaded.placements[c].replicas);
      ReadChunksFrame(h, reg, loaded, s1, chunks[1..]);
      SameButStatesTransitive(s, s1, ReadChunks(h, reg, loaded, s1, chunks[1..]).0);
    }
  }

  lemma ReadFrame(h: Hash, w: World, path: string)
    ensures ReadFile(h, w, path).0.reg == w.reg && SameButStates(w.meta, ReadFile(h, w, path).0.meta)
    ensures Valid(w.meta) ==> Valid(ReadFile(h, w, path).0.meta)
  {
    hide SameButStates, Valid;
    SameButStatesSelf(w.meta);
    var t := Resolve(w.meta, path);
    if t.Ok? && t.value.File? && t.value.file in w.meta.files && w.meta.files[t.value.file].manifest.Some? {
      ReadChunksFrame(h, w.reg, w.meta, w.meta, w.meta.files[t.value.file].manifest.value.chunks);
    }
    if Valid(w.meta) {
      StatesKeepValid(w.meta, ReadFile(h, w, path).0.meta);
    }
  }

  lemma StatesKeepValid(s: Snapshot, s': Snapshot)
    requires Valid(s) && SameButStates(s, s')
    ensures Valid(s')
  {
    assert ShapeOf(s') == ShapeOf(s);
    forall c | c in s'.placements ensures s'.placements[c].contentId == c && DistinctNodes(s'.placements[c].replicas) {
      assert SameNodes(s.placements[c], s'.placements[c]);
    }
  }

  // ---- a backed file -----------------------------------------------------------------------------

  /** File `f` consists of content `c`, and node `n` is online with a recorded copy that verifies. */
  ghost predicate Backed(h: Hash, w: World, f: FileId, c: ContentId, n: DeviceId) {
    && f in w.meta.files && HasSingle(w.meta.files[f], c)
    && c in w.meta.placements && HasReplica(w.meta.placements[c].replicas, n)
    && Readable(h, w.reg, n, c)
  }

  predicate HasSingle(f: FileMetadata, c: ContentId) {
    f.manifest.Some? && |f.manifest.value.chunks| == 1 && f.manifest.value.chunks[0].contentId == c
  }

  /** A committed write backs its file on the writing node. */
  lemma WriteBacks(h: Hash, w: World, path: string, data: Bytes, expected: Option<nat>, node: DeviceId, desired: nat)
    requires WriteFile(h, w, path, data, expected, node, desired).1.Ok?
    ensures Resolve(w.meta, path).Ok? && Resolve(w.meta, path).value.File?
    ensures Backed(h, WriteFile(h, w, path, data, expected, node, desired).0, Resolve(w.meta, path).value.file,
      h(data), node)
  {
    var w' := WriteFile(h, w, path, data, expected, node, desired).0;
    var f := Resolve(w.meta, path).value.file;
    var rs := if h(data) in w.meta.placements then w.meta.placements[h(data)].replicas else [];
    PutPromise(h, w.reg[node], data);
    UpsertHas(rs, node);
    assert w'.meta.placements[h(data)].replicas == UpsertState(rs, node, Healthy);
    assert w'.reg == w.reg[node := Put(h, w.reg[node], data).value];
  }

  lemma UpsertHas(rs: seq<Replica>, node: DeviceId)
    ensures HasReplica(UpsertState(rs, node, Healthy), node)
  {
    if HasReplica(rs, node) {
      var i :| 0 <= i < |rs| && rs[i].nodeId == node;
      assert UpsertState(rs, node, Healthy)[i].nodeId == node;
    } else {
      assert UpsertState(rs, node, Healthy)[|rs|].nodeId == node;
    }
  }

  /** Reading any path of a backed file returns bytes with its content identifier. */
  lemma BackedReads(h: Hash, w: World, f: FileId, c: ContentId, n: DeviceId, path: string)
    requires Backed(h, w, f, c, n) && Resolve(w.meta, path) == Ok(File(f))
    ensures ReadFile(h, w, path).1.Ok? && h(ReadFile(h, w, path).1.value) == c
  {
    var rs := w.meta.placements[c].replicas;
    var i :| 0 <= i < |rs| && rs[i].nodeId == n;
    assert Readable(h, w.reg, rs[i].nodeId, c);
    ReadReplicasExact(h, w.reg, w.meta, c, rs);
    hide ReadReplicas;
    var chunks := w.meta.files[f].manifest.value.chunks;
    assert chunks[1..] == [];
    var (s1, found) := ReadReplicas(h, w.reg, w.meta, c, rs);
    assert ReadChunks(h, w.reg, w.meta, s1, chunks[1..]) == (s1, Ok([]));
    assert found.value + [] == found.value;
    assert ReadChunks(h, w.reg, w.meta, w.meta, chunks) == (s1, Ok(found.value));
  }

  // ---- runs of the whole service -------------------------------------------------------------------

  datatype Event =
    | Edit(op: Op)
    | WriteEvent(path: string, data: Bytes, expected: Option<nat>, node: DeviceId, desired: nat)
    | ReadEvent(path: string)
    | ReconcileEvent
    | SetOnlineEvent(node: DeviceId, online: bool)
    | OverwriteEvent(node: DeviceId, content: ContentId, bytes: Bytes)
    | RegisterEvent(state: StorageNode, capacity: nat)

  /** One event on an otherwise quiet service. */
  ghost function After(h: Hash, w: World, e: Event): World {
    match e
    case Edit(op) => w.(meta := Committed(w.meta, op))
    case WriteEvent(path, data, expected, node, desired) => WriteFile(h, w, path, data, expected, node, desired).0
    case ReadEvent(path) => ReadFile(h, w, path).0
    case ReconcileEvent => Reconcile(h, w).0
    case SetOnlineEvent(d, online) =>
      if d in w.reg then w.(reg := w.reg[d := w.reg[d].(state := w.reg[d].state.(online := online))]) else w
    case OverwriteEvent(d, c, bytes) =>
      if d in w.reg then w.(reg := w.reg[d := w.reg[d].(blobs := w.reg[d].blobs[c := bytes])]) else w
    case RegisterEvent(state, capacity) => w.(reg := w.reg[state.deviceId := Node(state, capacity, map[])])
  }

  /** Namespace edits draw fresh identifiers; content edits only happen inside the other events. */
  ghost predicate Legal(w: World, e: Event) {
    e.Edit? ==> (e.op.Mkdir? || e.op.Create? || e.op.Rename? || e.op.Remove?) && Fresh(e.op, w.meta)
  }

  /** The event neither rewrites nor removes `f`, nor takes `n` away or corrupts its copy of `c`. */
  ghost predicate Undisturbed(w: World, e: Event, f: FileId, c: ContentId, n: DeviceId) {
    match e
    case Edit(op) => op.Remove? ==> Resolve(w.meta, op.path) != Ok(File(f))
    case WriteEvent(path, _, _, _, _) => Resolve(w.meta, path) != Ok(File(f))
    case ReadEvent(_) => true
    case ReconcileEvent => true
    case SetOnlineEvent(d, online) => d == n ==> online
    case OverwriteEvent(d, x, _) => !(d == n && x == c)
    case RegisterEvent(state, _) => state.deviceId != n
  }

  lemma CommittedValid(s: Snapshot, op: Op)
    requires Valid(s) && Fresh(op, s)
    ensures Valid(Committed(s, op))
  {
    hide Valid, Apply;
    if Apply(op, s).Commit? {
      KeepsValid(s, op);
      RevisionIsFree(Apply(op, s).next, s.revision + 1);
    }
  }

  lemma WriteKeepsGood(h: Hash, w: World, e: Event)
    requires Good(w) && e.WriteEvent?
    ensures Good(After(h, w, e))
  {
    hide Valid;
    var w' := After(h, w, e);
    var r := Resolve(w.meta, e.path);
    if r.Ok? && r.value.File? {
      var op := Write(r.value.file, h(e.data), |e.data|, e.expected, e.node, e.desired);
      assert w'.meta == Committed(w.meta, op) || w'.meta == w.meta;
      CommittedValid(w.meta, op);
    }
  }

  /** Every event keeps the metadata invariant. */
  lemma EventKeepsGood(h: Hash, w: World, e: Event)
    requires Good(w) && Legal(w, e)
    ensures Good(After(h, w, e))
  {
    hide Valid, Reconcile, ReadFile, WriteFile, Committed, PassFrame, NothingGoodLost, SameFor;
    match e {
      case Edit(op) => CommittedValid(w.meta, op);
      case WriteEvent(_, _, _, _, _) => WriteKeepsGood(h, w, e);
      case ReadEvent(path) =>
        ReadFrame(h, w, path);
        StatesKeepValid(w.meta, ReadFile(h, w, path).0.meta);
      case ReconcileEvent => ReconcileSafe(h, w);
      case SetOnlineEvent(_, _) =>
      case OverwriteEvent(_, _, _) =>
      case RegisterEvent(_, _) =>
    }
  }

  lemma EditKeepsFile(s: Snapshot, op: Op, f: FileId)
    requires Valid(s) && (op.Mkdir? || op.Create? || op.Rename? || op.Remove?) && Fresh(op, s) && f in s.files
    requires op.Remove? ==> Resolve(s, op.path) != Ok(File(f))
    ensures f in Committed(s, op).files && Committed(s, op).files[f] == s.files[f]
    ensures Committed(s, op).placements == s.placements
  {
    if Apply(op, s).Commit? {
      match op {
        case Mkdir(path, id) => MkdirEffect(s, path, id);
        case Create(path, id) => CreateEffect(s, path, id);
        case Rename(from, to) => RenameEffect(s, from, to);
        case Remove(path) =>
          RemoveEffect(s, path);
          LocateFacts(s, path);
          var at := Locate(s, path).value;
          WalkSnoc(s.entries, s.root, Paths.Parse(path).value[..|Paths.Parse(path).value| - 1], at.1);
      }
    }
  }

  lemma PutKeepsReadable(h: Hash, reg: Registry, d: DeviceId, data: Bytes, n: DeviceId, c: ContentId)
    requires PutOn(h, reg, d, data).Ok? && Readable(h, reg, n, c)
    ensures Readable(h, PutOn(h, reg, d, data).value, n, c)
  {
    PutPromise(h, reg[d], data);
    var reg' := PutOn(h, reg, d, data).value;
    if n == d && h(data) != c {
      assert c in reg[d].blobs - {h(data)};
      assert c in reg'[d].blobs - {h(data)};
      assert reg'[d].blobs[c] == (reg'[d].blobs - {h(data)})[c] == (reg[d].blobs - {h(data)})[c];
    }
  }

  lemma WriteKeepsBacked(h: Hash, w: World, e: Event, f: FileId, c: ContentId, n: DeviceId)
    requires Good(w) && e.WriteEvent? && Backed(h, w, f, c, n) && Undisturbed(w, e, f, c, n)
    ensures Backed(h, After(h, w, e), f, c, n)
  {
    hide Valid, Readable, Resolve;
    var r := Resolve(w.meta, e.path);
    if r.Ok? && r.value.File? && PutOn(h, w.reg, e.node, e.data).Ok? {
      PutKeepsReadable(h, w.reg, e.node, e.data, n, c);
      UpsertKeepsReplicas(w.meta.placements[c].replicas, e.node, n);
    }
  }

  lemma ReconcileKeepsBacked(h: Hash, w: World, f: FileId, c: ContentId, n: DeviceId)
    requires Good(w) && Backed(h, w, f, c, n)
    ensures Backed(h, Reconcile(h, w).0, f, c, n)
  {
    hide Good, Reconcile, HasReplica, SameFor;
    ReconcileSafe(h, w);
    assert KeepsGoodCopies(h, w, Reconcile(h, w).0, c);
  }

  lemma ReadKeepsBacked(h: Hash, w: World, path: string, f: FileId, c: ContentId, n: DeviceId)
    requires Backed(h, w, f, c, n)
    ensures Backed(h, ReadFile(h, w, path).0, f, c, n)
  {
    hide ReadFile;
    ReadFrame(h, w, path);
    var w' := ReadFile(h, w, path).0;
    assert SameNodes(w.meta.placements[c], w'.meta.placements[c]);
    var i :| 0 <= i < |w.meta.placements[c].replicas| && w.meta.placements[c].replicas[i].nodeId == n;
    assert w'.meta.placements[c].replicas[i].nodeId == n;
  }

  lemma EventKeepsBacked(h: Hash, w: World, e: Event, f: FileId, c: ContentId, n: DeviceId)
    requires Good(w) && Legal(w, e) && Backed(h, w, f, c, n) && Undisturbed(w, e, f, c, n)
    ensures Backed(h, After(h, w, e), f, c, n)
  {
    hide Valid, Reconcile, ReadFile, WriteFile, Committed, HasReplica, HasSingle;
    match e {
      case Edit(op) => EditKeepsFile(w.meta, op, f);
      case WriteEvent(_, _, _, _, _) => WriteKeepsBacked(h, w, e, f, c, n);
      case ReadEvent(path) => ReadKeepsBacked(h, w, path, f, c, n);
      case ReconcileEvent => ReconcileKeepsBacked(h, w, f, c, n);
      case SetOnlineEvent(_, _) =>
      case OverwriteEvent(_, _, _) =>
      case RegisterEvent(_, _) =>
    }
  }

  ghost predicate IsHistory(h: Hash, ws: seq<World>, es: seq<Event>) {
    && |ws| == |es| + 1
    && forall i :: 0 <= i < |es| ==> Legal(ws[i], es[i]) && ws[i + 1] == After(h, ws[i], es[i])
  }

  ghost predicate QuietFor(ws: seq<World>, es: seq<Event>, f: FileId, c: ContentId, n: DeviceId) {
    |ws| == |es| + 1 && forall i :: 0 <= i < |es| ==> Undisturbed(ws[i], es[i], f, c, n)
  }

  lemma {:induction false} HistoryKeepsBacked(h: Hash, ws: seq<World>, es: seq<Event>, f: FileId, c: ContentId,
                                              n: DeviceId)
    requires IsHistory(h, ws, es) && QuietFor(ws, es, f, c, n) && Good(ws[0]) && Backed(h, ws[0], f, c, n)
    ensures Good(ws[|es|]) && Backed(h, ws[|es|], f, c, n)
    decreases |es|
  {
    hide Good, Backed, After, Legal, Undisturbed;
    if es != [] {
      var k := |es| - 1;
      HistoryKeepsBacked(h, ws[..|ws| - 1], es[..k], f, c, n);
      assert Legal(ws[k], es[k]) && ws[k + 1] == After(h, ws[k], es[k]);
      EventKeepsGood(h, ws[k], es[k]);
      EventKeepsBacked(h, ws[k], es[k], f, c, n);
    }
  }

  /** Read after write: once a write from `node` commits, every later read of any path that then leads
      to the file returns bytes with the committed content identifier, and the written bytes themselves
      if the hash is injective, for as long as the file is not rewritten or removed and the node keeps
      its copy. */
  lemma ReadAfterWrite(
      h: Hash, w: World, path: string, f: FileId, data: Bytes, expected: Option<nat>, node: DeviceId, desired: nat,
      ws: seq<World>, es: seq<Event>, later: string)
    requires Good(w) && Resolve(w.meta, path) == Ok(File(f))
    requires WriteFile(h, w, path, data, expected, node, desired).1.Ok?
    requires IsHistory(h, ws, es) && ws[0] == WriteFile(h, w, path, data, expected, node, desired).0
    requires QuietFor(ws, es, f, h(data), node) && Resolve(ws[|es|].meta, later) == Ok(File(f))
    ensures
      var r := ReadFile(h, ws[|es|], later).1;
      && r.Ok? && h(r.value) == h(data)
      && ((forall a, b :: h(a) == h(b) ==> a == b) ==> r.value == data)
  {
    hide WriteFile, ReadFile, After, Resolve, Good, Backed, Legal, QuietFor;
    WriteBacks(h, w, path, data, expected, node, desired);
    var e := WriteEvent(path, data, expected, node, desired);
    assert ws[0] == After(h, w, e) by { AfterWrite(h, w, e); }
    WriteKeepsGood(h, w, e);
    HistoryKeepsBacked(h, ws, es, f, h(data), node);
    BackedReads(h, ws[|es|], f, h(data), node, later);
  }

  lemma AfterWrite(h: Hash, w: World, e: Event)
    requires e.WriteEvent?
    ensures After(h, w, e) == WriteFile(h, w, e.path, e.data, e.expected, e.node, e.desired).0
  {
  }

  // ---- from the first start ------------------------------------------------------------------------

  const EMPTY: World := World(DEFAULT_SNAPSHOT, map[])

  /** Some history of events leads here from empty metadata and an empty registry. */
  ghost predicate Reachable(h: Hash, w: World) {
    exists ws, es :: IsHistory(h, ws, es) && ws[0] == EMPTY && ws[|es|] == w
  }

  lemma {:induction false} HistoryKeepsGood(h: Hash, ws: seq<World>, es: seq<Event>)
    requires IsHistory(h, ws, es) && Good(ws[0])
    ensures Good(ws[|es|])
    decreases |es|
  {
    hide Good, After, Legal;
    if es != [] {
      var n := |es| - 1;
      assert IsHistory(h, ws[..|es|], es[..n]);
      HistoryKeepsGood(h, ws[..|es|], es[..n]);
      EventKeepsGood(h, ws[n], es[n]);
    }
  }

  /** Every reachable world is good: a rooted tree, exact retention, distinct replicas. So the
      results on reconcile passes and reads, stated for good worlds, hold in every reachable one. */
  lemma ReachableGood(h: Hash, w: World)
    requires Reachable(h, w)
    ensures Good(w)
  {
    hide Valid, After, Legal;
    DefaultValid();
    var ws, es :| IsHistory(h, ws, es) && ws[0] == EMPTY && ws[|es|] == w;
    HistoryKeepsGood(h, ws, es);
  }
}
