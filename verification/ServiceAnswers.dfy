/** What a write and a read answer, for every good world and every path. */
module ServiceAnswers {
  import opened Domain
  import Paths
  import opened Metadata
  import opened MetadataInvariants
  import opened Content
  import opened Replication
  import opened ReplicationProofs
  import opened ReplicationPass
  import opened Service

  // ---- write ---------------------------------------------------------------------------------------

  /** Why the node cannot take the object. */
  ghost function StoreProblem(h: Hash, reg: Registry, node: DeviceId, data: Bytes): Option<FsError> {
    if Fits(h, reg, node, data) then None
    else Some(if node !in reg then NodeNotFound else if !reg[node].state.online then ContentUnavailable else NoSpace)
  }

  /** Why a write must fail, if it must. */
  ghost function WriteProblem(h: Hash, w: World, path: string, data: Bytes, expected: Option<nat>, node: DeviceId)
    : Option<FsError>
  {
    match Resolve(w.meta, path)
    case Err(e) => Some(e)
    case Ok(Directory(_)) => Some(IsDirectory)
    case Ok(File(f)) =>
      if StoreProblem(h, w.reg, node, data).Some? then StoreProblem(h, w.reg, node, data)
      else if f !in w.meta.files then Some(MetadataUnavailable)
      else if expected.Some? && expected.value != w.meta.files[f].generation then Some(Conflict)
      else None
  }

  /** A file record of one chunk that holds `data`, one generation after `was`. */
  ghost predicate Rewritten(h: Hash, was: FileMetadata, now: FileMetadata, data: Bytes) {
    && now.id == was.id && now.generation == was.generation + 1 && now.size == |data|
    && now.manifest.Some? && now.manifest.value.size == |data|
    && now.manifest.value.chunks == [Chunk(h(data), 0, |data|)]
  }

  lemma StoreAnswer(h: Hash, reg: Registry, node: DeviceId, data: Bytes)
    ensures
      match PutOn(h, reg, node, data)
      case Err(e) => StoreProblem(h, reg, node, data) == Some(e)
      case Ok(_) => StoreProblem(h, reg, node, data).None?
  {
    hide PutOn, Used;
    PutFails(h, reg, node, data);
    if PutOn(h, reg, node, data).Err? {
      PutErrors(h, reg, node, data);
    }
  }

  lemma PutErrors(h: Hash, reg: Registry, node: DeviceId, data: Bytes)
    requires PutOn(h, reg, node, data).Err?
    ensures PutOn(h, reg, node, data).error in {NodeNotFound, ContentUnavailable, NoSpace}
  {
  }

  /** A write succeeds exactly if its path leads to a file, the node can take the object and the
      expected generation is absent or current, with the exact error otherwise. It then answers with
      the record it leaves: the next generation and one chunk of the data. */
  lemma WriteAnswer(h: Hash, w: World, path: string, data: Bytes, expected: Option<nat>, node: DeviceId, desired: nat)
    ensures
      var (w', r) := WriteFile(h, w, path, data, expected, node, desired);
      match r
      case Err(e) =>
        && WriteProblem(h, w, path, data, expected, node) == Some(e) && w'.meta == w.meta
        && (if Resolve(w.meta, path).Ok? && Resolve(w.meta, path).value.File? && Fits(h, w.reg, node, data)
            then Holds(h, w'.reg, node, h(data)) else w' == w)
      case Ok(record) =>
        && WriteProblem(h, w, path, data, expected, node).None?
        && Resolve(w.meta, path).Ok? && Resolve(w.meta, path).value.File?
        && var f := Resolve(w.meta, path).value.file;
          && f in w.meta.files && Rewritten(h, w.meta.files[f], record, data)
          && w'.meta.files == w.meta.files[f := record]
          && w'.meta.entries == w.meta.entries && w'.meta.directories == w.meta.directories
          && w'.meta.root == w.meta.root && w'.meta.revision == w.meta.revision + 1
          && h(data) in w'.meta.placements && w'.meta.placements[h(data)].desired == desired
          && w'.meta.placements - {h(data)} == w.meta.placements - {h(data)}
          && Holds(h, w'.reg, node, h(data))
  {
    hide Resolve, PutOn, StoreProblem, MarkGarbage, UpsertState;
    StoreAnswer(h, w.reg, node, data);
    PutFails(h, w.reg, node, data);
    if PutOn(h, w.reg, node, data).Ok? {
      PutIsThere(h, w.reg, node, data);
    }
  }

  lemma PutIsThere(h: Hash, reg: Registry, node: DeviceId, data: Bytes)
    requires PutOn(h, reg, node, data).Ok?
    ensures Holds(h, PutOn(h, reg, node, data).value, node, h(data))
  {
    PutPromise(h, reg[node], data);
  }

  /** The answer can guard the next write: with nothing in between it is not refused as outdated, and
      it succeeds if its node can take the object. */
  lemma AnswerGuardsNext(
      h: Hash, w: World, path: string, data: Bytes, expected: Option<nat>, node: DeviceId, desired: nat,
      next: Bytes, other: DeviceId)
    requires WriteFile(h, w, path, data, expected, node, desired).1.Ok?
    ensures
      var (w', r) := WriteFile(h, w, path, data, expected, node, desired);
      var again := WriteFile(h, w', path, next, Some(r.value.generation), other, desired).1;
      && (again.Ok? <==> Fits(h, w'.reg, other, next))
      && (again.Err? ==> again.error != Conflict)
  {
    WriteAnswer(h, w, path, data, expected, node, desired);
    var (w', r) := WriteFile(h, w, path, data, expected, node, desired);
    WriteAnswer(h, w', path, next, Some(r.value.generation), other, desired);
    hide WriteFile, Fits;
  }

  // ---- read ----------------------------------------------------------------------------------------

  /** The first recorded copy that can be read right now. */
  ghost predicate FirstReadable(h: Hash, reg: Registry, c: ContentId, rs: seq<Replica>, i: nat) {
    && i < |rs| && Readable(h, reg, rs[i].nodeId, c)
    && forall j :: 0 <= j < i ==> !Readable(h, reg, rs[j].nodeId, c)
  }

  /** The replicas are tried in recorded order: the bytes are those of the first that verifies. */
  lemma {:induction false} ReplicasAnswer(h: Hash, reg: Registry, s: Snapshot, c: ContentId, rs: seq<Replica>)
    ensures
      match ReadReplicas(h, reg, s, c, rs).1
      case None => forall i :: 0 <= i < |rs| ==> !Readable(h, reg, rs[i].nodeId, c)
      case Some(bytes) => exists i: nat :: FirstReadable(h, reg, c, rs, i) && bytes == reg[rs[i].nodeId].blobs[c]
    decreases |rs|
  {
    hide Committed;
    if rs != [] {
      var d := rs[0].nodeId;
      var marked := Committed(s, Mark(c, d, ReadMark(h, reg, c, d)));
      assert Readable(h, reg, d, c) <==> ReadMark(h, reg, c, d).Healthy?;
      if Readable(h, reg, d, c) {
        assert FirstReadable(h, reg, c, rs, 0);
      } else {
        ReplicasAnswer(h, reg, marked, c, rs[1..]);
        match ReadReplicas(h, reg, marked, c, rs[1..]).1 {
          case None =>
            forall i | 0 <= i < |rs| ensures !Readable(h, reg, rs[i].nodeId, c) {
              assert i > 0 ==> rs[i] == rs[1..][i - 1];
            }
          case Some(bytes) =>
            var i: nat :| FirstReadable(h, reg, c, rs[1..], i) && bytes == reg[rs[1..][i].nodeId].blobs[c];
            assert FirstReadable(h, reg, c, rs, i + 1) by {
              assert forall j :: 0 < j < |rs| ==> rs[j] == rs[1..][j - 1];
            }
        }
      }
    }
  }

  /** What a read must answer. */
  ghost predicate ReadMeans(h: Hash, w: World, path: string, r: Result<Bytes>) {
    match Resolve(w.meta, path)
    case Err(e) => r == Err(e)
    case Ok(Directory(_)) => r == Err(IsDirectory)
    case Ok(File(f)) =>
      && f in w.meta.files
      && match w.meta.files[f].manifest
         case None => r == Ok([])
         case Some(m) => |m.chunks| == 1 && ContentMeans(h, w, m.chunks[0].contentId, r)
  }

  ghost predicate ContentMeans(h: Hash, w: World, c: ContentId, r: Result<Bytes>) {
    && c in w.meta.placements
    && var rs := w.meta.placements[c].replicas;
      match r
      case Err(e) => e == ContentUnavailable && forall i :: 0 <= i < |rs| ==> !Readable(h, w.reg, rs[i].nodeId, c)
      case Ok(bytes) =>
        && h(bytes) == c
        && exists i: nat :: FirstReadable(h, w.reg, c, rs, i) && bytes == w.reg[rs[i].nodeId].blobs[c]
  }

  lemma OneChunkAnswer(h: Hash, w: World, chunks: seq<Chunk>)
    requires |chunks| == 1 && chunks[0].contentId in w.meta.placements
    ensures ContentMeans(h, w, chunks[0].contentId, ReadChunks(h, w.reg, w.meta, w.meta, chunks).1)
  {
    var c := chunks[0].contentId;
    var rs := w.meta.placements[c].replicas;
    ReplicasAnswer(h, w.reg, w.meta, c, rs);
    hide ReadReplicas;
    assert chunks[1..] == [];
    var (s1, found) := ReadReplicas(h, w.reg, w.meta, c, rs);
    assert ReadChunks(h, w.reg, w.meta, s1, chunks[1..]) == (s1, Ok([]));
    if found.Some? {
      assert found.value + [] == found.value;
    }
  }

  /** The exact answer of a read: the error of the path, nothing for a file never written, otherwise the
      bytes of the first recorded copy that verifies, or ContentUnavailable if there is none. */
  lemma ReadAnswer(h: Hash, w: World, path: string)
    requires Good(w)
    ensures ReadMeans(h, w, path, ReadFile(h, w, path).1)
  {
    var t := Resolve(w.meta, path);
    if t.Ok? && t.value.File? {
      ResolvedKnown(w.meta, path);
      var f := t.value.file;
      if w.meta.files[f].manifest.Some? {
        var chunks := w.meta.files[f].manifest.value.chunks;
        OneChunkPlaced(w, f);
        hide Good, ReadChunks, Resolve;
        OneChunkAnswer(h, w, chunks);
      }
    }
  }

  lemma ResolvedKnown(s: Snapshot, path: string)
    requires Valid(s) && Resolve(s, path).Ok? && Resolve(s, path).value.File?
    ensures Resolve(s, path).value.file in s.files
  {
    WalkKnown(s, Paths.Parse(path).value);
  }

  lemma OneChunkPlaced(w: World, f: FileId)
    requires Good(w) && f in w.meta.files && w.meta.files[f].manifest.Some?
    ensures
      var chunks := w.meta.files[f].manifest.value.chunks;
      |chunks| == 1 && chunks[0].contentId in w.meta.placements
  {
    var chunks := w.meta.files[f].manifest.value.chunks;
    assert GoodFile(w.meta.files[f]);
    assert References(w.meta.files[f], chunks[0].contentId);
  }
}
