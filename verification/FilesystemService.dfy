/** The file service as an object: the write sequence and the replica-by-replica read loop.

    As in `Reconciler`, no other client commits in between, so one round of a retry loop suffices. */
module FilesystemService {
  import opened Domain
  import opened Metadata
  import opened Content
  import opened Replication
  import opened Namespace
  import opened Reconciler
  import Paths
  import Service

  class FilesystemClient {
    const metadata: MetadataStore
    const registry: ContentRegistry
    const desired: nat

    constructor (metadata: MetadataStore, registry: ContentRegistry, desired: nat)
      ensures this.metadata == metadata && this.registry == registry && this.desired == desired
    {
      this.metadata := metadata;
      this.registry := registry;
      this.desired := desired;
    }

    ghost function Here(): World
      reads metadata, registry
    {
      World(metadata.state, registry.nodes)
    }

    method ResolvePath(path: string) returns (r: Result<Target>)
      ensures r == Resolve(metadata.state, path)
    {
      var parsed := Paths.Parse(path);
      if parsed.Err? { return Err(parsed.error); }
      r := ResolveComponents(metadata.state, parsed.value);
    }

    /** Store the blob, edit the loaded metadata, swap it in. */
    method Write(path: string, data: Bytes, expected: Option<nat>, node: DeviceId) returns (r: Result<FileMetadata>)
      modifies metadata, registry
      ensures (Here(), r) == Service.WriteFile(registry.hash, old(Here()), path, data, expected, node, desired)
    {
      var target := ResolvePath(path);
      if target.Err? { return Err(target.error); }
      if target.value.Directory? { return Err(IsDirectory); }
      var f := target.value.file;
      var stored := registry.Store(node, data);
      if stored.Err? { return Err(stored.error); }
      var loaded := metadata.state;
      var edited := ComputeWrite(Op.Write(f, stored.value, |data|, expected, node, desired), loaded);
      if edited.Err? { return Err(edited.error); }
      var _ := metadata.CompareAndSwap(edited.value);
      return Ok(edited.value.files[f]);
    }

    /** Tries the replicas in order, marking each, until one verifies. */
    method ReadContent(c: ContentId, rs: seq<Replica>) returns (found: Option<Bytes>)
      modifies metadata
      ensures (metadata.state, found) == Service.ReadReplicas(registry.hash, registry.nodes, old(metadata.state), c, rs)
    {
      var k := 0;
      while k < |rs|
        invariant 0 <= k <= |rs|
        invariant Service.ReadReplicas(registry.hash, registry.nodes, old(metadata.state), c, rs)
               == Service.ReadReplicas(registry.hash, registry.nodes, metadata.state, c, rs[k..])
      {
        hide Committed;
        assert rs[k..][0] == rs[k] && rs[k..][1..] == rs[k + 1..];
        var d := rs[k].nodeId;
        var state := Service.ReadMark(registry.hash, registry.nodes, c, d);
        var _ := Round(metadata, Mark(c, d, state));
        if state.Healthy? { return Some(registry.nodes[d].blobs[c]); }
        k := k + 1;
      }
      return None;
    }

    /** Reads the chunks of a manifest one after the other. */
    method ReadManifest(chunks: seq<Chunk>) returns (r: Result<Bytes>)
      modifies metadata
      ensures (metadata.state, r) ==
        Service.ReadChunks(registry.hash, registry.nodes, old(metadata.state), old(metadata.state), chunks)
    {
      var loaded := metadata.state;
      ghost var all := Service.ReadChunks(registry.hash, registry.nodes, loaded, loaded, chunks);
      var data := [];
      var k := 0;
      assert chunks[0..] == chunks;
      ContinuesStart(all);
      while k < |chunks|
        invariant 0 <= k <= |chunks|
        invariant Continues(all, data,
          Service.ReadChunks(registry.hash, registry.nodes, loaded, metadata.state, chunks[k..]))
      {
        hide Service.ReadReplicas;
        assert chunks[k..][0] == chunks[k] && chunks[k..][1..] == chunks[k + 1..];
        var c := chunks[k].contentId;
        if c !in loaded.placements { return Err(ContentUnavailable); }
        var found := ReadContent(c, loaded.placements[c].replicas);
        if found.None? { return Err(ContentUnavailable); }
        ghost var rest := Service.ReadChunks(registry.hash, registry.nodes, loaded, metadata.state, chunks[k + 1..]);
        ContinuesStep(all, data, found.value, rest);
        data := data + found.value;
        k := k + 1;
      }
      assert chunks[k..] == [] && data + [] == data;
      return Ok(data);
    }

    method Read(path: string) returns (r: Result<Bytes>)
      modifies metadata
      ensures (Here(), r) == Service.ReadFile(registry.hash, old(Here()), path)
    {
      var target := ResolvePath(path);
      if target.Err? { return Err(target.error); }
      if target.value.Directory? { return Err(IsDirectory); }
      var f := target.value.file;
      if f !in metadata.state.files { return Err(MetadataUnavailable); }
      var manifest := metadata.state.files[f].manifest;
      if manifest.None? { return Ok([]); }
      r := ReadManifest(manifest.value.chunks);
    }
  }

  /** `all` is the data read so far followed by the outcome of the remaining chunks. */
  ghost predicate Continues(all: (Snapshot, Result<Bytes>), data: Bytes, rest: (Snapshot, Result<Bytes>)) {
    all.0 == rest.0 && all.1 == if rest.1.Ok? then Ok(data + rest.1.value) else rest.1
  }

  lemma ContinuesStart(all: (Snapshot, Result<Bytes>))
    ensures Continues(all, [], all)
  {
    if all.1.Ok? { assert [] + all.1.value == all.1.value; }
  }

  lemma ContinuesStep(all: (Snapshot, Result<Bytes>), data: Bytes, found: Bytes, rest: (Snapshot, Result<Bytes>))
    requires Continues(all, data, (rest.0, if rest.1.Ok? then Ok(found + rest.1.value) else rest.1))
    ensures Continues(all, data + found, rest)
  {
    if rest.1.Ok? { assert data + (found + rest.1.value) == data + found + rest.1.value; }
  }
}
