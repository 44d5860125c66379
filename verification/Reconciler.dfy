/** The reconciler as an object, running against an otherwise quiet store.

    Each method is the loop that the service runs; its contract equates the new state with the
    functional pass whose properties are proved in `ReplicationTheorems`. With no other client the
    first load-edit-swap round of a retry loop always succeeds, so one round is run here; rounds
    under interference are the subject of `Namespace.MetadataClient.Mutate` and of `Concurrency`. */
module Reconciler {
  import opened Domain
  import opened Orders
  import opened Metadata
  import opened Content
  import opened PlacementPolicy
  import opened Replication
  import opened Namespace

  method Round(store: MetadataStore, op: Op) returns (r: Outcome)
    requires IsRecordOp(op)
    modifies store
    ensures r == Apply(op, old(store.state)) && store.state == Committed(old(store.state), op)
  {
    var loaded := store.state;
    r := ComputeRecordEdit(op, loaded);
    if r.Commit? {
      RecordEditKeepsRevision(op, loaded);
      var _ := store.CompareAndSwap(r.next);
    }
  }

  lemma RecordEditKeepsRevision(op: Op, s: Snapshot)
    requires IsRecordOp(op) && Apply(op, s).Commit?
    ensures Apply(op, s).next.revision == s.revision
  {
  }

  /** Size of the content in the first file, by identifier, that references it. */
  method ComputeContentSize(s: Snapshot, c: ContentId) returns (size: nat)
    ensures size == ContentSize(s, c)
  {
    var lt := (a: FileId, b: FileId) => a < b;
    var refs := set f | f in s.files && References(s.files[f], c);
    assert refs == Referencing(s.files, c);
    var fs := Collect(refs, lt);
    if fs == [] { return 0; }
    assert fs[0] in Elements(fs);
    var chunks := s.files[fs[0]].manifest.value.chunks;
    var k := 0;
    while k < |chunks|
      invariant 0 <= k <= |chunks|
      invariant ChunkSize(chunks, c) == ChunkSize(chunks[k..], c)
    {
      if chunks[k].contentId == c { return chunks[k].size; }
      k := k + 1;
    }
    return 0;
  }

  class ReplicationReconciler {
    const metadata: MetadataStore
    const registry: ContentRegistry

    constructor (metadata: MetadataStore, registry: ContentRegistry)
      ensures this.metadata == metadata && this.registry == registry
    {
      this.metadata := metadata;
      this.registry := registry;
    }

    ghost function Here(): World
      reads metadata, registry
    {
      World(metadata.state, registry.nodes)
    }

    method RefreshReplicaStates(p: Placement) returns (states: seq<(DeviceId, ReplicaState)>)
      ensures states == Observed(registry.hash, registry.nodes, p.contentId, p.replicas)
    {
      states := [];
      var k := 0;
      while k < |p.replicas|
        invariant 0 <= k <= |p.replicas|
        invariant states == Observed(registry.hash, registry.nodes, p.contentId, p.replicas)[..k]
      {
        var r := p.replicas[k];
        var state;
        if r.nodeId !in registry.nodes {
          state := Missing;
        } else {
          var node := registry.nodes[r.nodeId];
          if !node.state.online {
            state := if r.state.Missing? || r.state.Corrupted? then r.state else Offline;
          } else if p.contentId !in node.blobs {
            state := Missing;
          } else if registry.hash(node.blobs[p.contentId]) == p.contentId {
            state := Healthy;
          } else {
            state := Corrupted;
          }
        }
        states := states + [(r.nodeId, state)];
        k := k + 1;
      }
    }

    method FindCopySource(c: ContentId, rs: seq<Replica>) returns (r: Option<(DeviceId, Bytes)>)
      ensures r == FindSource(registry.hash, registry.nodes, c, rs)
    {
      var k := 0;
      while k < |rs|
        invariant 0 <= k <= |rs|
        invariant FindSource(registry.hash, registry.nodes, c, rs) ==
          FindSource(registry.hash, registry.nodes, c, rs[k..])
      {
        if rs[k].state.Healthy? {
          var got := GetFrom(registry.nodes, rs[k].nodeId, c);
          if got.Ok? && registry.hash(got.value) == c { return Some((rs[k].nodeId, got.value)); }
        }
        assert rs[k..][1..] == rs[k + 1..];
        k := k + 1;
      }
      return None;
    }

    method ListNodes() returns (nodes: seq<StorageNode>)
      ensures nodes == NodeList(registry.nodes)
    {
      hide StrictOrderOn, TextLt;
      TextOrder(registry.nodes.Keys);
      var ids := Collect(registry.nodes.Keys, TextLt);
      nodes := [];
      var k := 0;
      while k < |ids|
        invariant 0 <= k <= |ids| && nodes == NodeList(registry.nodes)[..k]
      {
        assert ids[k] in Elements(ids);
        nodes := nodes + [registry.nodes[ids[k]].state];
        k := k + 1;
      }
    }

    /** Copies to one destination: clear what is there, store, verify the identifier, record. */
    method CopyOne(c: ContentId, d: DeviceId, bytes: Bytes) returns (r: Option<FsError>)
      modifies metadata, registry
      ensures
        var p := CopyTo(registry.hash, old(Here()), c, d, bytes);
        Here() == p.world && r == p.error
    {
      if d !in registry.nodes { return Some(NodeNotFound); }
      registry.Delete(d, c);
      var stored := registry.Store(d, bytes);
      if stored.Err? { return Some(stored.error); }
      if stored.value != c { return Some(Storage); }
      var _ := Round(metadata, Upsert(c, d, Healthy));
      return None;
    }

    /** The destination loop, with its early exits. */
    method CopyAll(c: ContentId, dests: seq<DeviceId>) returns (created: nat, error: Option<FsError>)
      modifies metadata, registry
      ensures CopyLoop(registry.hash, old(Here()), c, dests) == Pass(Here(), created, error)
    {
      ghost var start := Here();
      created := 0;
      var k := 0;
      while k < |dests|
        invariant 0 <= k <= |dests|
        invariant
          var rest := CopyLoop(registry.hash, Here(), c, dests[k..]);
          CopyLoop(registry.hash, start, c, dests) == rest.(created := rest.created + created)
      {
        hide CopyTo, Recorded;
        assert dests[k..][0] == dests[k] && dests[k..][1..] == dests[k + 1..];
        var s := metadata.state;
        if !Retained(s, c) { return created, None; }
        if c !in s.placements { return created, Some(ContentUnavailable); }
        var rs := s.placements[c].replicas;
        if !Recorded(rs, dests[k]) {
          var source := FindCopySource(c, rs);
          if source.None? { return created, None; }
          var failed := CopyOne(c, dests[k], source.value.1);
          if failed.Some? {
            CopyToCreates(registry.hash, World(s, registry.nodes), c, dests[k], source.value.1);
            return created, failed;
          }
          created := created + 1;
        }
        k := k + 1;
      }
      return created, None;
    }

    /** Refresh, choose destinations, copy. */
    method ReconcileOne(c: ContentId) returns (created: nat, error: Option<FsError>)
      modifies metadata, registry
      ensures Replication.ReconcileContent(registry.hash, old(Here()), c) == Pass(Here(), created, error)
    {
      var s := metadata.state;
      if !Retained(s, c) { return 0, None; }
      if c !in s.placements { return 0, Some(ContentUnavailable); }
      var states := RefreshReplicaStates(s.placements[c]);
      var _ := Round(metadata, Refresh(c, states));
      var refreshed := metadata.state.placements[c];
      var nodes := ListNodes();
      var size := ComputeContentSize(metadata.state, c);
      var dests := ComputeDesiredNodes(size, nodes, refreshed.replicas, refreshed.desired);
      created, error := CopyAll(c, dests);
    }

    /** The content loop of a pass, which stops at the first error. */
    method VisitAll(cs: seq<ContentId>) returns (report: Report, error: Option<FsError>)
      modifies metadata, registry
      ensures
        var all := ReconcileAll(registry.hash, old(Here()), cs);
        && Here() == all.0 && error == all.2
        && (error.None? ==> report == all.1)
    {
      hide Replication.ReconcileContent, Retained, ReconcileAll, Extends, Degraded;
      ghost var all := ReconcileAll(registry.hash, Here(), cs);
      var created, degraded, k := 0, [], 0;
      assert cs[0..] == cs;
      ExtendsStart(all);
      while k < |cs|
        invariant 0 <= k <= |cs|
        invariant Extends(all, created, degraded, ReconcileAll(registry.hash, Here(), cs[k..]))
      {
        ExtendsStep(registry.hash, all, created, degraded, Here(), cs[k..]);
        assert cs[k..][0] == cs[k] && cs[k..][1..] == cs[k + 1..];
        var made, failed := ReconcileOne(cs[k]);
        if failed.Some? { return Report(created, degraded), failed; }
        created := created + made;
        if ReportedDegraded(metadata.state, cs[k]) { degraded := degraded + [cs[k]]; }
        k := k + 1;
      }
      assert cs[k..] == [];
      ExtendsEnd(registry.hash, all, created, degraded, Here());
      return Report(created, degraded), None;
    }

    /** One pass over the retained contents in identifier order. */
    method ReconcilePass() returns (report: Report, error: Option<FsError>)
      modifies metadata, registry
      ensures
        var all := Replication.Reconcile(registry.hash, old(Here()));
        && Here() == all.0 && error == all.2
        && (error.None? ==> report == all.1)
    {
      hide Retained, RetainedIds, ReconcileAll;
      var ids := RetainedContentIds(metadata.state);
      SameRetained(metadata.state, ids);
      TextOrder(ids);
      var cs := Collect(ids, TextLt);
      report, error := VisitAll(cs);
    }
  }

  lemma ExtendsStart(all: (World, Report, Option<FsError>))
    ensures Extends(all, 0, [], all)
  {
    assert [] + all.1.degraded == all.1.degraded;
  }

  lemma ExtendsEnd(h: Hash, all: (World, Report, Option<FsError>), created: nat, degraded: seq<ContentId>, w: World)
    requires Extends(all, created, degraded, ReconcileAll(h, w, []))
    ensures all == (w, Report(created, degraded), None)
  {
    assert degraded + [] == degraded;
  }

  lemma CopyToCreates(h: Hash, w: World, c: ContentId, d: DeviceId, bytes: Bytes)
    ensures CopyTo(h, w, c, d, bytes).created == if CopyTo(h, w, c, d, bytes).error.None? then 1 else 0
  {
  }

  lemma SameRetained(s: Snapshot, ids: set<ContentId>)
    requires forall c :: c in ids <==> Retained(s, c)
    ensures ids == RetainedIds(s)
  {
    forall c ensures c in ids <==> c in RetainedIds(s) { RetainedIdsMeans(s, c); }
  }

  /** `all` is what was already reported, followed by the pass over the rest. */
  ghost predicate Extends(all: (World, Report, Option<FsError>), created: nat, degraded: seq<ContentId>,
                          rest: (World, Report, Option<FsError>)) {
    && all.0 == rest.0 && all.2 == rest.2
    && (rest.2.None? ==> all.1 == Report(created + rest.1.created, degraded + rest.1.degraded))
  }

  lemma ExtendsStep(h: Hash, all: (World, Report, Option<FsError>), created: nat, degraded: seq<ContentId>,
                    w: World, cs: seq<ContentId>)
    requires cs != [] && Extends(all, created, degraded, ReconcileAll(h, w, cs))
    ensures
      var p := Replication.ReconcileContent(h, w, cs[0]);
      && (p.error.Some? ==> all.0 == p.world && all.2 == p.error)
      && (p.error.None? ==>
        Extends(all, created + p.created,
                if ReportedDegraded(p.world.meta, cs[0]) then degraded + [cs[0]] else degraded,
                ReconcileAll(h, p.world, cs[1..])))
  {
    hide Replication.ReconcileContent, ReportedDegraded;
    var p := Replication.ReconcileContent(h, w, cs[0]);
    if p.error.None? {
      var rest := ReconcileAll(h, p.world, cs[1..]);
      assert degraded + ([cs[0]] + rest.1.degraded) == degraded + [cs[0]] + rest.1.degraded;
      assert degraded + ([] + rest.1.degraded) == degraded + rest.1.degraded;
    }
  }
}
