/** Repair never loses good bytes, a pass settles what it can, and a second pass changes nothing. */
module ReplicationProofs {
  import opened Domain
  import opened Orders
  import opened Metadata
  import opened MetadataInvariants
  import opened Content
  import opened PlacementPolicy
  import opened Replication

  // ---- replica lists ---------------------------------------------------------------------------

  lemma {:induction false} SetStateExact(rs: seq<Replica>, k: nat, state: ReplicaState)
    requires DistinctNodes(rs) && k < |rs|
    ensures SetState(rs, rs[k].nodeId, state) == rs[k := Replica(rs[k].nodeId, state)]
  {
    if k > 0 {
      assert rs[0].nodeId != rs[k].nodeId;
      SetStateExact(rs[1..], k - 1, state);
      assert rs == [rs[0]] + rs[1..];
    }
  }

  ghost predicate AlignedStates(rs: seq<Replica>, states: seq<(DeviceId, ReplicaState)>) {
    |states| == |rs| && forall i :: 0 <= i < |rs| ==> states[i].0 == rs[i].nodeId
  }

  /** With distinct nodes, merging one observation per record rewrites every record once. */
  lemma {:induction false} SetStatesExact(rs: seq<Replica>, states: seq<(DeviceId, ReplicaState)>, k: nat)
    requires DistinctNodes(rs) && AlignedStates(rs, states) && k <= |rs|
    ensures
      var r := SetStates(rs, states[k..]);
      forall i :: 0 <= i < |rs| ==> r[i] == if i < k then rs[i] else Replica(rs[i].nodeId, states[i].1)
    decreases |rs| - k
  {
    if k < |rs| {
      SetStateExact(rs, k, states[k].1);
      var rs1 := SetState(rs, states[k].0, states[k].1);
      assert states[k..][1..] == states[k + 1..];
      SetStatesExact(rs1, states, k + 1);
    }
  }

  /** With distinct nodes, an upsert writes one record and leaves the others alone. */
  lemma UpsertExact(rs: seq<Replica>, d: DeviceId, state: ReplicaState)
    requires DistinctNodes(rs)
    ensures
      var r := UpsertState(rs, d, state);
      && |rs| <= |r| && DistinctNodes(r) && HasReplica(r, d)
      && (forall i :: 0 <= i < |r| && r[i].nodeId == d ==> r[i].state == state)
      && (forall i :: 0 <= i < |r| && r[i].nodeId != d ==> i < |rs| && r[i] == rs[i])
      && (forall i :: 0 <= i < |rs| && rs[i].nodeId != d ==> r[i] == rs[i])
  {
    UpsertDistinct(rs, d, state);
    if HasReplica(rs, d) {
      var k :| 0 <= k < |rs| && rs[k].nodeId == d;
      SetStateExact(rs, k, state);
      assert UpsertState(rs, d, state)[k].nodeId == d;
    } else {
      assert UpsertState(rs, d, state)[|rs|].nodeId == d;
    }
  }

  lemma UpsertRecorded(rs: seq<Replica>, d: DeviceId, x: DeviceId)
    requires DistinctNodes(rs)
    ensures Recorded(UpsertState(rs, d, Healthy), x) <==> x == d || Recorded(rs, x)
  {
    UpsertExact(rs, d, Healthy);
    var r := UpsertState(rs, d, Healthy);
    if x == d {
      var i :| 0 <= i < |r| && r[i].nodeId == d;
      assert r[i].state.Present();
    } else {
      if Recorded(rs, x) {
        var i :| 0 <= i < |rs| && rs[i].nodeId == x && rs[i].state.Present();
        assert r[i] == rs[i];
      }
      if Recorded(r, x) {
        var i :| 0 <= i < |r| && r[i].nodeId == x && r[i].state.Present();
        assert r[i] == rs[i];
      }
    }
  }

  // ---- frames ------------------------------------------------------------------------------------

  /** Only the replica records and the blobs of `c` may differ. */
  ghost predicate OnlyContent(w: World, w': World, c: ContentId) {
    && c in w.meta.placements && c in w'.meta.placements
    && w.meta.revision <= w'.meta.revision
    && w'.meta == WithReplicas(w.meta, c, w'.meta.placements[c].replicas).(revision := w'.meta.revision)
    && SameNodesExcept(w.reg, w'.reg, c)
  }

  ghost predicate SameNodesExcept(reg: Registry, reg': Registry, c: ContentId) {
    && reg'.Keys == reg.Keys
    && forall d :: d in reg ==>
      && reg'[d].state == reg[d].state && reg'[d].capacity == reg[d].capacity
      && reg'[d].blobs - {c} == reg[d].blobs - {c}
  }

  function Records(w: World, c: ContentId): seq<Replica>
    requires c in w.meta.placements
  {
    w.meta.placements[c].replicas
  }

  lemma OnlyContentTransitive(w: World, w1: World, w2: World, c: ContentId)
    requires OnlyContent(w, w1, c) && OnlyContent(w1, w2, c)
    ensures OnlyContent(w, w2, c)
  {
  }

  lemma RetainedFrame(w: World, w': World, c: ContentId, x: ContentId)
    requires OnlyContent(w, w', c)
    ensures Retained(w'.meta, x) <==> Retained(w.meta, x)
    ensures ContentSize(w'.meta, x) == ContentSize(w.meta, x)
    ensures w'.meta.placements[c].desired == w.meta.placements[c].desired
    ensures w'.meta.placements[c].contentId == w.meta.placements[c].contentId
  {
  }

  lemma NodeListFrame(w: World, w': World, c: ContentId)
    requires OnlyContent(w, w', c)
    ensures NodeList(w'.reg) == NodeList(w.reg)
  {
    var ids := Listing(w.reg.Keys, TextLt);
    forall i | 0 <= i < |ids| ensures w'.reg[ids[i]].state == w.reg[ids[i]].state {
      assert ids[i] in Elements(ids);
    }
  }

  // ---- truthful records ----------------------------------------------------------------------------

  /** Every record of `c` says what an observer would say now. */
  ghost predicate Truthful(h: Hash, w: World, c: ContentId) {
    && c in w.meta.placements
    && forall i :: 0 <= i < |Records(w, c)| ==> Records(w, c)[i].state == Observe(h, w.reg, c, Records(w, c)[i])
  }

  /** The node holds bytes of `c` that verify. */
  predicate Holds(h: Hash, reg: Registry, d: DeviceId, c: ContentId) {
    d in reg && Matches(h, reg[d].blobs, c)
  }

  /** Every record that claims health is on an online node whose bytes verify. */
  ghost predicate HealthyIsTrue(h: Hash, w: World, c: ContentId) {
    && c in w.meta.placements
    && forall i :: 0 <= i < |Records(w, c)| && Records(w, c)[i].state.Healthy? ==>
      Holds(h, w.reg, Records(w, c)[i].nodeId, c) && w.reg[Records(w, c)[i].nodeId].state.online
  }

  lemma TruthfulHealthy(h: Hash, w: World, c: ContentId)
    requires Truthful(h, w, c)
    ensures HealthyIsTrue(h, w, c)
  {
  }

  lemma RefreshExact(h: Hash, w: World, c: ContentId)
    requires Valid(w.meta) && Retained(w.meta, c) && c in w.meta.placements
    ensures
      var w', rs := Refreshed(h, w, c), Records(w, c);
      && c in w'.meta.placements && w'.meta.revision == w.meta.revision + 1
      && OnlyContent(w, w', c) && w'.reg == w.reg
      && |Records(w', c)| == |rs|
      && forall i :: 0 <= i < |rs| ==> Records(w', c)[i] == Replica(rs[i].nodeId, Observe(h, w.reg, c, rs[i]))
  {
    var rs := Records(w, c);
    var states := Observed(h, w.reg, c, rs);
    SetStatesExact(rs, states, 0);
    assert states[0..] == states;
  }

  lemma RefreshTruthful(h: Hash, w: World, c: ContentId)
    requires Valid(w.meta) && Retained(w.meta, c) && c in w.meta.placements
    ensures Truthful(h, Refreshed(h, w, c), c)
    ensures DistinctNodes(Records(Refreshed(h, w, c), c))
  {
    RefreshExact(h, w, c);
  }

  // ---- one copy --------------------------------------------------------------------------------------

  lemma FindSourceGood(h: Hash, reg: Registry, c: ContentId, rs: seq<Replica>)
    ensures FindSource(h, reg, c, rs).Some? ==> h(FindSource(h, reg, c, rs).value.1) == c
    ensures FindSource(h, reg, c, rs).Some? ==>
      exists i :: 0 <= i < |rs| && rs[i] == Replica(FindSource(h, reg, c, rs).value.0, Healthy)
    ensures FindSource(h, reg, c, rs).None? <==> forall i :: 0 <= i < |rs| ==> !GoodSource(h, reg, c, rs[i])
  {
    if rs != [] {
      FindSourceGood(h, reg, c, rs[1..]);
      assert forall i :: 0 < i < |rs| ==> rs[1..][i - 1] == rs[i];
      if FindSource(h, reg, c, rs[1..]).Some? && !GoodSource(h, reg, c, rs[0]) {
        var i :| 0 <= i < |rs[1..]| && rs[1..][i] == Replica(FindSource(h, reg, c, rs[1..]).value.0, Healthy);
        assert rs[i + 1] == Replica(FindSource(h, reg, c, rs).value.0, Healthy);
      }
    }
  }

  /** A replica to copy from: recorded healthy, online, bytes verify. */
  predicate GoodSource(h: Hash, reg: Registry, c: ContentId, r: Replica) {
    r.state.Healthy? && Holds(h, reg, r.nodeId, c) && reg[r.nodeId].state.online
  }

  /** Blobs of `c` away from `d` are untouched. */
  ghost predicate OnlyAt(reg: Registry, reg': Registry, d: DeviceId, c: ContentId) {
    SameNodesExcept(reg, reg', c) && forall x :: x in reg && x != d ==> reg'[x] == reg[x]
  }

  lemma OneObjectChanged(reg: Registry, d: DeviceId, c: ContentId, n: Node)
    requires d in reg && n.state == reg[d].state && n.capacity == reg[d].capacity && n.blobs - {c} == reg[d].blobs - {c}
    ensures OnlyAt(reg, reg[d := n], d, c)
  {
  }

  /** Dropping a copy and writing it afresh touches one object on one node. */
  lemma RewriteStores(h: Hash, reg: Registry, c: ContentId, d: DeviceId, bytes: Bytes)
    requires d in reg && h(bytes) == c
    ensures OnlyAt(reg, Without(reg, d, c), d, c)
    ensures
      var put := PutOn(h, Without(reg, d, c), d, bytes);
      put.Ok? ==> OnlyAt(reg, put.value, d, c) && Holds(h, put.value, d, c) && put.value[d].state.online
  {
    hide Put, Used, Matches, OnlyAt;
    var cleared := Without(reg, d, c);
    assert cleared[d].blobs - {c} == reg[d].blobs - {c};
    OneObjectChanged(reg, d, c, cleared[d]);
    if PutOn(h, cleared, d, bytes).Ok? {
      PutPromise(h, cleared[d], bytes);
      var n := Put(h, cleared[d], bytes).value;
      OneObjectChanged(reg, d, c, n);
      assert cleared[d := n] == reg[d := n];
    }
  }

  lemma CopyToStores(h: Hash, w: World, c: ContentId, d: DeviceId, bytes: Bytes)
    requires Retained(w.meta, c) && c in w.meta.placements && h(bytes) == c
    ensures
      var p := CopyTo(h, w, c, d, bytes);
      && OnlyAt(w.reg, p.world.reg, d, c)
      && (p.error.Some? ==> p.created == 0 && p.world.meta == w.meta)
      && (p.error.None? ==>
        && p.created == 1 && Holds(h, p.world.reg, d, c) && p.world.reg[d].state.online
        && p.world.meta == Committed(w.meta, Upsert(c, d, Healthy)))
  {
    hide Committed, Retained, PutOn, Without, Matches;
    if d in w.reg {
      RewriteStores(h, w.reg, c, d, bytes);
    }
  }

  lemma UpsertCommit(w: World, c: ContentId, d: DeviceId)
    requires Retained(w.meta, c) && c in w.meta.placements
    ensures
      var s := Committed(w.meta, Upsert(c, d, Healthy));
      s == WithReplicas(w.meta, c, UpsertState(Records(w, c), d, Healthy)).(revision := w.meta.revision + 1)
  {
  }

  lemma CopyToFrame(h: Hash, w: World, c: ContentId, d: DeviceId, bytes: Bytes)
    requires Retained(w.meta, c) && c in w.meta.placements && h(bytes) == c
    ensures OnlyContent(w, CopyTo(h, w, c, d, bytes).world, c)
  {
    hide CopyTo, Committed;
    CopyToStores(h, w, c, d, bytes);
    UpsertCommit(w, c, d);
  }

  lemma CopyToTruthful(h: Hash, w: World, c: ContentId, d: DeviceId, bytes: Bytes)
    requires Retained(w.meta, c) && Truthful(h, w, c) && DistinctNodes(Records(w, c)) && h(bytes) == c
    requires CopyTo(h, w, c, d, bytes).error.None?
    ensures
      var w' := CopyTo(h, w, c, d, bytes).world;
      && Truthful(h, w', c) && Records(w', c) == UpsertState(Records(w, c), d, Healthy)
      && DistinctNodes(Records(w', c))
  {
    hide CopyTo, Committed;
    CopyToStores(h, w, c, d, bytes);
    UpsertCommit(w, c, d);
    UpsertExact(Records(w, c), d, Healthy);
    hide Retained, OnlyAt;
    var w' := CopyTo(h, w, c, d, bytes).world;
    var r := Records(w', c);
    forall i | 0 <= i < |r| ensures r[i].state == Observe(h, w'.reg, c, r[i]) {
      if r[i].nodeId != d {
        SameObservation(h, w.reg, w'.reg, d, c, r[i]);
        assert r[i] == Records(w, c)[i];
      }
    }
  }

  lemma SameObservation(h: Hash, reg: Registry, reg': Registry, d: DeviceId, c: ContentId, r: Replica)
    requires OnlyAt(reg, reg', d, c) && r.nodeId != d
    ensures Observe(h, reg', c, r) == Observe(h, reg, c, r)
  {
  }

  // ---- the copy loop -------------------------------------------------------------------------------

  /** Destinations are recorded present or online. */
  ghost predicate SafeDestinations(w: World, c: ContentId, dests: seq<DeviceId>) {
    && c in w.meta.placements
    && forall k :: 0 <= k < |dests| ==>
      Recorded(Records(w, c), dests[k]) || (dests[k] in w.reg && w.reg[dests[k]].state.online)
  }

  ghost predicate LoopReady(h: Hash, w: World, c: ContentId, dests: seq<DeviceId>) {
    && Retained(w.meta, c) && Truthful(h, w, c) && DistinctNodes(Records(w, c)) && SafeDestinations(w, c, dests)
  }

  /** The loop never touches a recorded copy that verifies. */
  ghost predicate KeepsGoodCopies(h: Hash, w: World, w': World, c: ContentId) {
    && c in w.meta.placements
    && forall d :: HasReplica(Records(w, c), d) && Holds(h, w.reg, d, c) ==>
      d in w'.reg && c in w'.reg[d].blobs && w'.reg[d].blobs[c] == w.reg[d].blobs[c]
  }

  lemma CopyStepReady(h: Hash, w: World, c: ContentId, dests: seq<DeviceId>, bytes: Bytes)
    requires dests != [] && LoopReady(h, w, c, dests) && h(bytes) == c
    requires CopyTo(h, w, c, dests[0], bytes).error.None?
    ensures
      var w' := CopyTo(h, w, c, dests[0], bytes).world;
      && OnlyContent(w, w', c) && LoopReady(h, w', c, dests[1..])
      && forall x :: Recorded(Records(w', c), x) <==> x == dests[0] || Recorded(Records(w, c), x)
  {
    hide CopyTo, Truthful, DistinctNodes, Recorded, OnlyContent;
    var w' := CopyTo(h, w, c, dests[0], bytes).world;
    CopyToFrame(h, w, c, dests[0], bytes);
    CopyToTruthful(h, w, c, dests[0], bytes);
    RetainedFrame(w, w', c, c);
    FrameOnline(w, w', c);
    forall x ensures Recorded(Records(w', c), x) <==> x == dests[0] || Recorded(Records(w, c), x) {
      UpsertRecorded(Records(w, c), dests[0], x);
    }
  }

  lemma FrameOnline(w: World, w': World, c: ContentId)
    requires OnlyContent(w, w', c)
    ensures c in w.meta.placements && c in w'.meta.placements
    ensures w'.reg.Keys == w.reg.Keys && forall d :: d in w.reg ==> w'.reg[d].state == w.reg[d].state
  {
  }

  /** A copy writes over nothing that is recorded and verifies: the destination is online, and an
      online recorded copy that verifies would have been observed healthy. */
  lemma CopyKeepsGood(h: Hash, w: World, c: ContentId, d: DeviceId, bytes: Bytes)
    requires Retained(w.meta, c) && Truthful(h, w, c) && h(bytes) == c && !Recorded(Records(w, c), d)
    requires d in w.reg && w.reg[d].state.online
    ensures KeepsGoodCopies(h, w, CopyTo(h, w, c, d, bytes).world, c)
  {
    CopyToStores(h, w, c, d, bytes);
    hide CopyTo;
  }

  lemma KeepsTransitive(h: Hash, w: World, w1: World, w2: World, c: ContentId)
    requires KeepsGoodCopies(h, w, w1, c) && KeepsGoodCopies(h, w1, w2, c)
    requires forall d :: HasReplica(Records(w, c), d) ==> HasReplica(Records(w1, c), d)
    ensures KeepsGoodCopies(h, w, w2, c)
  {
  }

  lemma UpsertKeepsReplicas(rs: seq<Replica>, d: DeviceId, x: DeviceId)
    requires HasReplica(rs, x)
    ensures HasReplica(UpsertState(rs, d, Healthy), x)
  {
    var i :| 0 <= i < |rs| && rs[i].nodeId == x;
    assert UpsertState(rs, d, Healthy)[i].nodeId == x;
  }

  /** Whatever stops the loop, the frame holds and no good recorded copy is lost. */
  lemma {:induction false} CopyLoopSafe(h: Hash, w: World, c: ContentId, dests: seq<DeviceId>)
    requires LoopReady(h, w, c, dests)
    ensures
      var p := CopyLoop(h, w, c, dests);
      && OnlyContent(w, p.world, c) && KeepsGoodCopies(h, w, p.world, c) && HealthyIsTrue(h, p.world, c)
      && p.world.meta.revision == w.meta.revision + p.created && DistinctNodes(Records(p.world, c))
    decreases |dests|
  {
    hide CopyTo, Retained, Recorded, HasReplica, Holds, KeepsGoodCopies, Truthful, HealthyIsTrue, DistinctNodes;
    hide SameNodesExcept;
    OnlyContentSelf(h, w, c);
    TruthfulHealthy(h, w, c);
    if dests != [] {
      TailReady(h, w, c, dests);
      if Recorded(Records(w, c), dests[0]) {
        CopyLoopSafe(h, w, c, dests[1..]);
      } else {
        FindSourceGood(h, w.reg, c, Records(w, c));
        var source := FindSource(h, w.reg, c, Records(w, c));
        if source.Some? {
          var step := CopyTo(h, w, c, dests[0], source.value.1);
          CopyToFrame(h, w, c, dests[0], source.value.1);
          CopyKeepsGood(h, w, c, dests[0], source.value.1);
          if step.error.Some? {
            FailedCopyHealthy(h, w, c, dests[0], source.value.1);
          } else {
            CopyStepReady(h, w, c, dests, source.value.1);
            CopyRevision(h, w, c, dests[0], source.value.1);
            CopyLoopSafe(h, step.world, c, dests[1..]);
            OnlyContentTransitive(w, step.world, CopyLoop(h, step.world, c, dests[1..]).world, c);
            KeepsTransitive(h, w, step.world, CopyLoop(h, step.world, c, dests[1..]).world, c);
          }
        }
      }
    }
  }

  lemma CopyRevision(h: Hash, w: World, c: ContentId, d: DeviceId, bytes: Bytes)
    requires Retained(w.meta, c) && c in w.meta.placements && h(bytes) == c && CopyTo(h, w, c, d, bytes).error.None?
    ensures CopyTo(h, w, c, d, bytes).world.meta.revision == w.meta.revision + 1
    ensures c in CopyTo(h, w, c, d, bytes).world.meta.placements
    ensures forall x :: HasReplica(Records(w, c), x) ==> HasReplica(Records(CopyTo(h, w, c, d, bytes).world, c), x)
  {
    CopyToStores(h, w, c, d, bytes);
    UpsertCommit(w, c, d);
    hide CopyTo, Committed, HasReplica;
    forall x | HasReplica(Records(w, c), x) ensures HasReplica(Records(CopyTo(h, w, c, d, bytes).world, c), x) {
      UpsertKeepsReplicas(Records(w, c), d, x);
    }
  }

  lemma OnlyContentSelf(h: Hash, w: World, c: ContentId)
    requires c in w.meta.placements
    ensures OnlyContent(w, w, c) && KeepsGoodCopies(h, w, w, c)
  {
  }

  lemma TailReady(h: Hash, w: World, c: ContentId, dests: seq<DeviceId>)
    requires dests != [] && LoopReady(h, w, c, dests)
    ensures LoopReady(h, w, c, dests[1..])
    ensures Recorded(Records(w, c), dests[0]) || (dests[0] in w.reg && w.reg[dests[0]].state.online)
  {
    hide Retained, Recorded, Truthful, DistinctNodes;
  }

  lemma FailedCopyHealthy(h: Hash, w: World, c: ContentId, d: DeviceId, bytes: Bytes)
    requires Retained(w.meta, c) && Truthful(h, w, c) && h(bytes) == c && !Recorded(Records(w, c), d)
    requires CopyTo(h, w, c, d, bytes).error.Some?
    ensures HealthyIsTrue(h, CopyTo(h, w, c, d, bytes).world, c)
    ensures CopyTo(h, w, c, d, bytes).world.meta == w.meta && CopyTo(h, w, c, d, bytes).created == 0
  {
    CopyToStores(h, w, c, d, bytes);
    hide CopyTo;
    TruthfulHealthy(h, w, c);
  }

  /** A loop that ends without error has filled its destinations or has nothing left to copy from. */
  lemma {:induction false} CopyLoopSettles(h: Hash, w: World, c: ContentId, dests: seq<DeviceId>)
    requires LoopReady(h, w, c, dests) && CopyLoop(h, w, c, dests).error.None?
    ensures
      var w' := CopyLoop(h, w, c, dests).world;
      && Truthful(h, w', c) && DistinctNodes(Records(w', c))
      && (forall x :: Recorded(Records(w, c), x) ==> Recorded(Records(w', c), x))
      && (forall x :: Recorded(Records(w', c), x) ==> Recorded(Records(w, c), x) || x in dests)
      && ((forall k :: 0 <= k < |dests| ==> Recorded(Records(w', c), dests[k])) ||
        FindSource(h, w'.reg, c, Records(w', c)).None?)
    decreases |dests|
  {
    hide CopyTo, Retained, Recorded, OnlyContent, Truthful, DistinctNodes;
    if dests != [] {
      TailReady(h, w, c, dests);
      assert forall x :: x in dests <==> x == dests[0] || x in dests[1..];
      if Recorded(Records(w, c), dests[0]) {
        CopyLoopSettles(h, w, c, dests[1..]);
      } else {
        FindSourceGood(h, w.reg, c, Records(w, c));
        var source := FindSource(h, w.reg, c, Records(w, c));
        if source.Some? {
          CopyStepReady(h, w, c, dests, source.value.1);
          CopyLoopSettles(h, CopyTo(h, w, c, dests[0], source.value.1).world, c, dests[1..]);
        }
      }
    }
  }

  /** Filled destinations, or no source: the loop does nothing. */
  lemma {:induction false} CopyLoopIdle(h: Hash, w: World, c: ContentId, dests: seq<DeviceId>)
    requires Retained(w.meta, c) && c in w.meta.placements
    requires (forall k :: 0 <= k < |dests| ==> Recorded(Records(w, c), dests[k])) ||
      FindSource(h, w.reg, c, Records(w, c)).None?
    ensures CopyLoop(h, w, c, dests) == Pass(w, 0, None)
    decreases |dests|
  {
    hide Retained, Recorded, CopyTo;
    if dests != [] {
      assert forall k :: 0 <= k < |dests[1..]| ==> dests[1..][k] == dests[k + 1];
      CopyLoopIdle(h, w, c, dests[1..]);
    }
  }
}
