/** Whole reconcile passes: safety of every pass, completeness and stability of a successful one. */
module ReplicationPass {
  import opened Domain
  import opened Orders
  import opened Metadata
  import opened MetadataInvariants
  import opened Content
  import opened PlacementPolicy
  import opened Replication
  import opened ReplicationProofs

  /** Nodes are registered under their own identifier. */
  ghost predicate GoodRegistry(reg: Registry) {
    forall d :: d in reg ==> reg[d].state.deviceId == d
  }

  ghost predicate Good(w: World) {
    Valid(w.meta) && GoodRegistry(w.reg)
  }

  lemma NodeListFacts(reg: Registry)
    requires GoodRegistry(reg)
    ensures DistinctIds(NodeList(reg))
    ensures forall n :: n in NodeList(reg) <==> n.deviceId in reg && reg[n.deviceId].state == n
  {
    var ids := Listing(reg.Keys, TextLt);
    TextOrder(reg.Keys);
    ListingAscending(reg.Keys, TextLt);
    var ns := NodeList(reg);
    forall i | 0 <= i < |ids| ensures ids[i] in reg && ns[i] == reg[ids[i]].state && ns[i].deviceId == ids[i] {
      assert ids[i] in Elements(ids);
    }
    forall n: StorageNode | n.deviceId in reg && reg[n.deviceId].state == n ensures n in ns {
      assert n.deviceId in Elements(ids);
      var i :| 0 <= i < |ids| && ids[i] == n.deviceId;
      assert ns[i] == n;
    }
  }

  lemma DestinationsSafe(w: World, c: ContentId)
    requires GoodRegistry(w.reg) && c in w.meta.placements
    ensures SafeDestinations(w, c, Destinations(w, c))
  {
    NodeListFacts(w.reg);
    var p := w.meta.placements[c];
    PlacementPromise(ContentSize(w.meta, c), NodeList(w.reg), p.replicas, p.desired);
    hide DesiredNodes, Recorded, ContentSize, NodeList;
    var dests := Destinations(w, c);
    forall k | 0 <= k < |dests|
      ensures Recorded(Records(w, c), dests[k]) || (dests[k] in w.reg && w.reg[dests[k]].state.online)
    {
      assert dests[k] in dests;
    }
  }

  /** The pass has done for `c` what it can. */
  ghost predicate Settled(h: Hash, w: World, c: ContentId) {
    && c in w.meta.placements && Truthful(h, w, c)
    && (FilledUp(w, c) || FindSource(h, w.reg, c, Records(w, c)).None?)
  }

  ghost predicate FilledUp(w: World, c: ContentId)
    requires c in w.meta.placements
  {
    forall k :: 0 <= k < |Destinations(w, c)| ==> Recorded(Records(w, c), Destinations(w, c)[k])
  }

  lemma ValidFrame(w: World, w': World, c: ContentId)
    requires Good(w) && OnlyContent(w, w', c) && DistinctNodes(Records(w', c))
    ensures Good(w')
  {
    assert ShapeOf(w'.meta) == ShapeOf(w.meta);
  }

  lemma RefreshKeepsGood(h: Hash, w: World, c: ContentId)
    requires Good(w) && Retained(w.meta, c) && c in w.meta.placements
    ensures
      var w1 := Refreshed(h, w, c);
      && Good(w1) && OnlyContent(w, w1, c) && w1.reg == w.reg && w1.meta.revision == w.meta.revision + 1
      && LoopReady(h, w1, c, Destinations(w1, c))
      && forall d :: HasReplica(Records(w, c), d) ==> HasReplica(Records(w1, c), d)
  {
    RefreshExact(h, w, c);
    RefreshTruthful(h, w, c);
    var w1 := Refreshed(h, w, c);
    forall d | HasReplica(Records(w, c), d) ensures HasReplica(Records(w1, c), d) {
      var i :| 0 <= i < |Records(w, c)| && Records(w, c)[i].nodeId == d;
      assert Records(w1, c)[i].nodeId == d;
    }
    hide Refreshed, Valid, Destinations, Truthful, HasReplica;
    ValidFrame(w, w1, c);
    RetainedFrame(w, w1, c, c);
    DestinationsSafe(w1, c);
  }

  // ---- one content -----------------------------------------------------------------------------------

  /** Repair of one content, successful or not, is framed and loses no good recorded copy. */
  lemma ContentSafe(h: Hash, w: World, c: ContentId)
    requires Good(w) && Retained(w.meta, c)
    ensures
      var p := ReconcileContent(h, w, c);
      && Good(p.world) && OnlyContent(w, p.world, c)
      && KeepsGoodCopies(h, w, p.world, c) && HealthyIsTrue(h, p.world, c)
      && p.world.meta.revision == w.meta.revision + 1 + p.created
  {
    RetainedMeansLive(w.meta, c);
    RefreshKeepsGood(h, w, c);
    hide Valid, Retained, Refreshed, Destinations, Holds, HasReplica, HealthyIsTrue, LoopReady, DistinctNodes;
    var w1 := Refreshed(h, w, c);
    CopyLoopSafe(h, w1, c, Destinations(w1, c));
    var p := ReconcileContent(h, w, c);
    OnlyContentTransitive(w, w1, p.world, c);
    ValidFrame(w, p.world, c);
    KeepsTransitive(h, w, w1, p.world, c);
  }

  lemma SameDestinations(w: World, w': World, c: ContentId)
    requires Good(w) && OnlyContent(w, w', c)
    requires forall x :: Recorded(Records(w', c), x) <==> x in Destinations(w, c)
    ensures FilledUp(w', c)
  {
    NodeListFacts(w.reg);
    NodeListFrame(w, w', c);
    RetainedFrame(w, w', c, c);
    hide Valid, ContentSize, NodeList, DesiredNodes, Recorded;
    var p := w.meta.placements[c];
    PlacementSettles(ContentSize(w.meta, c), NodeList(w.reg), p.replicas, Records(w', c), p.desired);
    forall k | 0 <= k < |Destinations(w', c)| ensures Recorded(Records(w', c), Destinations(w', c)[k]) {
      assert Destinations(w', c)[k] in Destinations(w', c);
    }
  }

  /** A successful repair of one content leaves it settled. */
  lemma ContentSettles(h: Hash, w: World, c: ContentId)
    requires Good(w) && Retained(w.meta, c) && ReconcileContent(h, w, c).error.None?
    ensures Settled(h, ReconcileContent(h, w, c).world, c)
  {
    RetainedMeansLive(w.meta, c);
    RefreshKeepsGood(h, w, c);
    hide Valid, Refreshed, Retained, LoopReady, Truthful, Recorded, HasReplica, OnlyContent, DistinctNodes;
    var w1 := Refreshed(h, w, c);
    var dests := Destinations(w1, c);
    CopyLoopSafe(h, w1, c, dests);
    CopyLoopSettles(h, w1, c, dests);
    var w' := ReconcileContent(h, w, c).world;
    if FindSource(h, w'.reg, c, Records(w', c)).Some? {
      PresentAreDestinations(w1, c);
      forall x ensures Recorded(Records(w', c), x) <==> x in dests {
        if x in dests {
          var k :| 0 <= k < |dests| && dests[k] == x;
        }
      }
      SameDestinations(w1, w', c);
    }
  }

  lemma PresentAreDestinations(w: World, c: ContentId)
    requires GoodRegistry(w.reg) && c in w.meta.placements
    ensures forall x :: Recorded(Records(w, c), x) ==> x in Destinations(w, c)
  {
    NodeListFacts(w.reg);
    var p := w.meta.placements[c];
    PlacementPromise(ContentSize(w.meta, c), NodeList(w.reg), p.replicas, p.desired);
    hide DesiredNodes, Recorded, ContentSize, NodeList;
  }

  /** Reconciling a settled content changes nothing but the revision. */
  lemma SettledIdle(h: Hash, w: World, c: ContentId)
    requires Good(w) && Retained(w.meta, c) && Settled(h, w, c)
    ensures ReconcileContent(h, w, c) == Pass(w.(meta := w.meta.(revision := w.meta.revision + 1)), 0, None)
  {
    RefreshExact(h, w, c);
    var w1 := Refreshed(h, w, c);
    assert Records(w1, c) == Records(w, c);
    assert w1 == w.(meta := w.meta.(revision := w.meta.revision + 1)) by {
      assert w1.meta.placements == w.meta.placements;
    }
    hide Refreshed, Valid, Retained, Truthful, Recorded, DesiredNodes, NodeList;
    RetainedFrame(w, w1, c, c);
    assert Destinations(w1, c) == Destinations(w, c);
    CopyLoopIdle(h, w1, c, Destinations(w1, c));
  }

  // ---- repairing one content does not disturb another ----------------------------------------------------

  ghost predicate SameFor(w: World, w': World, c: ContentId) {
    && (c in w.meta.placements <==> c in w'.meta.placements)
    && (c in w.meta.placements ==> w'.meta.placements[c] == w.meta.placements[c])
    && w'.reg.Keys == w.reg.Keys
    && forall d :: d in w.reg ==> SameBlob(w.reg[d], w'.reg[d], c)
  }

  ghost predicate SameBlob(n: Node, n': Node, c: ContentId) {
    && n'.state == n.state
    && (c in n.blobs <==> c in n'.blobs)
    && (c in n.blobs ==> n'.blobs[c] == n.blobs[c])
  }

  lemma OthersSame(w: World, w': World, x: ContentId, c: ContentId)
    requires OnlyContent(w, w', x) && c != x
    ensures SameFor(w, w', c)
  {
    forall d | d in w.reg ensures SameBlob(w.reg[d], w'.reg[d], c) {
      assert c in w.reg[d].blobs - {x} <==> c in w.reg[d].blobs;
      assert c in w'.reg[d].blobs - {x} <==> c in w'.reg[d].blobs;
      assert c in w.reg[d].blobs ==> (w.reg[d].blobs - {x})[c] == w.reg[d].blobs[c];
      assert c in w'.reg[d].blobs ==> (w'.reg[d].blobs - {x})[c] == w'.reg[d].blobs[c];
    }
  }

  lemma {:induction false} FindSourceFrame(h: Hash, w: World, w': World, c: ContentId, rs: seq<Replica>)
    requires SameFor(w, w', c)
    ensures FindSource(h, w'.reg, c, rs) == FindSource(h, w.reg, c, rs)
  {
    if rs != [] {
      FindSourceFrame(h, w, w', c, rs[1..]);
      if rs[0].nodeId in w.reg { assert SameBlob(w.reg[rs[0].nodeId], w'.reg[rs[0].nodeId], c); }
    }
  }

  lemma ObserveFrame(h: Hash, w: World, w': World, c: ContentId, r: Replica)
    requires SameFor(w, w', c)
    ensures Observe(h, w'.reg, c, r) == Observe(h, w.reg, c, r)
  {
    if r.nodeId in w.reg { assert SameBlob(w.reg[r.nodeId], w'.reg[r.nodeId], c); }
  }

  lemma SettledFrame(h: Hash, w: World, w': World, x: ContentId, c: ContentId)
    requires OnlyContent(w, w', x) && c != x && Settled(h, w, c)
    ensures Settled(h, w', c)
  {
    OthersSame(w, w', x, c);
    FindSourceFrame(h, w, w', c, Records(w, c));
    assert Truthful(h, w', c) by {
      forall i | 0 <= i < |Records(w', c)| ensures Records(w', c)[i].state == Observe(h, w'.reg, c, Records(w', c)[i]) {
        ObserveFrame(h, w, w', c, Records(w, c)[i]);
      }
    }
    hide Truthful, ContentSize, NodeList, DesiredNodes, Recorded, FindSource, OnlyContent;
    RetainedFrame(w, w', x, c);
    NodeListFrame(w, w', x);
    assert Destinations(w', c) == Destinations(w, c);
  }

  // ---- whole passes -----------------------------------------------------------------------------------

  /** A pass edits replica records and blobs only. */
  ghost predicate PassFrame(w: World, w': World) {
    && w'.meta == w.meta.(placements := w'.meta.placements, revision := w'.meta.revision)
    && w'.meta.placements.Keys == w.meta.placements.Keys
    && w'.reg.Keys == w.reg.Keys
    && forall d :: d in w.reg ==> w'.reg[d].state == w.reg[d].state && w'.reg[d].capacity == w.reg[d].capacity
  }

  lemma PassFrameRetained(w: World, w': World, c: ContentId)
    requires PassFrame(w, w')
    ensures Retained(w'.meta, c) <==> Retained(w.meta, c)
  {
  }

  lemma OnlyContentPassFrame(w: World, w': World, c: ContentId)
    requires OnlyContent(w, w', c)
    ensures PassFrame(w, w')
  {
  }

  ghost predicate AllRetained(w: World, cs: seq<ContentId>) {
    forall k :: 0 <= k < |cs| ==> Retained(w.meta, cs[k])
  }

  /** No blob of a recorded copy that verifies is changed, whatever the content. */
  ghost predicate NothingGoodLost(h: Hash, w: World, w': World) {
    forall c :: c in w.meta.placements ==>
      && c in w'.meta.placements && KeepsGoodCopies(h, w, w', c)
      && forall d :: HasReplica(Records(w, c), d) ==> HasReplica(Records(w', c), d)
  }

  lemma NothingLostStep(h: Hash, w: World, w': World, x: ContentId)
    requires OnlyContent(w, w', x) && KeepsGoodCopies(h, w, w', x)
    requires forall d :: HasReplica(Records(w, x), d) ==> HasReplica(Records(w', x), d)
    ensures NothingGoodLost(h, w, w')
  {
    forall c | c in w.meta.placements
      ensures c in w'.meta.placements && KeepsGoodCopies(h, w, w', c)
      ensures forall d :: HasReplica(Records(w, c), d) ==> HasReplica(Records(w', c), d)
    {
      if c != x {
        OthersSame(w, w', x, c);
        forall d | HasReplica(Records(w, c), d) && Holds(h, w.reg, d, c)
          ensures c in w'.reg[d].blobs && w'.reg[d].blobs[c] == w.reg[d].blobs[c]
        {
          assert SameBlob(w.reg[d], w'.reg[d], c);
        }
      }
    }
  }

  lemma NothingLostTransitive(h: Hash, w: World, w1: World, w2: World)
    requires NothingGoodLost(h, w, w1) && NothingGoodLost(h, w1, w2)
    ensures NothingGoodLost(h, w, w2)
  {
    hide HasReplica, Holds;
    forall c | c in w.meta.placements
      ensures c in w2.meta.placements && KeepsGoodCopies(h, w, w2, c)
      ensures forall d :: HasReplica(Records(w, c), d) ==> HasReplica(Records(w2, c), d)
    {
      KeepsTransitive(h, w, w1, w2, c);
    }
  }

  /** Records stay where they are; repair only ever turns a record healthy. */
  ghost predicate Repaired(rs: seq<Replica>, rs': seq<Replica>) {
    && |rs| <= |rs'|
    && forall i :: 0 <= i < |rs| ==> rs'[i].nodeId == rs[i].nodeId && (rs'[i] == rs[i] || rs'[i].state.Healthy?)
  }

  lemma UpsertRepairs(rs: seq<Replica>, d: DeviceId)
    requires DistinctNodes(rs)
    ensures Repaired(rs, UpsertState(rs, d, Healthy))
  {
    UpsertExact(rs, d, Healthy);
  }

  lemma {:induction false} LoopRepairs(h: Hash, w: World, c: ContentId, dests: seq<DeviceId>)
    requires LoopReady(h, w, c, dests)
    ensures c in CopyLoop(h, w, c, dests).world.meta.placements
    ensures Repaired(Records(w, c), Records(CopyLoop(h, w, c, dests).world, c))
    decreases |dests|
  {
    hide CopyTo, Retained, Recorded, OnlyContent, Truthful, DistinctNodes;
    if dests != [] {
      TailReady(h, w, c, dests);
      if Recorded(Records(w, c), dests[0]) {
        LoopRepairs(h, w, c, dests[1..]);
      } else {
        FindSourceGood(h, w.reg, c, Records(w, c));
        var source := FindSource(h, w.reg, c, Records(w, c));
        if source.Some? {
          var step := CopyTo(h, w, c, dests[0], source.value.1);
          if step.error.Some? {
            FailedCopyHealthy(h, w, c, dests[0], source.value.1);
          } else {
            CopyStepReady(h, w, c, dests, source.value.1);
            CopyToTruthful(h, w, c, dests[0], source.value.1);
            UpsertRepairs(Records(w, c), dests[0]);
            LoopRepairs(h, step.world, c, dests[1..]);
          }
        }
      }
    }
  }

  /** Each record keeps its place and ends as observed at the start, or healthy. */
  lemma ContentRepairs(h: Hash, w: World, c: ContentId, i: nat)
    requires Good(w) && Retained(w.meta, c) && c in w.meta.placements && i < |Records(w, c)|
    ensures c in ReconcileContent(h, w, c).world.meta.placements
    ensures
      var rs, rs' := Records(w, c), Records(ReconcileContent(h, w, c).world, c);
      && i < |rs'| && rs'[i].nodeId == rs[i].nodeId
      && (rs'[i].state == Observe(h, w.reg, c, rs[i]) || rs'[i].state.Healthy?)
  {
    RefreshKeepsGood(h, w, c);
    RefreshExact(h, w, c);
    hide Valid, Retained, Refreshed, Destinations, LoopReady, OnlyContent;
    var w1 := Refreshed(h, w, c);
    LoopRepairs(h, w1, c, Destinations(w1, c));
  }

  lemma ContentKeepsRecords(h: Hash, w: World, c: ContentId)
    requires Good(w) && Retained(w.meta, c)
    ensures c in w.meta.placements && c in ReconcileContent(h, w, c).world.meta.placements
    ensures forall d :: HasReplica(Records(w, c), d) ==> HasReplica(Records(ReconcileContent(h, w, c).world, c), d)
  {
    RetainedMeansLive(w.meta, c);
    ContentSafe(h, w, c);
    hide Good, Retained, ReconcileContent;
    forall d | HasReplica(Records(w, c), d) ensures HasReplica(Records(ReconcileContent(h, w, c).world, c), d) {
      var i :| 0 <= i < |Records(w, c)| && Records(w, c)[i].nodeId == d;
      ContentRepairs(h, w, c, i);
    }
  }

  /** Every pass, successful or aborted, keeps the invariant, its frame and every good recorded copy. */
  lemma {:induction false} PassSafe(h: Hash, w: World, cs: seq<ContentId>)
    requires Good(w) && AllRetained(w, cs)
    ensures
      var w' := ReconcileAll(h, w, cs).0;
      && Good(w') && PassFrame(w, w') && NothingGoodLost(h, w, w')
      && (forall c :: c !in cs ==> SameFor(w, w', c))
      && NoFalseHealth(h, w, w')
    decreases |cs|
  {
    hide Valid, GoodRegistry, Retained, ReconcileContent, KeepsGoodCopies, HasReplica, HealthyIsTrue, SameFor;
    if cs != [] {
      assert forall c :: c in cs <==> c == cs[0] || c in cs[1..];
      var p := ReconcileContent(h, w, cs[0]);
      ContentSafe(h, w, cs[0]);
      ContentKeepsRecords(h, w, cs[0]);
      NothingLostStep(h, w, p.world, cs[0]);
      OnlyContentPassFrame(w, p.world, cs[0]);
      forall c | c != cs[0] ensures SameFor(w, p.world, c) { OthersSame(w, p.world, cs[0], c); }
      if p.error.None? {
        forall k | 0 <= k < |cs[1..]| ensures Retained(p.world.meta, cs[1..][k]) {
          PassFrameRetained(w, p.world, cs[k + 1]);
        }
        PassSafe(h, p.world, cs[1..]);
        NothingLostTransitive(h, w, p.world, ReconcileAll(h, w, cs).0);
        SameForTransitive(w, p.world, ReconcileAll(h, w, cs).0);
        NoFalseHealthStep(h, w, p.world, ReconcileAll(h, w, cs).0, cs[0]);
      }
    } else {
      NothingLostSelf(h, w);
    }
  }

  /** Every content is as it was, or each of its records that claims health verifies. */
  ghost predicate NoFalseHealth(h: Hash, w: World, w': World) {
    forall c :: c in w.meta.placements ==> SameFor(w, w', c) || HealthyIsTrue(h, w', c)
  }

  lemma NoFalseHealthStep(h: Hash, w: World, w1: World, w2: World, x: ContentId)
    requires HealthyIsTrue(h, w1, x) && NoFalseHealth(h, w1, w2) && w1.meta.placements.Keys == w.meta.placements.Keys
    requires forall c :: c != x ==> SameFor(w, w1, c)
    ensures NoFalseHealth(h, w, w2)
  {
    SameForTransitive(w, w1, w2);
    hide SameFor, HealthyIsTrue;
    if SameFor(w1, w2, x) {
      HealthyFrame(h, w1, w2, x);
    }
  }

  lemma HealthyFrame(h: Hash, w: World, w': World, c: ContentId)
    requires HealthyIsTrue(h, w, c) && SameFor(w, w', c)
    ensures HealthyIsTrue(h, w', c)
  {
    forall i | 0 <= i < |Records(w', c)| && Records(w', c)[i].state.Healthy?
      ensures Holds(h, w'.reg, Records(w', c)[i].nodeId, c) && w'.reg[Records(w', c)[i].nodeId].state.online
    {
      var d := Records(w, c)[i].nodeId;
      assert SameBlob(w.reg[d], w'.reg[d], c);
    }
  }

  lemma NothingLostSelf(h: Hash, w: World)
    ensures NothingGoodLost(h, w, w) && NoFalseHealth(h, w, w) && forall c :: SameFor(w, w, c)
  {
  }

  lemma SameForTransitive(w: World, w1: World, w2: World)
    ensures forall c :: SameFor(w, w1, c) && SameFor(w1, w2, c) ==> SameFor(w, w2, c)
  {
    forall c | SameFor(w, w1, c) && SameFor(w1, w2, c) ensures SameFor(w, w2, c) {
      forall d | d in w.reg ensures SameBlob(w.reg[d], w2.reg[d], c) {
        assert SameBlob(w.reg[d], w1.reg[d], c) && SameBlob(w1.reg[d], w2.reg[d], c);
      }
    }
  }
}
