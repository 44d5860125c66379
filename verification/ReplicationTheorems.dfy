/** What a reconcile pass promises: safety, completeness, an exact report, and a fixpoint. */
module ReplicationTheorems {
  import opened Domain
  import opened Orders
  import opened MetadataInvariants
  import opened Content
  import opened PlacementPolicy
  import opened Replication
  import opened ReplicationProofs
  import opened ReplicationPass

  lemma PassTailReady(h: Hash, w: World, cs: seq<ContentId>)
    requires Good(w) && cs != [] && AllRetained(w, cs)
    ensures
      var p := ReconcileContent(h, w, cs[0]);
      Good(p.world) && OnlyContent(w, p.world, cs[0]) && PassFrame(w, p.world) && AllRetained(p.world, cs[1..])
  {
    hide Valid, Retained, ReconcileContent, KeepsGoodCopies, HealthyIsTrue;
    var p := ReconcileContent(h, w, cs[0]);
    ContentSafe(h, w, cs[0]);
    OnlyContentPassFrame(w, p.world, cs[0]);
    forall k | 0 <= k < |cs[1..]| ensures Retained(p.world.meta, cs[1..][k]) {
      PassFrameRetained(w, p.world, cs[k + 1]);
    }
  }

  lemma {:induction false} SettledThroughPass(h: Hash, w: World, cs: seq<ContentId>, c: ContentId)
    requires Good(w) && AllRetained(w, cs) && c !in cs && Settled(h, w, c)
    ensures Settled(h, ReconcileAll(h, w, cs).0, c)
    decreases |cs|
  {
    hide Good, Retained, ReconcileContent, Settled, OnlyContent;
    if cs != [] {
      PassTailReady(h, w, cs);
      var p := ReconcileContent(h, w, cs[0]);
      SettledFrame(h, w, p.world, cs[0], c);
      if p.error.None? {
        SettledThroughPass(h, p.world, cs[1..], c);
      }
    }
  }

  /** A successful pass leaves every content it visited settled. */
  lemma {:induction false} PassSettles(h: Hash, w: World, cs: seq<ContentId>, c: ContentId)
    requires Good(w) && AllRetained(w, cs) && NoDuplicates(cs) && ReconcileAll(h, w, cs).2.None? && c in cs
    ensures Settled(h, ReconcileAll(h, w, cs).0, c)
    decreases |cs|
  {
    hide Good, Retained, ReconcileContent, Settled, OnlyContent;
    PassTailReady(h, w, cs);
    var p := ReconcileContent(h, w, cs[0]);
    if c == cs[0] {
      ContentSettles(h, w, c);
      SettledThroughPass(h, p.world, cs[1..], c);
    } else {
      assert c in cs[1..];
      PassSettles(h, p.world, cs[1..], c);
    }
  }

  function DegradedOf(s: Snapshot, cs: seq<ContentId>): seq<ContentId> {
    if cs == [] then []
    else (if ReportedDegraded(s, cs[0]) then [cs[0]] else []) + DegradedOf(s, cs[1..])
  }

  lemma {:induction false} DegradedOfMeans(s: Snapshot, cs: seq<ContentId>, c: ContentId)
    ensures c in DegradedOf(s, cs) <==> c in cs && ReportedDegraded(s, c)
  {
    if cs != [] {
      DegradedOfMeans(s, cs[1..], c);
      assert cs == [cs[0]] + cs[1..];
    }
  }

  /** The report lists exactly the contents that are degraded in the final state. */
  lemma {:induction false} PassReports(h: Hash, w: World, cs: seq<ContentId>)
    requires Good(w) && AllRetained(w, cs) && NoDuplicates(cs) && ReconcileAll(h, w, cs).2.None?
    ensures ReconcileAll(h, w, cs).1.degraded == DegradedOf(ReconcileAll(h, w, cs).0.meta, cs)
    decreases |cs|
  {
    hide Good, Retained, ReconcileContent, OnlyContent, Degraded, NothingGoodLost;
    if cs != [] {
      PassTailReady(h, w, cs);
      var p, w' := ReconcileContent(h, w, cs[0]), ReconcileAll(h, w, cs).0;
      PassReports(h, p.world, cs[1..]);
      PassSafe(h, p.world, cs[1..]);
      assert SameFor(p.world, w', cs[0]);
      PassFrameRetained(p.world, w', cs[0]);
    }
  }

  /** Later(w, n) is `w` after `n` commits that changed nothing. */
  function Later(w: World, n: nat): World {
    w.(meta := w.meta.(revision := w.meta.revision + n))
  }

  lemma LaterFacts(h: Hash, w: World, c: ContentId)
    requires Good(w) && Settled(h, w, c)
    ensures Good(Later(w, 1)) && Settled(h, Later(w, 1), c)
  {
    var w' := Later(w, 1);
    assert w'.meta.placements[c := w'.meta.placements[c]] == w.meta.placements;
    assert OnlyContent(w, w', c);
    ValidFrame(w, w', c);
    hide Good, Truthful, ContentSize, NodeList, DesiredNodes, Recorded, FindSource, OnlyContent;
    RetainedFrame(w, w', c, c);
    assert Destinations(w', c) == Destinations(w, c);
    assert Truthful(h, w', c) by { TruthfulLater(h, w, c); }
  }

  lemma TruthfulLater(h: Hash, w: World, c: ContentId)
    requires Truthful(h, w, c)
    ensures Truthful(h, Later(w, 1), c)
  {
    var rs := Records(w, c);
    assert Records(Later(w, 1), c) == rs;
    forall i | 0 <= i < |rs| ensures rs[i].state == Observe(h, w.reg, c, rs[i]) {
      assert Records(w, c)[i] == rs[i];
    }
  }

  /** A pass over settled contents creates nothing and changes nothing. */
  lemma {:induction false} SettledPassIdle(h: Hash, w: World, cs: seq<ContentId>)
    requires Good(w) && AllRetained(w, cs) && forall c :: c in cs ==> Settled(h, w, c)
    ensures ReconcileAll(h, w, cs) == (Later(w, |cs|), Report(0, DegradedOf(w.meta, cs)), None)
    decreases |cs|
  {
    hide Good, Settled, ReconcileContent, Degraded;
    if cs != [] {
      var w1 := Later(w, 1);
      SettledIdle(h, w, cs[0]);
      assert forall c :: c in cs[1..] ==> c in cs;
      LaterFacts(h, w, cs[0]);
      forall c | c in cs[1..] ensures Settled(h, w1, c) { LaterFacts(h, w, c); }
      forall k | 0 <= k < |cs[1..]| ensures Retained(w1.meta, cs[1..][k]) { assert cs[1..][k] == cs[k + 1]; }
      SettledPassIdle(h, w1, cs[1..]);
      DegradedLater(w, cs[1..], 1);
    }
  }

  lemma {:induction false} DegradedLater(w: World, cs: seq<ContentId>, n: nat)
    ensures DegradedOf(Later(w, n).meta, cs) == DegradedOf(w.meta, cs)
  {
    if cs != [] {
      DegradedLater(w, cs[1..], n);
    }
  }

  lemma RetainedListing(w: World)
    ensures
      var cs := Listing(RetainedIds(w.meta), TextLt);
      && NoDuplicates(cs) && AllRetained(w, cs)
      && forall c :: c in cs <==> Retained(w.meta, c)
  {
    var ids := RetainedIds(w.meta);
    TextOrder(ids);
    ListingAscending(ids, TextLt);
    var cs := Listing(ids, TextLt);
    forall c ensures c in cs <==> Retained(w.meta, c) {
      RetainedIdsMeans(w.meta, c);
      assert c in Elements(cs) <==> c in cs;
    }
    forall k | 0 <= k < |cs| ensures Retained(w.meta, cs[k]) {
      assert cs[k] in cs;
    }
  }

  lemma SameRetainedIds(w: World, w': World)
    requires PassFrame(w, w')
    ensures RetainedIds(w'.meta) == RetainedIds(w.meta)
  {
  }

  /** Repair never destroys a good recorded copy: every pass, successful or aborted, keeps the
      metadata invariant, edits records and blobs only, changes no blob of an unretained content,
      keeps every recorded copy that verifies byte for byte, and leaves no content it touched with a
      record that claims health falsely. */
  lemma ReconcileSafe(h: Hash, w: World)
    requires Good(w)
    ensures
      var w' := Reconcile(h, w).0;
      && Good(w') && PassFrame(w, w') && NothingGoodLost(h, w, w') && NoFalseHealth(h, w, w')
      && forall c :: !Retained(w.meta, c) ==> SameFor(w, w', c)
  {
    hide Good, Retained, PassFrame, NothingGoodLost, NoFalseHealth, SameFor, ReconcileAll;
    RetainedListing(w);
    PassSafe(h, w, Listing(RetainedIds(w.meta), TextLt));
  }

  // ---- known-bad copies -------------------------------------------------------------------------------

  predicate KnownBad(r: Replica) {
    r.state.Missing? || r.state.Corrupted?
  }

  /** The record is still there, and if it was known bad and counts now, its bytes verify. */
  ghost predicate NotRevived(h: Hash, w: World, w': World, c: ContentId, i: nat)
    requires c in w.meta.placements && i < |Records(w, c)|
  {
    && c in w'.meta.placements && i < |Records(w', c)| && Records(w', c)[i].nodeId == Records(w, c)[i].nodeId
    && (KnownBad(Records(w, c)[i]) && Records(w', c)[i].state.Present() ==>
      GoodSource(h, w'.reg, c, Records(w', c)[i]))
  }

  lemma ContentNotRevived(h: Hash, w: World, c: ContentId, i: nat)
    requires Good(w) && Retained(w.meta, c) && c in w.meta.placements && i < |Records(w, c)|
    ensures NotRevived(h, w, ReconcileContent(h, w, c).world, c, i)
  {
    ContentRepairs(h, w, c, i);
    ContentSafe(h, w, c);
    hide Good, Retained, ReconcileContent;
  }

  lemma NotRevivedFrame(h: Hash, w: World, w1: World, w2: World, c: ContentId, i: nat)
    requires c in w.meta.placements && i < |Records(w, c)| && w1.reg.Keys == w2.reg.Keys
    requires (NotRevived(h, w, w1, c, i) && SameFor(w1, w2, c))
          || (SameFor(w, w1, c) && i < |Records(w1, c)| && NotRevived(h, w1, w2, c, i))
    ensures NotRevived(h, w, w2, c, i)
  {
    var d := Records(w, c)[i].nodeId;
    if d in w1.reg && NotRevived(h, w, w1, c, i) && SameFor(w1, w2, c) {
      assert SameBlob(w1.reg[d], w2.reg[d], c);
    }
  }

  lemma SameNotRevived(h: Hash, w: World, w': World, c: ContentId, i: nat)
    requires c in w.meta.placements && i < |Records(w, c)| && SameFor(w, w', c)
    ensures c in w'.meta.placements && Records(w', c) == Records(w, c) && NotRevived(h, w, w', c, i)
  {
  }

  lemma {:induction false} PassNotRevived(h: Hash, w: World, cs: seq<ContentId>, c: ContentId, i: nat)
    requires Good(w) && AllRetained(w, cs) && NoDuplicates(cs) && c in w.meta.placements && i < |Records(w, c)|
    ensures NotRevived(h, w, ReconcileAll(h, w, cs).0, c, i)
    decreases |cs|
  {
    hide Good, Retained, ReconcileContent, NotRevived, OnlyContent, PassFrame, SameFor;
    if cs == [] {
      NothingLostSelf(h, w);
      SameNotRevived(h, w, w, c, i);
    } else {
      PassTailReady(h, w, cs);
      var p, w' := ReconcileContent(h, w, cs[0]), ReconcileAll(h, w, cs).0;
      if c == cs[0] {
        ContentNotRevived(h, w, c, i);
      } else {
        OthersSame(w, p.world, cs[0], c);
        SameNotRevived(h, w, p.world, c, i);
      }
      if p.error.None? {
        PassSafe(h, p.world, cs[1..]);
        PassKeys(p.world, w');
        if c != cs[0] {
          PassNotRevived(h, p.world, cs[1..], c, i);
        }
        NotRevivedFrame(h, w, p.world, w', c, i);
      }
    }
  }

  /** A pass, finished or aborted, never counts a known-bad copy again before it verifies. */
  lemma ReconcileNeverRevives(h: Hash, w: World, c: ContentId, i: nat)
    requires Good(w) && c in w.meta.placements && i < |Records(w, c)|
    ensures NotRevived(h, w, Reconcile(h, w).0, c, i)
  {
    hide Good, Retained, ReconcileAll, NotRevived;
    RetainedListing(w);
    PassNotRevived(h, w, Listing(RetainedIds(w.meta), TextLt), c, i);
  }

  lemma PassKeys(w: World, w': World)
    requires PassFrame(w, w')
    ensures w.reg.Keys == w'.reg.Keys
  {
  }

  /** A pass that returns Ok is a fixpoint: running it again creates nothing, changes no record and
      no blob, and reports the same degraded contents. */
  lemma SecondPassIdle(h: Hash, w: World)
    requires Good(w) && Reconcile(h, w).2.None?
    ensures
      var (w1, report, _) := Reconcile(h, w);
      Reconcile(h, w1) == (Later(w1, |RetainedIds(w.meta)|), Report(0, report.degraded), None)
  {
    hide Good, Retained, RetainedIds, ReconcileAll, Settled, NothingGoodLost, SameFor;
    var cs := Listing(RetainedIds(w.meta), TextLt);
    var w1 := Reconcile(h, w).0;
    RetainedListing(w);
    PassSafe(h, w, cs);
    PassReports(h, w, cs);
    forall c | c in cs ensures Settled(h, w1, c) { PassSettles(h, w, cs, c); }
    SameRetainedIds(w, w1);
    RetainedListing(w1);
    SettledPassIdle(h, w1, cs);
  }

  // ---- completeness ---------------------------------------------------------------------------------

  lemma {:induction false} PresentCountIs(rs: seq<Replica>)
    ensures PresentCount(rs) == |PresentList(rs)|
  {
    if rs != [] { PresentCountIs(rs[1..]); }
  }

  lemma {:induction false} FewerElements(a: seq<DeviceId>)
    ensures |Elements(a)| <= |a|
  {
    if a != [] {
      FewerElements(a[1..]);
      assert a == [a[0]] + a[1..];
      assert Elements(a) == Elements(a[1..]) + {a[0]};
    }
  }

  lemma SubsetSize(a: set<DeviceId>, b: set<DeviceId>)
    requires a <= b
    ensures |a| <= |b|
  {
    assert b == a + (b - a);
  }

  /** Distinct recorded nodes are counted by the durability test. */
  lemma RecordedCount(rs: seq<Replica>, nodes: seq<DeviceId>)
    requires NoDuplicates(nodes) && forall d :: d in nodes ==> Recorded(rs, d)
    ensures |nodes| <= PresentCount(rs)
  {
    PresentCountIs(rs);
    FewerElements(PresentList(rs));
    Cardinality(nodes);
    assert Elements(nodes) <= Elements(PresentList(rs));
    SubsetSize(Elements(nodes), Elements(PresentList(rs)));
  }

  /** The online nodes with room for the content all hold a healthy recorded copy. */
  ghost predicate Saturated(w: World, c: ContentId)
    requires c in w.meta.placements
  {
    forall d :: d in w.reg && w.reg[d].state.online && w.reg[d].state.freeSpace >= ContentSize(w.meta, c) ==>
      Replica(d, Healthy) in Records(w, c)
  }

  ghost predicate NoSource(h: Hash, w: World, c: ContentId)
    requires c in w.meta.placements
  {
    forall r :: r in Records(w, c) ==> !GoodSource(h, w.reg, c, r)
  }

  lemma SettledMeans(h: Hash, w: World, c: ContentId)
    requires GoodRegistry(w.reg) && Settled(h, w, c)
    ensures !Degraded(w.meta.placements[c]) || Saturated(w, c) || NoSource(h, w, c)
  {
    var rs, p := Records(w, c), w.meta.placements[c];
    if FindSource(h, w.reg, c, rs).None? {
      FindSourceGood(h, w.reg, c, rs);
    } else {
      FilledMeans(h, w, c);
    }
  }

  lemma FilledMeans(h: Hash, w: World, c: ContentId)
    requires GoodRegistry(w.reg) && c in w.meta.placements && Truthful(h, w, c) && FilledUp(w, c)
    ensures !Degraded(w.meta.placements[c]) || Saturated(w, c)
  {
    hide DesiredNodes, NodeList, ContentSize, PresentCount, Selected, NodeLt, Truthful, GoodRegistry, Recorded;
    hide Retained;
    NodeListFacts(w.reg);
    var rs, p, dests, size := Records(w, c), w.meta.placements[c], Destinations(w, c), ContentSize(w.meta, c);
    PlacementPromise(size, NodeList(w.reg), rs, p.desired);
    forall d | d in dests ensures Recorded(rs, d) {
      var k :| 0 <= k < |dests| && dests[k] == d;
    }
    RecordedCount(rs, dests);
    if |dests| < p.desired {
      forall d | d in w.reg && w.reg[d].state.online && w.reg[d].state.freeSpace >= size
        ensures Replica(d, Healthy) in rs
      {
        assert w.reg[d].state in NodeList(w.reg) && w.reg[d].state.deviceId == d by { RegisteredId(w.reg, d); }
        SelectedFacts(rs);
        assert Recorded(rs, d);
        RecordedOnline(h, w, c, d);
      }
    }
  }

  lemma RegisteredId(reg: Registry, d: DeviceId)
    requires GoodRegistry(reg) && d in reg
    ensures reg[d].state.deviceId == d
  {
  }

  lemma RecordedOnline(h: Hash, w: World, c: ContentId, d: DeviceId)
    requires c in w.meta.placements && Truthful(h, w, c) && Recorded(Records(w, c), d)
    requires d in w.reg && w.reg[d].state.online
    ensures Replica(d, Healthy) in Records(w, c)
  {
    var rs := Records(w, c);
    var i :| 0 <= i < |rs| && rs[i].nodeId == d && rs[i].state.Present();
    assert rs[i] == Replica(d, Healthy);
  }

  /** After a pass that returns Ok every retained content meets its replica count, or has a healthy
      copy on every online node with room, or has nothing left to copy from; every record that claims
      health is true; and the report is exactly the retained contents that are degraded. */
  lemma ReconcileComplete(h: Hash, w: World)
    requires Good(w) && Reconcile(h, w).2.None?
    ensures
      var (w1, report, _) := Reconcile(h, w);
      && (forall c :: Retained(w1.meta, c) ==>
        && c in w1.meta.placements && HealthyIsTrue(h, w1, c)
        && (!Degraded(w1.meta.placements[c]) || Saturated(w1, c) || NoSource(h, w1, c)))
      && (forall c :: c in report.degraded <==>
        Retained(w1.meta, c) && c in w1.meta.placements && Degraded(w1.meta.placements[c]))
  {
    hide Retained, RetainedIds, ReconcileAll, Settled, NothingGoodLost, SameFor, Saturated, NoSource, Degraded;
    hide HealthyIsTrue, Valid;
    var cs := Listing(RetainedIds(w.meta), TextLt);
    var w1 := Reconcile(h, w).0;
    RetainedListing(w);
    PassSafe(h, w, cs);
    PassReports(h, w, cs);
    forall c | Retained(w1.meta, c)
      ensures c in w1.meta.placements && HealthyIsTrue(h, w1, c)
      ensures !Degraded(w1.meta.placements[c]) || Saturated(w1, c) || NoSource(h, w1, c)
    {
      PassFrameRetained(w, w1, c);
      PassSettles(h, w, cs, c);
      SettledFacts(h, w1, c);
      SettledMeans(h, w1, c);
    }
    forall c ensures c in Reconcile(h, w).1.degraded <==>
      Retained(w1.meta, c) && c in w1.meta.placements && Degraded(w1.meta.placements[c])
    {
      DegradedOfMeans(w1.meta, cs, c);
      PassFrameRetained(w, w1, c);
    }
  }

  lemma SettledFacts(h: Hash, w: World, c: ContentId)
    requires Settled(h, w, c)
    ensures c in w.meta.placements && HealthyIsTrue(h, w, c)
  {
    TruthfulHealthy(h, w, c);
  }
}
