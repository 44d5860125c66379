/** What a reconcile pass observes, sizes, counts and reports. */
module ReplicationAnswers {
  import opened Domain
  import opened Orders
  import opened MetadataInvariants
  import opened Content
  import opened PlacementPolicy
  import opened Replication
  import opened ReplicationProofs
  import opened ReplicationPass
  import opened ReplicationTheorems
  import opened Service

  /** What the reconciler records of a copy: what it sees on a node it can reach; of an offline node
      what it knew to be bad, and otherwise that it is offline. A read sees the same wherever the node
      can be reached. */
  lemma ObservationMeans(h: Hash, reg: Registry, c: ContentId, r: Replica)
    ensures
      var seen := Observe(h, reg, c, r);
      && (seen.Healthy? <==> Readable(h, reg, r.nodeId, c))
      && (r.nodeId in reg && !reg[r.nodeId].state.online ==> seen == if KnownBad(r) then r.state else Offline)
      && (r.nodeId !in reg ==> seen.Missing?)
      && (r.nodeId in reg && reg[r.nodeId].state.online ==>
        && (seen.Missing? <==> c !in reg[r.nodeId].blobs)
        && (seen.Corrupted? <==> c in reg[r.nodeId].blobs && h(reg[r.nodeId].blobs[c]) != c))
      && (r.nodeId !in reg || reg[r.nodeId].state.online ==> ReadMark(h, reg, c, r.nodeId) == seen)
  {
  }

  /** The size a pass plans with is that of the first file, by identifier, that holds the content. */
  lemma ContentSizeMeans(s: Snapshot, c: ContentId)
    requires GoodRecords(s)
    ensures !LiveReferenced(s.files, c) ==> ContentSize(s, c) == 0
    ensures LiveReferenced(s.files, c) ==> exists f ::
      && f in s.files && References(s.files[f], c) && ContentSize(s, c) == s.files[f].size
      && forall g :: g in s.files && References(s.files[g], c) ==> f <= g
  {
    var lt := (a: FileId, b: FileId) => a < b;
    var refs := Referencing(s.files, c);
    var fs := Listing(refs, lt);
    ListingAscending(refs, lt);
    if fs != [] {
      var f := fs[0];
      assert f in Elements(fs);
      assert GoodFile(s.files[f]);
      forall g | g in s.files && References(s.files[g], c) ensures f <= g {
        assert g in Elements(fs);
        var i :| 0 <= i < |fs| && fs[i] == g;
      }
    } else {
      assert Elements(fs) == {};
      assert forall f :: f in s.files && References(s.files[f], c) ==> f in refs;
    }
  }

  /** The records from `k` on that count: a healthy copy, or one on a node that is offline. */
  ghost function Counting(rs: seq<Replica>, k: nat): set<int> {
    set i | k <= i < |rs| && (rs[i].state == Healthy || rs[i].state == Offline)
  }

  lemma {:induction false} CountMeans(rs: seq<Replica>, k: nat)
    requires k <= |rs|
    ensures PresentCount(rs[k..]) == |Counting(rs, k)|
    decreases |rs| - k
  {
    if k < |rs| {
      CountMeans(rs, k + 1);
      assert rs[k..][0] == rs[k] && rs[k..][1..] == rs[k + 1..];
      assert Counting(rs, k) == Counting(rs, k + 1) + if rs[k].state.Present() then {k as int} else {};
    }
  }

  /** A placement is degraded exactly if fewer records count than are wanted. */
  lemma DegradedMeans(p: Placement)
    ensures Degraded(p) <==> |Counting(p.replicas, 0)| < p.desired
  {
    CountMeans(p.replicas, 0);
    assert p.replicas[0..] == p.replicas;
  }

  // ---- how a pass can fail ------------------------------------------------------------------------------

  /** A node that is online but cannot take the content. */
  ghost predicate Full(h: Hash, reg: Registry, c: ContentId) {
    exists d, bytes :: d in reg && reg[d].state.online && h(bytes) == c && !Fits(h, reg, d, bytes)
  }

  lemma CopyFails(h: Hash, w: World, c: ContentId, d: DeviceId, bytes: Bytes)
    requires d in w.reg && w.reg[d].state.online && h(bytes) == c && CopyTo(h, w, c, d, bytes).error.Some?
    ensures CopyTo(h, w, c, d, bytes).error == Some(NoSpace) && Full(h, CopyTo(h, w, c, d, bytes).world.reg, c)
  {
    hide PutOn, Fits, Committed;
    PutFails(h, Without(w.reg, d, c), d, bytes);
  }

  lemma {:induction false} LoopFails(h: Hash, w: World, c: ContentId, dests: seq<DeviceId>)
    requires LoopReady(h, w, c, dests) && CopyLoop(h, w, c, dests).error.Some?
    ensures CopyLoop(h, w, c, dests).error == Some(NoSpace) && Full(h, CopyLoop(h, w, c, dests).world.reg, c)
    decreases |dests|
  {
    hide CopyTo, Retained, Recorded, OnlyContent, Truthful, DistinctNodes, Full;
    if dests != [] {
      TailReady(h, w, c, dests);
      if Recorded(Records(w, c), dests[0]) {
        LoopFails(h, w, c, dests[1..]);
      } else {
        FindSourceGood(h, w.reg, c, Records(w, c));
        var source := FindSource(h, w.reg, c, Records(w, c));
        if source.Some? {
          var step := CopyTo(h, w, c, dests[0], source.value.1);
          if step.error.Some? {
            CopyFails(h, w, c, dests[0], source.value.1);
          } else {
            CopyStepReady(h, w, c, dests, source.value.1);
            LoopFails(h, step.world, c, dests[1..]);
          }
        }
      }
    }
  }

  lemma ContentFails(h: Hash, w: World, c: ContentId)
    requires Good(w) && Retained(w.meta, c) && ReconcileContent(h, w, c).error.Some?
    ensures ReconcileContent(h, w, c).error == Some(NoSpace) && Full(h, ReconcileContent(h, w, c).world.reg, c)
  {
    RetainedMeansLive(w.meta, c);
    RefreshKeepsGood(h, w, c);
    hide Valid, Retained, Refreshed, Destinations, LoopReady, OnlyContent, Full;
    var w1 := Refreshed(h, w, c);
    LoopFails(h, w1, c, Destinations(w1, c));
  }

  /** A pass over retained contents stops only because a node it was told to use turns out to be full.
      One that does not stop commits once for each content and once for each copy it reports. */
  lemma {:induction false} PassAnswer(h: Hash, w: World, cs: seq<ContentId>)
    requires Good(w) && AllRetained(w, cs)
    ensures
      var (w', report, error) := ReconcileAll(h, w, cs);
      match error
      case Some(e) => e == NoSpace && exists c :: c in cs && Full(h, w'.reg, c)
      case None => w'.meta.revision == w.meta.revision + |cs| + report.created
    decreases |cs|
  {
    hide Good, Retained, ReconcileContent, OnlyContent, PassFrame, Full;
    if cs != [] {
      assert cs[0] in cs && forall c :: c in cs[1..] ==> c in cs;
      PassTailReady(h, w, cs);
      var p := ReconcileContent(h, w, cs[0]);
      ContentSafe(h, w, cs[0]);
      if p.error.Some? {
        ContentFails(h, w, cs[0]);
      } else {
        PassAnswer(h, p.world, cs[1..]);
      }
    }
  }

  /** The same for the whole pass. */
  lemma ReconcileAnswer(h: Hash, w: World)
    requires Good(w)
    ensures
      var (w', report, error) := Reconcile(h, w);
      match error
      case Some(e) => e == NoSpace && exists c :: Retained(w.meta, c) && Full(h, w'.reg, c)
      case None => w'.meta.revision == w.meta.revision + |RetainedIds(w.meta)| + report.created
  {
    hide Good, Retained, ReconcileAll, Full;
    RetainedListing(w);
    var cs := Listing(RetainedIds(w.meta), TextLt);
    PassAnswer(h, w, cs);
    if c :| c in cs && Full(h, Reconcile(h, w).0.reg, c) {
      var k :| 0 <= k < |cs| && cs[k] == c;
    }
  }

  // ---- where a pass puts copies ---------------------------------------------------------------------------

  lemma {:induction false} LoopAdds(h: Hash, w: World, c: ContentId, dests: seq<DeviceId>, x: DeviceId)
    requires LoopReady(h, w, c, dests)
    ensures c in CopyLoop(h, w, c, dests).world.meta.placements
    ensures Recorded(Records(CopyLoop(h, w, c, dests).world, c), x) ==> Recorded(Records(w, c), x) || x in dests
    decreases |dests|
  {
    hide CopyTo, Retained, Recorded, OnlyContent, Truthful, DistinctNodes;
    if dests != [] {
      assert x in dests <==> x == dests[0] || x in dests[1..];
      TailReady(h, w, c, dests);
      if Recorded(Records(w, c), dests[0]) {
        LoopAdds(h, w, c, dests[1..], x);
      } else {
        FindSourceGood(h, w.reg, c, Records(w, c));
        var source := FindSource(h, w.reg, c, Records(w, c));
        if source.Some? {
          var step := CopyTo(h, w, c, dests[0], source.value.1);
          if step.error.Some? {
            FailedCopyHealthy(h, w, c, dests[0], source.value.1);
          } else {
            CopyStepReady(h, w, c, dests, source.value.1);
            LoopAdds(h, step.world, c, dests[1..], x);
          }
        }
      }
    }
  }

  lemma {:induction false} PresentDistinct(rs: seq<Replica>)
    requires DistinctNodes(rs)
    ensures NoDuplicates(PresentList(rs)) && forall d :: d in PresentList(rs) <==> Recorded(rs, d)
  {
    if rs != [] {
      PresentDistinct(rs[1..]);
      var tail := PresentList(rs[1..]);
      forall j | 0 <= j < |tail| ensures tail[j] != rs[0].nodeId {
        assert tail[j] in tail;
        var i :| 0 <= i < |rs[1..]| && rs[1..][i].nodeId == tail[j];
        assert rs[i + 1].nodeId == tail[j];
      }
    }
  }

  lemma CountedWithin(rs: seq<Replica>, nodes: seq<DeviceId>)
    requires DistinctNodes(rs) && forall d :: Recorded(rs, d) ==> d in nodes
    ensures PresentCount(rs) <= |nodes|
  {
    PresentDistinct(rs);
    PresentCountIs(rs);
    Cardinality(PresentList(rs));
    FewerElements(nodes);
    SubsetSize(Elements(PresentList(rs)), Elements(nodes));
  }

  lemma RefreshedCount(rs: seq<Replica>)
    requires DistinctNodes(rs)
    ensures |Selected(rs)| == PresentCount(rs)
  {
    PresentDistinct(rs);
    PresentCountIs(rs);
    SelectedFacts(rs);
    SameLength(PresentList(rs), Selected(rs));
  }

  /** What a pass adds for a content, beside the copies it found present: only on online nodes whose
      announced free space is at least the content's size, and never beyond the wanted number. */
  lemma ContentPlaces(h: Hash, w: World, c: ContentId)
    requires Good(w) && Retained(w.meta, c) && c in w.meta.placements
    ensures c in Refreshed(h, w, c).meta.placements && c in ReconcileContent(h, w, c).world.meta.placements
    ensures
      var found, after := Records(Refreshed(h, w, c), c), Records(ReconcileContent(h, w, c).world, c);
      && (forall d :: Recorded(after, d) && !Recorded(found, d) ==>
        d in w.reg && w.reg[d].state.online && w.reg[d].state.freeSpace >= ContentSize(w.meta, c))
      && (PresentCount(after) <= PresentCount(found) || PresentCount(after) <= w.meta.placements[c].desired)
  {
    RefreshKeepsGood(h, w, c);
    RefreshTruthful(h, w, c);
    ContentSafe(h, w, c);
    hide Valid, Retained, Refreshed, LoopReady, Truthful, ContentSize, DesiredNodes, NodeList, PresentCount;
    hide Recorded, Selected, Eligible, NodeLt;
    var w1, w' := Refreshed(h, w, c), ReconcileContent(h, w, c).world;
    var dests := Destinations(w1, c);
    RetainedFrame(w, w1, c, c);
    NodeListFacts(w1.reg);
    PlacementPromise(ContentSize(w1.meta, c), NodeList(w1.reg), Records(w1, c), w1.meta.placements[c].desired);
    forall d ensures Recorded(Records(w', c), d) ==> Recorded(Records(w1, c), d) || d in dests {
      LoopAdds(h, w1, c, dests, d);
    }
    SelectedFacts(Records(w1, c));
    RefreshedCount(Records(w1, c));
    assert DistinctNodes(Records(w', c)) by { Placed(w', c); }
    CountedWithin(Records(w', c), dests);
    forall d | Recorded(Records(w', c), d) && !Recorded(Records(w1, c), d)
      ensures d in w.reg && w.reg[d].state.online && w.reg[d].state.freeSpace >= ContentSize(w.meta, c)
    {
      var size, selected := ContentSize(w1.meta, c), Selected(Records(w1, c));
      var n :| n in NodeList(w1.reg) && n.deviceId == d && Eligible(n, size, selected);
      EligibleMeans(n, size, selected);
    }
  }

  lemma EligibleMeans(n: StorageNode, size: nat, selected: seq<DeviceId>)
    requires Eligible(n, size, selected)
    ensures n.online && n.freeSpace >= size
  {
  }

  lemma Placed(w: World, c: ContentId)
    requires Good(w) && c in w.meta.placements
    ensures DistinctNodes(Records(w, c))
  {
  }
}
