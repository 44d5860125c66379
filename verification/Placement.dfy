/** The default placement policy: keep present copies, add the best online nodes. */
module PlacementPolicy {
  import opened Domain
  import opened Orders

  function PresentList(rs: seq<Replica>): (r: seq<DeviceId>)
    ensures forall d :: d in r <==> Recorded(rs, d)
  {
    if rs == [] then []
    else
      var tail := PresentList(rs[1..]);
      assert rs == [rs[0]] + rs[1..];
      assert forall d :: Recorded(rs, d) <==> (rs[0].state.Present() && rs[0].nodeId == d) || Recorded(rs[1..], d) by {
        forall d | Recorded(rs, d) ensures (rs[0].state.Present() && rs[0].nodeId == d) || Recorded(rs[1..], d) {
          var i :| 0 <= i < |rs| && rs[i].nodeId == d && rs[i].state.Present();
          if i > 0 { assert rs[1..][i - 1] == rs[i]; }
        }
        forall d | Recorded(rs[1..], d) ensures Recorded(rs, d) {
          var i :| 0 <= i < |rs[1..]| && rs[1..][i].nodeId == d && rs[1..][i].state.Present();
          assert rs[i + 1] == rs[1..][i];
        }
      }
      if rs[0].state.Present() then [rs[0].nodeId] + tail else tail
  }

  /** Some record of `d` counts towards durability. */
  predicate Recorded(rs: seq<Replica>, d: DeviceId) {
    exists i :: 0 <= i < |rs| && rs[i].nodeId == d && rs[i].state.Present()
  }

  predicate NodeLt(a: StorageNode, b: StorageNode) {
    if a.availability.Stable? != b.availability.Stable? then a.availability.Stable?
    else if a.power.Mains? != b.power.Mains? then a.power.Mains?
    else if a.freeSpace != b.freeSpace then a.freeSpace > b.freeSpace
    else TextLt(a.deviceId, b.deviceId)
  }

  ghost predicate DistinctIds(nodes: seq<StorageNode>) {
    forall i, j :: 0 <= i < j < |nodes| ==> nodes[i].deviceId != nodes[j].deviceId
  }

  predicate Eligible(n: StorageNode, size: nat, selected: seq<DeviceId>) {
    n.online && n.freeSpace >= size && n.deviceId !in selected
  }

  function Eligibles(nodes: seq<StorageNode>, size: nat, selected: seq<DeviceId>): (r: seq<StorageNode>)
    ensures forall n :: n in r <==> n in nodes && Eligible(n, size, selected)
  {
    if nodes == [] then []
    else
      assert nodes == [nodes[0]] + nodes[1..];
      (if Eligible(nodes[0], size, selected) then [nodes[0]] else []) + Eligibles(nodes[1..], size, selected)
  }

  function Selected(rs: seq<Replica>): seq<DeviceId> {
    Dedup(Sort(PresentList(rs), TextLt))
  }

  function Ids(nodes: seq<StorageNode>): seq<DeviceId> {
    seq(|nodes|, i requires 0 <= i < |nodes| => nodes[i].deviceId)
  }

  function Take(k: int, s: seq<DeviceId>): seq<DeviceId> {
    if k <= 0 then [] else if k >= |s| then s else s[..k]
  }

  function Candidates(size: nat, nodes: seq<StorageNode>, rs: seq<Replica>): seq<StorageNode> {
    Sort(Eligibles(nodes, size, Selected(rs)), NodeLt)
  }

  function DesiredNodes(size: nat, nodes: seq<StorageNode>, rs: seq<Replica>, desired: nat): seq<DeviceId> {
    Selected(rs) + Take(desired - |Selected(rs)|, Ids(Candidates(size, nodes, rs)))
  }

  /** The policy as it runs: sort and deduplicate, sort the candidates, fill up to the desired count. */
  method ComputeDesiredNodes(size: nat, nodes: seq<StorageNode>, rs: seq<Replica>, desired: nat)
    returns (selected: seq<DeviceId>)
    ensures selected == DesiredNodes(size, nodes, rs, desired)
  {
    selected := Dedup(Sort(PresentList(rs), TextLt));
    var candidates := Sort(Eligibles(nodes, size, selected), NodeLt);
    var start := |selected|;
    var k := 0;
    while k < |candidates|
      invariant 0 <= k <= |candidates|
      invariant selected == Selected(rs) + Ids(candidates)[..k] && (k > 0 ==> start + k <= desired)
    {
      if |selected| >= desired { break; }
      selected := selected + [candidates[k].deviceId];
      assert Ids(candidates)[..k + 1] == Ids(candidates)[..k] + [candidates[k].deviceId];
      k := k + 1;
    }
    assert Ids(candidates)[..|candidates|] == Ids(candidates);
  }

  // ---- facts ---------------------------------------------------------------------------------

  lemma SelectedFacts(rs: seq<Replica>)
    ensures Ascending(Selected(rs), TextLt) && NoDuplicates(Selected(rs))
    ensures forall d :: d in Selected(rs) <==> Recorded(rs, d)
  {
    var list := PresentList(rs);
    TextOrder(Elements(list));
    SortWeak(list, TextLt);
    var sorted := Sort(list, TextLt);
    assert Elements(sorted) == Elements(list);
    DedupSorted(sorted, TextLt);
    var r := Dedup(sorted);
    AscendingNoDuplicates(r, TextLt);
    forall d ensures d in r <==> Recorded(rs, d) {
      assert d in r <==> d in Elements(r);
      assert d in Elements(list) <==> d in list;
    }
  }

  lemma NodeOrder(s: set<StorageNode>)
    requires forall a, b :: a in s && b in s && a != b ==> a.deviceId != b.deviceId
    ensures StrictOrderOn(NodeLt, s)
  {
    forall a | a in s ensures !NodeLt(a, a) { TextLtIrreflexive(a.deviceId); }
    forall a, b, c | a in s && b in s && c in s && NodeLt(a, b) && NodeLt(b, c) ensures NodeLt(a, c) {
      if TextLt(a.deviceId, b.deviceId) && TextLt(b.deviceId, c.deviceId) {
        TextLtTransitive(a.deviceId, b.deviceId, c.deviceId);
      }
    }
    forall a, b | a in s && b in s && a != b ensures NodeLt(a, b) || NodeLt(b, a) {
      TextLtTotal(a.deviceId, b.deviceId);
    }
  }

  lemma {:induction false} EligiblesDistinct(nodes: seq<StorageNode>, size: nat, selected: seq<DeviceId>)
    requires DistinctIds(nodes)
    ensures DistinctIds(Eligibles(nodes, size, selected))
  {
    if nodes != [] {
      EligiblesDistinct(nodes[1..], size, selected);
      var tail := Eligibles(nodes[1..], size, selected);
      forall j | 0 <= j < |tail| ensures tail[j].deviceId != nodes[0].deviceId {
        assert tail[j] in nodes[1..];
      }
    }
  }

  /** The candidates in order: strictly ascending, hence determined by the set of nodes alone. */
  lemma CandidatesFacts(size: nat, nodes: seq<StorageNode>, rs: seq<Replica>)
    requires DistinctIds(nodes)
    ensures
      var cs := Candidates(size, nodes, rs);
      && Ascending(cs, NodeLt) && DistinctIds(cs) && StrictOrderOn(NodeLt, Elements(cs))
      && forall n :: n in cs <==> n in nodes && Eligible(n, size, Selected(rs))
  {
    var es := Eligibles(nodes, size, Selected(rs));
    EligiblesDistinct(nodes, size, Selected(rs));
    ElementsDistinct(es);
    NodeOrder(Elements(es));
    assert NoDuplicates(es);
    SortAscending(es, NodeLt);
    var cs := Candidates(size, nodes, rs);
    assert Elements(cs) == Elements(es);
    AscendingNoDuplicates(cs, NodeLt);
    forall i, j | 0 <= i < j < |cs| ensures cs[i].deviceId != cs[j].deviceId {
      assert cs[i] in Elements(es) && cs[j] in Elements(es);
    }
  }

  lemma ElementsDistinct(nodes: seq<StorageNode>)
    requires DistinctIds(nodes)
    ensures forall a, b :: a in Elements(nodes) && b in Elements(nodes) && a != b ==> a.deviceId != b.deviceId
  {
  }

  /** Everything the placement promises about its result. */
  lemma PlacementPromise(size: nat, nodes: seq<StorageNode>, rs: seq<Replica>, desired: nat)
    requires DistinctIds(nodes)
    ensures
      var r, present := DesiredNodes(size, nodes, rs, desired), Selected(rs);
      && NoDuplicates(r)
      && present <= r
      && (forall d :: Recorded(rs, d) ==> d in r)
      && |r| <= (if |present| > desired then |present| else desired)
      && (forall d :: d in r && !Recorded(rs, d) ==>
        exists n :: n in nodes && n.deviceId == d && Eligible(n, size, present))
      && (|r| < desired ==> forall n :: n in nodes && Eligible(n, size, present) ==> n.deviceId in r)
      && (forall n, m | n in nodes && m in nodes && Eligible(n, size, present) && Eligible(m, size, present) ::
            n.deviceId in r && m.deviceId !in r ==> NodeLt(n, m))
  {
    hide StrictOrderOn, Ascending, NodeLt, Candidates, Selected, Recorded;
    SelectedFacts(rs);
    CandidatesFacts(size, nodes, rs);
    var present, cs := Selected(rs), Candidates(size, nodes, rs);
    var added := Take(desired - |present|, Ids(cs));
    var r := DesiredNodes(size, nodes, rs, desired);
    assert r == present + added;
    assert forall i :: 0 <= i < |added| ==> added[i] == cs[i].deviceId;
    forall i | 0 <= i < |added| ensures added[i] !in present {
      assert cs[i] in cs;
    }
    forall d | d in r && !Recorded(rs, d)
      ensures exists n :: n in nodes && n.deviceId == d && Eligible(n, size, present)
    {
      var i :| 0 <= i < |added| && added[i] == d;
      assert cs[i] in cs;
    }
    if |r| < desired {
      forall n | n in nodes && Eligible(n, size, present) ensures n.deviceId in r {
        assert n in cs;
        var i :| 0 <= i < |cs| && cs[i] == n;
        assert added[i] == n.deviceId;
      }
    }
    forall n, m | n in nodes && m in nodes && Eligible(n, size, present) && Eligible(m, size, present)
        && n.deviceId in r && m.deviceId !in r
      ensures NodeLt(n, m)
    {
      BestFirst(cs, n, m, |added|);
    }
  }

  /** What the policy prefers: stable nodes, then mains power, then more free space, then the
      identifier that comes first. */
  ghost predicate Preferred(n: StorageNode, m: StorageNode) {
    var steady := n.availability.Stable? == m.availability.Stable?;
    var alike := steady && n.power.Mains? == m.power.Mains?;
    && (m.availability.Stable? ==> n.availability.Stable?)
    && (steady && m.power.Mains? ==> n.power.Mains?)
    && (alike ==> n.freeSpace >= m.freeSpace)
    && (alike && n.freeSpace == m.freeSpace ==> Before(n.deviceId, m.deviceId))
  }

  /** A node is added before every eligible node that is left out, by that preference. */
  lemma PlacementPrefers(
      size: nat, nodes: seq<StorageNode>, rs: seq<Replica>, desired: nat, n: StorageNode, m: StorageNode)
    requires DistinctIds(nodes) && n in nodes && m in nodes
    requires n.deviceId in DesiredNodes(size, nodes, rs, desired) && !Recorded(rs, n.deviceId)
    requires m.deviceId !in DesiredNodes(size, nodes, rs, desired) && m.online && m.freeSpace >= size
    ensures n.online && n.freeSpace >= size && Preferred(n, m)
  {
    PlacementPromise(size, nodes, rs, desired);
    SelectedFacts(rs);
    var other :| other in nodes && other.deviceId == n.deviceId && Eligible(other, size, Selected(rs));
    assert other == n;
    hide DesiredNodes, Selected, Recorded;
    assert NodeLt(n, m);
    TextLtMeans(n.deviceId, m.deviceId);
  }

  lemma BestFirst(cs: seq<StorageNode>, n: StorageNode, m: StorageNode, k: nat)
    requires Ascending(cs, NodeLt) && DistinctIds(cs) && k <= |cs| && n in cs && m in cs
    requires exists i :: 0 <= i < k && cs[i].deviceId == n.deviceId
    requires forall i :: 0 <= i < k ==> cs[i].deviceId != m.deviceId
    ensures NodeLt(n, m)
  {
    var i :| 0 <= i < k && cs[i].deviceId == n.deviceId;
    var j :| 0 <= j < |cs| && cs[j] == m;
    var i' :| 0 <= i' < |cs| && cs[i'] == n;
    assert i' == i;
  }

  /** The result depends on the set of available nodes, not on the order they are listed in. */
  lemma PlacementIgnoresOrder(size: nat, nodes: seq<StorageNode>, nodes': seq<StorageNode>, rs: seq<Replica>,
                              desired: nat)
    requires DistinctIds(nodes) && DistinctIds(nodes') && Elements(nodes) == Elements(nodes')
    ensures DesiredNodes(size, nodes, rs, desired) == DesiredNodes(size, nodes', rs, desired)
  {
    CandidatesFacts(size, nodes, rs);
    CandidatesFacts(size, nodes', rs);
    var cs, cs' := Candidates(size, nodes, rs), Candidates(size, nodes', rs);
    assert forall n :: n in Elements(nodes) <==> n in nodes;
    assert forall n :: n in Elements(nodes') <==> n in nodes';
    assert Elements(cs) == Elements(cs');
    SortedUnique(cs, cs', NodeLt);
  }

  /** Asking again once exactly the desired nodes hold copies asks for nothing new. */
  lemma PlacementSettles(size: nat, nodes: seq<StorageNode>, rs: seq<Replica>, rs': seq<Replica>, desired: nat)
    requires DistinctIds(nodes)
    requires forall d :: Recorded(rs', d) <==> d in DesiredNodes(size, nodes, rs, desired)
    ensures forall d :: d in DesiredNodes(size, nodes, rs', desired) <==> d in DesiredNodes(size, nodes, rs, desired)
    ensures forall d :: d in DesiredNodes(size, nodes, rs', desired) ==> Recorded(rs', d)
  {
    PlacementPromise(size, nodes, rs, desired);
    PlacementPromise(size, nodes, rs', desired);
    SelectedFacts(rs);
    SelectedFacts(rs');
    var r, present' := DesiredNodes(size, nodes, rs, desired), Selected(rs');
    SameLength(r, present');
  }

  lemma {:induction false} SameLength(a: seq<DeviceId>, b: seq<DeviceId>)
    requires NoDuplicates(a) && NoDuplicates(b) && forall d :: d in a <==> d in b
    ensures |a| == |b|
  {
    Cardinality(a);
    Cardinality(b);
    assert Elements(a) == Elements(b);
  }

  lemma {:induction false} Cardinality(a: seq<DeviceId>)
    requires NoDuplicates(a)
    ensures |Elements(a)| == |a|
  {
    if a != [] {
      Cardinality(a[1..]);
      assert a == [a[0]] + a[1..];
      assert a[0] !in a[1..];
      assert Elements(a) == Elements(a[1..]) + {a[0]};
    }
  }
}
