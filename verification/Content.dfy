/** Content stores with a capacity, and the registry of nodes that own them.

    A hash function `h` stands for SHA-256; every statement holds for every function. Each
    registered node owns its blobs, so no two nodes share a store. */
module Content {
  import opened Domain

  type Hash = Bytes -> ContentId
  datatype Node = Node(state: StorageNode, capacity: nat, blobs: map<ContentId, Bytes>)
  type Registry = map<DeviceId, Node>

  /** Total size of the stored blobs. */
  ghost function Used(blobs: map<ContentId, Bytes>): nat
    decreases |blobs|
  {
    if blobs == map[] then 0
    else
      var k :| k in blobs;
      assert |blobs - {k}| < |blobs| by { Smaller(blobs, k); }
      |blobs[k]| + Used(blobs - {k})
  }

  lemma Smaller(blobs: map<ContentId, Bytes>, k: ContentId)
    requires k in blobs
    ensures |blobs - {k}| == |blobs| - 1
  {
    assert (blobs - {k}).Keys == blobs.Keys - {k};
    assert |(blobs - {k}).Keys| == |blobs - {k}| && |blobs.Keys| == |blobs|;
  }

  /** The total does not depend on the order of summation. */
  lemma {:induction false} UsedSplit(blobs: map<ContentId, Bytes>, k: ContentId)
    requires k in blobs
    ensures Used(blobs) == |blobs[k]| + Used(blobs - {k})
    decreases |blobs|
  {
    var j :| j in blobs && Used(blobs) == |blobs[j]| + Used(blobs - {j});
    if j != k {
      Smaller(blobs, j);
      Smaller(blobs, k);
      UsedSplit(blobs - {j}, k);
      UsedSplit(blobs - {k}, j);
      assert blobs - {j} - {k} == blobs - {k} - {j};
    }
  }

  /** The summation loop of the store's capacity test. */
  method ComputeUsed(blobs: map<ContentId, Bytes>) returns (used: nat)
    ensures used == Used(blobs)
  {
    used := 0;
    var rest := blobs;
    while rest != map[]
      invariant used + Used(rest) == Used(blobs)
      decreases |rest|
    {
      var k :| k in rest;
      UsedSplit(rest, k);
      Smaller(rest, k);
      used := used + |rest[k]|;
      rest := rest - {k};
    }
  }

  predicate Matches(h: Hash, blobs: map<ContentId, Bytes>, c: ContentId) {
    c in blobs && h(blobs[c]) == c
  }

  ghost function Put(h: Hash, n: Node, data: Bytes): Result<Node> {
    var id := h(data);
    if Matches(h, n.blobs, id) then Ok(n)
    else if Used(n.blobs - {id}) + |data| > n.capacity then Err(NoSpace)
    else Ok(n.(blobs := n.blobs[id := data]))
  }

  ghost function PutOn(h: Hash, reg: Registry, d: DeviceId, data: Bytes): Result<Registry> {
    if d !in reg then Err(NodeNotFound)
    else if !reg[d].state.online then Err(ContentUnavailable)
    else
      var n :- Put(h, reg[d], data);
      Ok(reg[d := n])
  }

  function GetFrom(reg: Registry, d: DeviceId, c: ContentId): Result<Bytes> {
    if d !in reg then Err(NodeNotFound)
    else if !reg[d].state.online || c !in reg[d].blobs then Err(ContentUnavailable)
    else Ok(reg[d].blobs[c])
  }

  function Without(reg: Registry, d: DeviceId, c: ContentId): Registry
    requires d in reg
  {
    reg[d := reg[d].(blobs := reg[d].blobs - {c})]
  }

  /** The node can take the bytes now: it is online, and has them already or has the room. */
  ghost predicate Fits(h: Hash, reg: Registry, d: DeviceId, bytes: Bytes) {
    && d in reg && reg[d].state.online
    && (Matches(h, reg[d].blobs, h(bytes)) || Used(reg[d].blobs - {h(bytes)}) + |bytes| <= reg[d].capacity)
  }

  /** Exactly when storing an object fails, and how. */
  lemma PutFails(h: Hash, reg: Registry, d: DeviceId, bytes: Bytes)
    ensures PutOn(h, reg, d, bytes).Ok? <==> Fits(h, reg, d, bytes)
    ensures PutOn(h, reg, d, bytes) == Err(NodeNotFound) <==> d !in reg
    ensures PutOn(h, reg, d, bytes) == Err(ContentUnavailable) <==> d in reg && !reg[d].state.online
    ensures PutOn(h, reg, d, bytes) == Err(NoSpace) <==>
      d in reg && reg[d].state.online && !Fits(h, reg, d, bytes)
  {
  }

  /** A stored object verifies, other objects are untouched, and the capacity is respected. */
  lemma PutPromise(h: Hash, n: Node, data: Bytes)
    requires Put(h, n, data).Ok?
    ensures
      var n', id := Put(h, n, data).value, h(data);
      && Matches(h, n'.blobs, id)
      && n'.state == n.state && n'.capacity == n.capacity
      && n'.blobs - {id} == n.blobs - {id}
      && (Matches(h, n.blobs, id) ==> n' == n)
      && (!Matches(h, n.blobs, id) ==> n'.blobs[id] == data)
      && (Used(n.blobs) <= n.capacity ==> Used(n'.blobs) <= n'.capacity)
  {
    var n', id := Put(h, n, data).value, h(data);
    UsedSplit(n'.blobs, id);
    assert n'.blobs - {id} == n.blobs - {id};
  }

  class ContentRegistry {
    const hash: Hash
    var nodes: Registry

    constructor (hash: Hash)
      ensures this.hash == hash && nodes == map[]
    {
      this.hash := hash;
      nodes := map[];
    }

    method Register(state: StorageNode, capacity: nat)
      modifies this
      ensures nodes == old(nodes)[state.deviceId := Node(state, capacity, map[])]
    {
      nodes := nodes[state.deviceId := Node(state, capacity, map[])];
    }

    method SetOnline(d: DeviceId, online: bool) returns (r: Result<()>)
      modifies this
      ensures r == if d in old(nodes) then Ok(()) else Err(NodeNotFound)
      ensures d !in old(nodes) ==> nodes == old(nodes)
      ensures d in old(nodes) ==>
        nodes == old(nodes)[d := old(nodes)[d].(state := old(nodes)[d].state.(online := online))]
    {
      if d !in nodes { return Err(NodeNotFound); }
      nodes := nodes[d := nodes[d].(state := nodes[d].state.(online := online))];
      return Ok(());
    }

    method Delete(d: DeviceId, c: ContentId)
      requires d in nodes
      modifies this
      ensures nodes == Without(old(nodes), d, c)
    {
      nodes := nodes[d := nodes[d].(blobs := nodes[d].blobs - {c})];
    }

    method Store(d: DeviceId, data: Bytes) returns (r: Result<ContentId>)
      modifies this
      ensures
        match PutOn(hash, old(nodes), d, data)
        case Ok(reg) => r == Ok(hash(data)) && nodes == reg
        case Err(e) => r == Err(e) && nodes == old(nodes)
    {
      if d !in nodes { return Err(NodeNotFound); }
      if !nodes[d].state.online { return Err(ContentUnavailable); }
      var id := hash(data);
      var blobs := nodes[d].blobs;
      if id in blobs && hash(blobs[id]) == id {
        assert nodes == nodes[d := nodes[d]];
        return Ok(id);
      }
      var used := ComputeUsed(blobs - {id});
      if used + |data| > nodes[d].capacity { return Err(NoSpace); }
      nodes := nodes[d := nodes[d].(blobs := blobs[id := data])];
      return Ok(id);
    }
  }
}
