/** Runs from a first start in which a copy job loses a committed write. */
module RaceRuns {
  import opened Domain
  import opened Orders
  import Paths
  import opened Tree
  import opened Metadata
  import opened MetadataInvariants
  import opened Content
  import opened PlacementPolicy
  import opened Replication
  import opened ReplicationPass
  import opened Service
  import opened Races

  ghost predicate ReachedFrom(h: Hash, w: World, t: Race) {
    exists rs, ms :: IsTrace(h, rs, ms) && rs[0] == Start(w) && rs[|ms|] == t
  }

  lemma Begins(h: Hash, w: World)
    ensures ReachedFrom(h, w, Start(w))
  {
    assert IsTrace(h, [Start(w)], []);
  }

  lemma Then(h: Hash, w: World, r: Race, m: Move)
    requires ReachedFrom(h, w, r) && Enabled(h, r, m)
    ensures ReachedFrom(h, w, Moved(h, r, m))
  {
    hide Enabled, Moved;
    var rs, ms :| IsTrace(h, rs, ms) && rs[0] == Start(w) && rs[|ms|] == r;
    var rs', ms' := rs + [Moved(h, r, m)], ms + [m];
    forall i | 0 <= i < |ms'| ensures Follows(h, rs'[i], ms'[i], rs'[i + 1]) {
      if i < |ms| {
        assert Follows(h, rs[i], ms[i], rs[i + 1]);
      }
    }
    assert IsTrace(h, rs', ms');
  }

  const A := Entry(ROOT, "a", File(1))
  const B := Entry(ROOT, "b", File(2))

  function OnlineNode(d: DeviceId, size: nat): StorageNode {
    StorageNode(d, true, size, Mains, Stable)
  }

  lemma PathsAre()
    ensures Paths.Parse("/a") == Ok(["a"]) && Paths.Parse("/b") == Ok(["b"])
  {
    assert "/a" == Paths.Render(["a"]) && "/b" == Paths.Render(["b"]);
    Paths.ParseRender(["a"]);
    Paths.ParseRender(["b"]);
  }

  lemma CreatesFile(s: Snapshot, path: string, name: string, id: FileId)
    requires Paths.Parse(path) == Ok([name]) && Lookup(s.entries, s.root, name).None?
    ensures
      var s' := Committed(s, Create(path, id));
      && s'.entries == s.entries + [Entry(s.root, name, File(id))] && s'.root == s.root
      && s'.files == s.files[id := FileMetadata(id, 0, 1, None)] && s'.placements == s.placements
  {
    assert [name][..0] == [];
    CreateEffect(s, path, id);
  }

  /** Two nodes with room for one object of the given size each, and two empty files. */
  ghost predicate Prepared(r: Race, size: nat) {
    && r.jobs == [] && r.writes == []
    && r.reg == map["m" := Node(OnlineNode("m", size), size, map[]), "n" := Node(OnlineNode("n", size), size, map[])]
    && r.meta.entries == [A, B] && r.meta.root == ROOT && r.meta.placements == map[]
    && r.meta.files == map[1 := FileMetadata(1, 0, 1, None), 2 := FileMetadata(2, 0, 1, None)]
  }

  lemma Prepare(h: Hash, size: nat) returns (r: Race)
    ensures ReachedFrom(h, EMPTY, r) && Prepared(r, size)
  {
    hide ReachedFrom;
    PathsAre();
    r := Start(EMPTY);
    Begins(h, EMPTY);
    Then(h, EMPTY, r, Join(OnlineNode("m", size), size));
    r := Moved(h, r, Join(OnlineNode("m", size), size));
    Then(h, EMPTY, r, Join(OnlineNode("n", size), size));
    r := Moved(h, r, Join(OnlineNode("n", size), size));
    Then(h, EMPTY, r, Edited(Create("/a", 1)));
    CreatesFile(r.meta, "/a", "a", 1);
    r := Moved(h, r, Edited(Create("/a", 1)));
    Then(h, EMPTY, r, Edited(Create("/b", 2)));
    CreatesFile(r.meta, "/b", "b", 2);
    hide Committed;
    r := Moved(h, r, Edited(Create("/b", 2)));
  }

  ghost function RecordsOf(s: Snapshot, c: ContentId): seq<Replica> {
    if c in s.placements then s.placements[c].replicas else []
  }

  lemma PutEmpty(h: Hash, reg: Registry, d: DeviceId, data: Bytes)
    requires d in reg && reg[d].state.online && reg[d].blobs == map[] && |data| <= reg[d].capacity
    ensures PutOn(h, reg, d, data) == Ok(reg[d := reg[d].(blobs := map[h(data) := data])])
  {
    assert reg[d].blobs - {h(data)} == map[];
  }

  /** The file a committed write leaves. */
  function Written(file: FileMetadata, c: ContentId, size: nat): FileMetadata {
    file.(generation := file.generation + 1, size := size, manifest := Some(Single(c, size)))
  }

  lemma WriteCommits(s: Snapshot, op: Op)
    requires op.Write? && op.expected.None? && op.file in s.files
    ensures Apply(op, s).Commit?
    ensures
      var s' := Committed(s, op);
      && s'.entries == s.entries && s'.root == s.root
      && s'.files == s.files[op.file := Written(s.files[op.file], op.content, op.size)]
      && Retained(s', op.content) && op.content in s'.placements && s'.placements[op.content].desired == op.desired
      && s'.placements[op.content].replicas == UpsertState(RecordsOf(s, op.content), op.node, Healthy)
  {
    var s' := Committed(s, op);
    assert s'.files[op.file].manifest.value.chunks[0].contentId == op.content;
    assert References(s'.files[op.file], op.content);
  }

  /** A write runs from its put to its commit with nothing in between. */
  lemma WriteHere(h: Hash, r: Race, f: FileId, data: Bytes, d: DeviceId) returns (t: Race)
    requires ReachedFrom(h, EMPTY, r) && f in r.meta.files
    requires d in r.reg && r.reg[d].state.online && r.reg[d].blobs == map[] && |data| <= r.reg[d].capacity
    ensures ReachedFrom(h, EMPTY, t) && t.jobs == r.jobs && Whole(t) in t.seen
    ensures t.reg == r.reg[d := r.reg[d].(blobs := map[h(data) := data])]
    ensures t.writes == r.writes + [Writing(Write(f, h(data), |data|, None, d, 2), true)]
    ensures t.meta.entries == r.meta.entries && t.meta.root == r.meta.root
    ensures t.meta.files == r.meta.files[f := Written(r.meta.files[f], h(data), |data|)]
    ensures Retained(t.meta, h(data)) && h(data) in t.meta.placements && t.meta.placements[h(data)].desired == 2
    ensures t.meta.placements[h(data)].replicas == UpsertState(RecordsOf(r.meta, h(data)), d, Healthy)
  {
    hide ReachedFrom, Committed, Apply, PutOn, Retained, UpsertState, Written;
    var op := Write(f, h(data), |data|, None, d, 2);
    PutEmpty(h, r.reg, d, data);
    var put := PutNew(f, data, None, d, 2);
    Then(h, EMPTY, r, put);
    var r1 := Moved(h, r, put);
    var k := |r.writes|;
    assert r1.writes[k] == Writing(op, false);
    WriteCommits(r1.meta, op);
    Then(h, EMPTY, r1, CommitWrite(k));
    t := Moved(h, r1, CommitWrite(k));
    assert r1.writes[k := Writing(op, true)] == r.writes + [Writing(op, true)];
  }

  // ---- the policy's choice -----------------------------------------------------------------------------

  /** Only file 1 refers to the content. */
  lemma SizeIs(s: Snapshot, c: ContentId, size: nat)
    requires 1 in s.files && s.files[1].manifest == Some(Single(c, size))
    requires forall f :: f in s.files && f != 1 ==> s.files[f].manifest.None?
    ensures ContentSize(s, c) == size
  {
    assert s.files[1].manifest.value.chunks[0].contentId == c && References(s.files[1], c);
    assert Referencing(s.files, c) == {1};
    var fs := Listing(Referencing(s.files, c), (a: FileId, b: FileId) => a < b);
    assert fs[0] in Elements(fs);
  }

  /** With a copy on "m" and two wanted, the policy names "n", which is online and has the room. */
  lemma NamesTheOther(reg: Registry, size: nat, rs: seq<Replica>)
    requires reg.Keys == {"m", "n"} && rs == [Replica("m", Healthy)]
    requires reg["m"].state == OnlineNode("m", size) && reg["n"].state == OnlineNode("n", size)
    ensures "n" in DesiredNodes(size, NodeList(reg), rs, 2)
  {
    hide DesiredNodes, NodeList, Selected, NodeLt, Recorded;
    OneRecorded(rs);
    NodeListFacts(reg);
    PlacementPromise(size, NodeList(reg), rs, 2);
    SelectedFacts(rs);
    var r, node := DesiredNodes(size, NodeList(reg), rs, 2), reg["n"].state;
    assert node in NodeList(reg) && Eligible(node, size, Selected(rs));
    if |r| >= 2 {
      TwoNames(r);
    }
  }

  lemma OneRecorded(rs: seq<Replica>)
    requires rs == [Replica("m", Healthy)]
    ensures forall d :: Recorded(rs, d) <==> d == "m"
  {
    assert rs[0] == Replica("m", Healthy);
  }

  lemma TwoNames(r: seq<DeviceId>)
    requires |r| >= 2 && NoDuplicates(r) && forall d :: d in r ==> d == "m" || d == "n"
    ensures "n" in r
  {
    assert r[0] in r && r[1] in r && r[0] != r[1];
  }

  /** The choice of a reconciler that looks at everything in the present world. */
  function Now(r: Race): Plan {
    Plan(Whole(r), Whole(r), Whole(r), Whole(r))
  }

  /** "/a" has its content on "m", and two copies are wanted. */
  ghost predicate OneOfTwo(h: Hash, r: Race, data: Bytes) {
    && Whole(r) in r.seen && r.reg.Keys == {"m", "n"} && r.reg["m"].blobs == map[h(data) := data]
    && r.reg["m"].state == OnlineNode("m", |data|) && r.reg["n"].state == OnlineNode("n", |data|)
    && 1 in r.meta.files && r.meta.files[1].manifest == Some(Single(h(data), |data|))
    && (forall f :: f in r.meta.files && f != 1 ==> r.meta.files[f].manifest.None?)
    && Retained(r.meta, h(data)) && h(data) in r.meta.placements && r.meta.placements[h(data)].desired == 2
    && r.meta.placements[h(data)].replicas == [Replica("m", Healthy)]
  }

  lemma Chooses(h: Hash, r: Race, data: Bytes)
    requires OneOfTwo(h, r, data)
    ensures "n" in Destinations(Whole(r), h(data))
    ensures Enabled(h, r, Choose(h(data), "n", Now(r)))
    ensures
      var t := Moved(h, r, Choose(h(data), "n", Now(r)));
      t == r.(jobs := r.jobs + [Job(h(data), "n", data, Chosen)], seen := t.seen)
  {
    hide Retained, DesiredNodes, ContentSize, NodeList;
    var c, rs := h(data), r.meta.placements[h(data)].replicas;
    SizeIs(r.meta, c, |data|);
    NamesTheOther(r.reg, |data|, rs);
    assert rs[0] == Replica("m", Healthy);
    assert !Recorded(rs, "n");
    assert FindSource(h, r.reg, c, rs) == Some(("m", data));
  }

  // ---- the race ------------------------------------------------------------------------------------------

  /** "/a" was written from "m"; a job chose to copy its content to "n", as the policy asked; then "/b"
      was written with the same content from "n", and that write committed. */
  ghost predicate Raced(h: Hash, r: Race, data: Bytes) {
    && r.jobs == [Job(h(data), "n", data, Chosen)]
    && r.reg.Keys == {"m", "n"} && r.reg["n"].state.online && r.reg["n"].blobs == map[h(data) := data]
    && r.reg["n"].capacity == |data|
    && |r.writes| == 2 && r.writes[1] == Writing(Write(2, h(data), |data|, None, "n", 2), true)
    && r.meta.entries == [A, B] && r.meta.root == ROOT && 2 in r.meta.files && HasSingle(r.meta.files[2], h(data))
    && h(data) in r.meta.placements
    && r.meta.placements[h(data)].replicas == [Replica("m", Healthy), Replica("n", Healthy)]
  }

  lemma RaceStarts(h: Hash, data: Bytes) returns (r: Race)
    ensures ReachedFrom(h, EMPTY, r) && Raced(h, r, data)
  {
    hide ReachedFrom, Enabled, Moved, Retained, Destinations;
    var r0 := Prepare(h, |data|);
    var r1 := WriteHere(h, r0, 1, data, "m");
    assert RecordsOf(r0.meta, h(data)) == [] && UpsertState([], "m", Healthy) == [Replica("m", Healthy)];
    assert OneOfTwo(h, r1, data);
    Chooses(h, r1, data);
    var choose := Choose(h(data), "n", Now(r1));
    Then(h, EMPTY, r1, choose);
    var r2 := Moved(h, r1, choose);
    r := WriteHere(h, r2, 2, data, "n");
    var ms := [Replica("m", Healthy)];
    assert ms[0].nodeId == "m" && !HasReplica(ms, "n");
    assert UpsertState(ms, "n", Healthy) == [Replica("m", Healthy), Replica("n", Healthy)];
  }

  /** The object is gone: no recorded copy can be read. */
  lemma NothingReads(h: Hash, w: World, f: FileId, c: ContentId, path: string)
    requires Resolve(w.meta, path) == Ok(File(f)) && f in w.meta.files && HasSingle(w.meta.files[f], c)
    requires c in w.meta.placements
    requires forall i :: 0 <= i < |w.meta.placements[c].replicas| ==>
      !Readable(h, w.reg, w.meta.placements[c].replicas[i].nodeId, c)
    ensures ReadFile(h, w, path).1 == Err(ContentUnavailable)
  {
    hide Resolve;
    ReadReplicasExact(h, w.reg, w.meta, c, w.meta.placements[c].replicas);
    hide ReadReplicas;
  }

  lemma ResolvesB(s: Snapshot)
    requires s.entries == [A, B] && s.root == ROOT
    ensures Resolve(s, "/b") == Ok(File(2))
  {
    PathsAre();
    LookupIs(s.entries, 1);
  }

  /** The write of "/b" from "n" committed, "n" is online, and "/b" cannot be read. */
  ghost predicate WriteLost(h: Hash, t: Race, data: Bytes, reason: FsError) {
    && |t.writes| >= 2 && t.writes[1] == Writing(Write(2, h(data), |data|, None, "n", 2), true)
    && "n" in t.reg && t.reg["n"].state.online
    && t.jobs == [Job(h(data), "n", data, Aborted(reason))]
    && Resolve(t.meta, "/b") == Ok(File(2)) && ReadFile(h, Whole(t), "/b").1 == Err(ContentUnavailable)
  }

  /** The job deletes the object that the write has just recorded, the node is offline for a moment
      and the job gives up. With the first copy's node offline, reading the committed write fails,
      although its own node is online and nothing was ever corrupted, removed or rewritten. */
  lemma CommittedWriteLost(h: Hash, data: Bytes) returns (t: Race)
    ensures ReachedFrom(h, EMPTY, t) && WriteLost(h, t, data, ContentUnavailable)
  {
    hide ReachedFrom, Resolve, ReadFile;
    var r := RaceStarts(h, data);
    Then(h, EMPTY, r, Clear(0));
    var r1 := Moved(h, r, Clear(0));
    Then(h, EMPTY, r1, Switch("n", false));
    var r2 := Moved(h, r1, Switch("n", false));
    Then(h, EMPTY, r2, PutBack(0));
    var r3 := Moved(h, r2, PutBack(0));
    Then(h, EMPTY, r3, Switch("n", true));
    var r4 := Moved(h, r3, Switch("n", true));
    Then(h, EMPTY, r4, Switch("m", false));
    t := Moved(h, r4, Switch("m", false));
    ResolvesB(t.meta);
    NothingReads(h, Whole(t), 2, h(data), "/b");
  }

  lemma NoRoom(h: Hash, reg: Registry, d: DeviceId, data: Bytes, other: Bytes)
    requires d in reg && reg[d].state.online && reg[d].capacity == |data| && h(other) != h(data) && 0 < |other|
    requires reg[d].blobs == map[h(other) := other]
    ensures PutOn(h, reg, d, data) == Err(NoSpace)
  {
    var blobs := reg[d].blobs;
    assert blobs - {h(data)} == blobs;
    UsedSplit(blobs, h(other));
    assert blobs - {h(other)} == map[];
  }

  /** The same loss with the writing node online throughout: another write takes the room between the
      job's delete and its put. */
  lemma CommittedWriteSqueezedOut(h: Hash, data: Bytes, other: Bytes) returns (t: Race)
    requires h(other) != h(data) && 0 < |other| <= |data|
    ensures ReachedFrom(h, EMPTY, t) && WriteLost(h, t, data, NoSpace)
  {
    hide ReachedFrom, Resolve, ReadFile, PutOn;
    var r := RaceStarts(h, data);
    Then(h, EMPTY, r, Clear(0));
    var r1 := Moved(h, r, Clear(0));
    assert r1.reg["n"].blobs == map[];
    PutEmpty(h, r1.reg, "n", other);
    Then(h, EMPTY, r1, PutNew(1, other, None, "n", 2));
    var r2 := Moved(h, r1, PutNew(1, other, None, "n", 2));
    NoRoom(h, r2.reg, "n", data, other);
    Then(h, EMPTY, r2, PutBack(0));
    var r3 := Moved(h, r2, PutBack(0));
    Then(h, EMPTY, r3, Switch("m", false));
    t := Moved(h, r3, Switch("m", false));
    ResolvesB(t.meta);
    NothingReads(h, Whole(t), 2, h(data), "/b");
  }
}
