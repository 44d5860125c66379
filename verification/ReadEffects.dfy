/** What a read does to the records of the copies it tries, and which known-bad copies it thereby
    counts again without having seen their bytes. */
module ReadEffects {
  import opened Domain
  import Paths
  import opened Tree
  import opened Metadata
  import opened MetadataInvariants
  import opened Content
  import opened Replication
  import opened ReplicationProofs
  import opened ReplicationPass
  import opened ReplicationTheorems
  import opened Service

  // ---- one content -------------------------------------------------------------------------------

  /** No replica from `k` up to `i` can be read. */
  ghost predicate NoneReadable(h: Hash, reg: Registry, c: ContentId, rs: seq<Replica>, k: nat, i: nat) {
    forall j :: k <= j < i && j < |rs| ==> !Readable(h, reg, rs[j].nodeId, c)
  }

  /** The record after a read that tries the replicas from `k` on. */
  ghost function ReadRecord(h: Hash, reg: Registry, c: ContentId, rs: seq<Replica>, k: nat, i: nat): Replica
    requires i < |rs|
  {
    if k <= i && NoneReadable(h, reg, c, rs, k, i)
    then Replica(rs[i].nodeId, ReadMark(h, reg, c, rs[i].nodeId))
    else rs[i]
  }

  lemma {:induction false} StateOfExact(rs: seq<Replica>, k: nat)
    requires DistinctNodes(rs) && k < |rs|
    ensures HasReplica(rs, rs[k].nodeId) && StateOf(rs, rs[k].nodeId) == rs[k].state
  {
    assert HasReplica(rs, rs[k].nodeId);
    if k > 0 {
      assert rs[0].nodeId != rs[k].nodeId;
      StateOfExact(rs[1..], k - 1);
    }
  }

  /** A mark rewrites one record, and skips the commit if there is nothing to rewrite. */
  lemma MarkExact(s: Snapshot, c: ContentId, k: nat, state: ReplicaState)
    requires c in s.placements && k < |s.placements[c].replicas| && DistinctNodes(s.placements[c].replicas)
    ensures
      var rs := s.placements[c].replicas;
      var s' := Committed(s, Mark(c, rs[k].nodeId, state));
      s'.placements == WithReplicas(s, c, rs[k := Replica(rs[k].nodeId, state)]).placements
  {
    var rs := s.placements[c].replicas;
    StateOfExact(rs, k);
    SetStateExact(rs, k, state);
    if rs[k].state == state {
      assert rs[k := Replica(rs[k].nodeId, state)] == rs;
      assert s.placements[c := s.placements[c].(replicas := rs)] == s.placements;
    }
  }

  /** Reading the replicas from `k` on: exact effect on every record of the content and on no other. */
  lemma {:induction false} ReadFrom(h: Hash, reg: Registry, s: Snapshot, c: ContentId, all: seq<Replica>, k: nat)
    requires c in s.placements && k <= |all| && s.placements[c].replicas == all && DistinctNodes(all)
    ensures
      var s' := ReadReplicas(h, reg, s, c, all[k..]).0;
      s'.placements == WithReplicas(s, c,
        seq(|all|, i requires 0 <= i < |all| => ReadRecord(h, reg, c, all, k, i))).placements
    decreases |all| - k
  {
    hide Committed;
    var marks := seq(|all|, i requires 0 <= i < |all| => ReadRecord(h, reg, c, all, k, i));
    if k == |all| {
      assert marks == all;
      assert s.placements[c := s.placements[c].(replicas := all)] == s.placements;
    } else {
      var d := all[k].nodeId;
      var state := ReadMark(h, reg, c, d);
      var marked := Committed(s, Mark(c, d, state));
      var all1 := all[k := Replica(d, state)];
      MarkExact(s, c, k, state);
      assert all[k..][0] == all[k] && all[k..][1..] == all[k + 1..] == all1[k + 1..];
      assert Readable(h, reg, d, c) <==> state.Healthy?;
      if state.Healthy? {
        assert marks == all1 by { StopsAt(h, reg, c, all, k); }
      } else {
        ReadFrom(h, reg, marked, c, all1, k + 1);
        GoesOn(h, reg, c, all, k);
      }
    }
  }

  lemma StopsAt(h: Hash, reg: Registry, c: ContentId, all: seq<Replica>, k: nat)
    requires k < |all| && Readable(h, reg, all[k].nodeId, c)
    ensures seq(|all|, i requires 0 <= i < |all| => ReadRecord(h, reg, c, all, k, i)) ==
      all[k := Replica(all[k].nodeId, ReadMark(h, reg, c, all[k].nodeId))]
  {
  }

  lemma GoesOn(h: Hash, reg: Registry, c: ContentId, all: seq<Replica>, k: nat)
    requires k < |all| && !Readable(h, reg, all[k].nodeId, c)
    ensures
      var all1 := all[k := Replica(all[k].nodeId, ReadMark(h, reg, c, all[k].nodeId))];
      seq(|all|, i requires 0 <= i < |all| => ReadRecord(h, reg, c, all, k, i)) ==
      seq(|all1|, i requires 0 <= i < |all1| => ReadRecord(h, reg, c, all1, k + 1, i))
  {
    var all1 := all[k := Replica(all[k].nodeId, ReadMark(h, reg, c, all[k].nodeId))];
    forall i | 0 <= i < |all| ensures ReadRecord(h, reg, c, all, k, i) == ReadRecord(h, reg, c, all1, k + 1, i) {
      assert forall j :: 0 <= j < |all| ==> all1[j].nodeId == all[j].nodeId;
      if k < i {
        assert NoneReadable(h, reg, c, all, k, i) <==> NoneReadable(h, reg, c, all1, k + 1, i);
      }
    }
  }

  // ---- whole reads -------------------------------------------------------------------------------

  /** The path leads to a file that refers to the content. */
  ghost predicate Reads(s: Snapshot, path: string, c: ContentId) {
    var t := Resolve(s, path);
    t.Ok? && t.value.File? && t.value.file in s.files && References(s.files[t.value.file], c)
  }

  /** The exact effect of a read on every record of every content: the records of the content it
      reads, up to and including the first copy that verifies, say what was found; no other changes. */
  lemma ReadEffect(h: Hash, w: World, path: string, c: ContentId, i: nat)
    requires Good(w) && c in w.meta.placements && i < |Records(w, c)|
    ensures
      var w' := ReadFile(h, w, path).0;
      && c in w'.meta.placements && |Records(w', c)| == |Records(w, c)|
      && Records(w', c)[i] ==
         if Reads(w.meta, path, c) then ReadRecord(h, w.reg, c, Records(w, c), 0, i) else Records(w, c)[i]
  {
    var t := Resolve(w.meta, path);
    if t.Ok? && t.value.File? && t.value.file in w.meta.files && w.meta.files[t.value.file].manifest.Some? {
      var chunks := w.meta.files[t.value.file].manifest.value.chunks;
      assert |chunks| == 1;
      var x := chunks[0].contentId;
      assert References(w.meta.files[t.value.file], x);
      assert forall y :: References(w.meta.files[t.value.file], y) ==> y == x;
      assert x in w.meta.placements;
      hide Good, ReadReplicas, ReadRecord;
      OneChunk(h, w.reg, w.meta, chunks);
      assert DistinctNodes(Records(w, x)) by { Distinct(w, x); }
      ReadFrom(h, w.reg, w.meta, x, Records(w, x), 0);
      assert Records(w, x)[0..] == Records(w, x);
    }
  }

  lemma Distinct(w: World, c: ContentId)
    requires Good(w) && c in w.meta.placements
    ensures DistinctNodes(Records(w, c))
  {
  }

  lemma OneChunk(h: Hash, reg: Registry, s: Snapshot, chunks: seq<Chunk>)
    requires |chunks| == 1 && chunks[0].contentId in s.placements
    ensures
      var c := chunks[0].contentId;
      ReadChunks(h, reg, s, s, chunks).0 == ReadReplicas(h, reg, s, c, s.placements[c].replicas).0
  {
    hide ReadReplicas;
    assert chunks[1..] == [];
    var (s1, found) := ReadReplicas(h, reg, s, chunks[0].contentId, s.placements[chunks[0].contentId].replicas);
    assert ReadChunks(h, reg, s, s1, chunks[1..]) == (s1, Ok([]));
  }

  /** A read counts a known-bad copy again, unseen, exactly if the file it reads refers to the
      content, the copy's node is registered and offline, and no earlier copy can be read. */
  lemma ReadRevivesIff(h: Hash, w: World, path: string, c: ContentId, i: nat)
    requires Good(w) && c in w.meta.placements && i < |Records(w, c)| && KnownBad(Records(w, c)[i])
    ensures
      var d := Records(w, c)[i].nodeId;
      !NotRevived(h, w, ReadFile(h, w, path).0, c, i) <==>
        && Reads(w.meta, path, c) && d in w.reg && !w.reg[d].state.online
        && NoneReadable(h, w.reg, c, Records(w, c), 0, i)
  {
    hide Good, ReadFile, Reads, NoneReadable;
    ReadEffect(h, w, path, c, i);
    ReadFrame(h, w, path);
  }

  // ---- a history in which it happens ---------------------------------------------------------------

  const NODE := StorageNode("n", true, 0, Mains, Stable)
  const PATH := "/f"
  const NEW_FILE := FileMetadata(1, 0, 1, None)

  /** The only copy of a file is corrupted, a read notices, its node goes offline, and a read follows. */
  function Story(h: Hash, data: Bytes, bad: Bytes): seq<Event> {
    [RegisterEvent(NODE, |data|), Edit(Create(PATH, 1)), WriteEvent(PATH, data, None, "n", 1),
     OverwriteEvent("n", h(data), bad), ReadEvent(PATH), SetOnlineEvent("n", false), ReadEvent(PATH)]
  }

  /** One file at "/f" whose content is recorded on node "n", which holds the given bytes. */
  ghost predicate OneCopy(w: World, c: ContentId, state: ReplicaState, online: bool, bytes: Bytes) {
    && w.meta.entries == [Entry(ROOT, "f", File(1))] && w.meta.root == ROOT
    && 1 in w.meta.files && References(w.meta.files[1], c)
    && c in w.meta.placements && w.meta.placements[c].desired == 1 && Records(w, c) == [Replica("n", state)]
    && "n" in w.reg && w.reg["n"].state.online == online && c in w.reg["n"].blobs && w.reg["n"].blobs[c] == bytes
  }

  lemma PathIs()
    ensures Paths.Parse(PATH) == Ok(["f"])
  {
    assert PATH == Paths.Render(["f"]);
    Paths.ParseRender(["f"]);
  }

  lemma ResolvesHere(s: Snapshot)
    requires s.entries == [Entry(ROOT, "f", File(1))] && s.root == ROOT
    ensures Resolve(s, PATH) == Ok(File(1))
  {
    PathIs();
    LookupIs(s.entries, 0);
  }

  lemma Creates(h: Hash, w: World)
    requires w.meta == DEFAULT_SNAPSHOT
    ensures
      var w' := After(h, w, Edit(Create(PATH, 1)));
      && w'.reg == w.reg && w'.meta.entries == [Entry(ROOT, "f", File(1))] && w'.meta.root == ROOT
      && w'.meta.files == map[1 := NEW_FILE] && w'.meta.placements == map[]
  {
    PathIs();
    assert ["f"][..0] == [];
    assert Locate(w.meta, PATH) == Ok((ROOT, "f"));
    CreateEffect(w.meta, PATH, 1);
  }

  lemma Writes(h: Hash, w: World, data: Bytes)
    requires w.meta.entries == [Entry(ROOT, "f", File(1))] && w.meta.root == ROOT
    requires w.meta.files == map[1 := NEW_FILE] && w.meta.placements == map[]
    requires w.reg == map["n" := Node(NODE, |data|, map[])]
    ensures OneCopy(After(h, w, WriteEvent(PATH, data, None, "n", 1)), h(data), Healthy, true, data)
  {
    ResolvesHere(w.meta);
    var c := h(data);
    assert w.reg["n"].blobs - {c} == map[];
    assert Put(h, w.reg["n"], data) == Ok(w.reg["n"].(blobs := map[c := data]));
    var s := EditWrite(w.meta, Write(1, c, |data|, None, "n", 1)).value;
    assert s.files[1].manifest.value.chunks[0].contentId == c;
  }

  lemma ReadsHere(h: Hash, w: World, c: ContentId, state: ReplicaState, online: bool, bytes: Bytes)
    requires Good(w) && OneCopy(w, c, state, online, bytes)
    ensures OneCopy(After(h, w, ReadEvent(PATH)), c, ReadMark(h, w.reg, c, "n"), online, bytes)
  {
    ResolvesHere(w.meta);
    ReadEffect(h, w, PATH, c, 0);
    ReadFrame(h, w, PATH);
    hide ReadFile, Good;
    assert NoneReadable(h, w.reg, c, Records(w, c), 0, 0);
    assert SameNodes(w.meta.placements[c], ReadFile(h, w, PATH).0.meta.placements[c]);
  }

  lemma OthersHere(h: Hash, w: World, c: ContentId, state: ReplicaState, online: bool, bytes: Bytes, bad: Bytes)
    requires OneCopy(w, c, state, online, bytes)
    ensures OneCopy(After(h, w, OverwriteEvent("n", c, bad)), c, state, online, bad)
    ensures OneCopy(After(h, w, SetOnlineEvent("n", false)), c, state, false, bytes)
  {
  }

  ghost function Worlds(h: Hash, w: World, es: seq<Event>): (ws: seq<World>)
    ensures |ws| == |es| + 1 && ws[0] == w
    ensures forall i :: 0 <= i < |es| ==> ws[i + 1] == After(h, ws[i], es[i])
    decreases |es|
  {
    if es == [] then [w] else [w] + Worlds(h, After(h, w, es[0]), es[1..])
  }

  lemma StoryLegal(h: Hash, data: Bytes, bad: Bytes)
    ensures IsHistory(h, Worlds(h, EMPTY, Story(h, data, bad)), Story(h, data, bad))
  {
    hide Worlds;
    var es := Story(h, data, bad);
    var ws := Worlds(h, EMPTY, es);
    assert ws[1] == After(h, ws[0], es[0]) && ws[1].meta == DEFAULT_SNAPSHOT;
    hide After;
    assert forall i :: 0 <= i < |es| && i != 1 ==> !es[i].Edit?;
    assert Legal(ws[1], es[1]);
  }

  lemma DegradedHere(w: World, c: ContentId, state: ReplicaState, online: bool, bytes: Bytes)
    requires OneCopy(w, c, state, online, bytes)
    ensures Degraded(w.meta.placements[c]) <==> !state.Present()
  {
    var rs := Records(w, c);
    assert rs[0] == Replica("n", state) && rs[1..] == [];
    assert PresentCount(rs[1..]) == 0;
  }

  /** From a first start, in seven ordinary events, a copy known to be corrupted counts towards
      durability again, while its bytes are still wrong. */
  lemma ReadRevivesCorruptedCopy(h: Hash, data: Bytes, bad: Bytes)
    requires h(bad) != h(data)
    ensures exists ws: seq<World> ::
      && IsHistory(h, ws, Story(h, data, bad)) && ws[0] == EMPTY
      && OneCopy(ws[6], h(data), Corrupted, false, bad) && Degraded(ws[6].meta.placements[h(data)])
      && OneCopy(ws[7], h(data), Offline, false, bad) && !Degraded(ws[7].meta.placements[h(data)])
  {
    var es, c := Story(h, data, bad), h(data);
    var ws := Worlds(h, EMPTY, es);
    StoryLegal(h, data, bad);
    StoryStarts(h, data, bad);
    hide After, Worlds, OneCopy, IsHistory, Degraded;
    GoodAt(h, ws, es, 4);
    GoodAt(h, ws, es, 6);
    assert ws[4 + 1] == After(h, ws[4], es[4]) && ws[5 + 1] == After(h, ws[5], es[5])
      && ws[6 + 1] == After(h, ws[6], es[6]);
    ReadsHere(h, ws[4], c, Healthy, true, bad);
    MarkHere(h, ws[4], c, Healthy, true, bad);
    OthersHere(h, ws[5], c, Corrupted, true, bad, bad);
    ReadsHere(h, ws[6], c, Corrupted, false, bad);
    MarkHere(h, ws[6], c, Corrupted, false, bad);
    DegradedHere(ws[6], c, Corrupted, false, bad);
    DegradedHere(ws[7], c, Offline, false, bad);
  }

  lemma MarkHere(h: Hash, w: World, c: ContentId, state: ReplicaState, online: bool, bytes: Bytes)
    requires OneCopy(w, c, state, online, bytes) && h(bytes) != c
    ensures ReadMark(h, w.reg, c, "n") == if online then Corrupted else Offline
  {
  }

  lemma StoryStarts(h: Hash, data: Bytes, bad: Bytes)
    ensures OneCopy(Worlds(h, EMPTY, Story(h, data, bad))[4], h(data), Healthy, true, bad)
  {
    hide Worlds;
    var es := Story(h, data, bad);
    var ws := Worlds(h, EMPTY, es);
    assert ws[0 + 1] == After(h, ws[0], es[0]);
    assert ws[1].reg == map["n" := Node(NODE, |data|, map[])];
    hide After, OneCopy;
    Creates(h, ws[1]);
    assert ws[1 + 1] == After(h, ws[1], es[1]);
    Writes(h, ws[2], data);
    assert ws[2 + 1] == After(h, ws[2], es[2]) && ws[3 + 1] == After(h, ws[3], es[3]);
    OthersHere(h, ws[3], h(data), Healthy, true, data, bad);
  }

  lemma GoodAt(h: Hash, ws: seq<World>, es: seq<Event>, k: nat)
    requires IsHistory(h, ws, es) && ws[0] == EMPTY && k <= |es|
    ensures Good(ws[k])
  {
    hide After, Legal, Good;
    assert IsHistory(h, ws[..k + 1], es[..k]);
    ReachableGood(h, ws[..k + 1][k]);
  }
}
