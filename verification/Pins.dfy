/** What a pin is worth. A content kept for a snapshot (retention `Snapshot`, here `Snapshotted`)
    should stay even when no file refers to it. No edit creates a pin, so runs from the default
    snapshot never hold one; here every snapshot is allowed. */
module Pins {
  import opened Domain
  import opened Tree
  import opened Metadata
  import opened MetadataInvariants
  import opened Replication

  ghost function AfterAll(s: Snapshot, ops: seq<Op>): Snapshot
    decreases |ops|
  {
    if ops == [] then s else AfterAll(Committed(s, ops[0]), ops[1..])
  }

  /** Along any edits, none of them a write of the content: a pin stays, and none appears. */
  lemma {:induction false} PinsAlong(s: Snapshot, ops: seq<Op>, c: ContentId)
    requires forall k :: 0 <= k < |ops| ==> !Overwrites(ops[k], c)
    ensures Pinned(AfterAll(s, ops).retentions, c) <==> Pinned(s.retentions, c)
    decreases |ops|
  {
    hide Apply;
    if ops != [] {
      if Apply(ops[0], s).Commit? {
        PinsAfter(s, ops[0], c);
      }
      PinsAlong(Committed(s, ops[0]), ops[1..], c);
    }
  }

  ghost predicate Lost(s: Snapshot, c: ContentId) {
    c in s.retentions && s.retentions[c] == GarbageCandidate && !Retained(s, c)
  }

  /** Once a pinned content was written to a file, replacing that file's content makes it garbage
      exactly if no other file refers to it. */
  lemma PinLostIff(s: Snapshot, first: Op, second: Op)
    requires first.Write? && second.Write? && first.file == second.file && second.content != first.content
    requires EditWrite(s, first).Ok? && EditWrite(EditWrite(s, first).value, second).Ok?
    ensures Lost(EditWrite(EditWrite(s, first).value, second).value, first.content) <==>
      !LiveReferenced(s.files - {first.file}, first.content)
  {
    var c, f, s1 := first.content, first.file, EditWrite(s, first).value;
    var s' := EditWrite(s1, second).value;
    WriteAfter(s, first, c);
    assert s1.files[f].manifest.value.chunks[0].contentId == c && References(s1.files[f], c);
    assert s'.files[f].manifest.value.chunks == [Chunk(second.content, 0, second.size)] && !References(s'.files[f], c);
    var others := s.files - {f};
    assert forall g :: g in others <==> g in s'.files && g != f;
    assert forall g :: g in others ==> others[g] == s'.files[g];
    assert LiveReferenced(s'.files, c) <==> LiveReferenced(others, c);
    MarkGarbageMeans(s'.files, s1.retentions[second.content := LiveReference], ChunkIds(s1.files[f]), c);
  }

  /** One file at "/f", and content "c" kept for a snapshot only. */
  const PINNED: Snapshot :=
    DEFAULT_SNAPSHOT.(files := map[1 := FileMetadata(1, 0, 1, None)], entries := [Entry(ROOT, "f", File(1))],
                      placements := map["c" := Placement("c", 1, [Replica("n", Healthy)])],
                      retentions := map["c" := Snapshotted])
  const FIRST := Write(1, "c", 1, None, "n", 1)
  const SECOND := Write(1, "d", 1, None, "n", 1)

  /** Two ordinary writes lose the pinned content of a snapshot that is otherwise in order. */
  lemma PinLostHere()
    ensures Pinned(PINNED.retentions, "c") && RetentionExact(PINNED)
    ensures RootedTree(ShapeOf(PINNED)) && GoodRecords(PINNED) && GoodPlacements(PINNED)
    ensures EditWrite(PINNED, FIRST).Ok? && EditWrite(EditWrite(PINNED, FIRST).value, SECOND).Ok?
    ensures Lost(EditWrite(EditWrite(PINNED, FIRST).value, SECOND).value, "c")
  {
    PinLostIff(PINNED, FIRST, SECOND);
    assert Ranked(PINNED.entries, d => 0);
    assert PINNED.entries[0].target == File(1);
  }
}
