/** Copies under concurrency. Reconcilers, writers and readers work on the metadata and the node
    stores together, step by step, while nodes come, go and are registered anew.

    A copy job picks a destination that the placement policy named, checks the metadata, reads a
    source, deletes the destination's object, writes it again and records it. A write stores its
    object and then commits. A read takes its replica list from the metadata and tries one node
    after the other. Any number of them interleave. Commits are single steps, as `Concurrency`
    justifies. `seen` records the worlds that have been, since a job may act on what it saw of them. */
module Races {
  import opened Domain
  import opened Metadata
  import opened Content
  import opened PlacementPolicy
  import opened Replication
  import opened ReplicationProofs
  import Concurrency
  import opened Service

  datatype Phase = Chosen | Cleared | Stored | Finished | Aborted(reason: FsError)
  datatype Job = Job(content: ContentId, node: DeviceId, bytes: Bytes, phase: Phase)
  datatype Writing = Writing(op: Op, committed: bool)
  /** `rest` holds the replicas that are still to be tried. */
  datatype Reader = Reader(content: ContentId, rest: seq<Replica>, got: Option<Bytes>)

  datatype Race = Race(meta: Snapshot, reg: Registry, jobs: seq<Job>, writes: seq<Writing>, readers: seq<Reader>,
                       seen: set<World>)

  datatype Move =
    | Edited(op: Op)
    | Switch(node: DeviceId, online: bool)
    | Join(state: StorageNode, capacity: nat)
    | PutNew(file: FileId, data: Bytes, expected: Option<nat>, node: DeviceId, desired: nat)
    | CommitWrite(write: nat)
    | Choose(content: ContentId, node: DeviceId, plan: Plan)
    | Clear(job: nat)
    | PutBack(job: nat)
    | Record(job: nat)
    | StartRead(path: string)
    | Try(reader: nat)

  /** Where a job's choice comes from: the worlds in which the placement was refreshed, the nodes were
      listed, the size was looked up and the metadata was checked once more. */
  datatype Plan = Plan(placed: World, listed: World, sized: World, loaded: World)

  function Start(w: World): Race {
    Race(w.meta, w.reg, [], [], [], {w})
  }

  function Whole(r: Race): World {
    World(r.meta, r.reg)
  }

  /** The placement policy named the node, judging by worlds that have been. */
  ghost predicate Planned(seen: set<World>, c: ContentId, d: DeviceId, plan: Plan) {
    && plan.placed in seen && plan.listed in seen && plan.sized in seen && plan.loaded in seen
    && c in plan.placed.meta.placements
    && var p := plan.placed.meta.placements[c];
      d in DesiredNodes(ContentSize(plan.sized.meta, c), NodeList(plan.listed.reg), p.replicas, p.desired)
  }

  /** The last look at the metadata before the copy starts. */
  ghost predicate Wanted(s: Snapshot, c: ContentId, d: DeviceId) {
    Retained(s, c) && c in s.placements && !Recorded(s.placements[c].replicas, d)
  }

  ghost predicate Phased(r: Race, k: nat, phase: Phase) {
    k < |r.jobs| && r.jobs[k].phase == phase
  }

  /** The path leads to a file of one content, which has a placement. */
  ghost predicate Leads(s: Snapshot, path: string, c: ContentId) {
    && Resolve(s, path).Ok? && Resolve(s, path).value.File? && Resolve(s, path).value.file in s.files
    && HasSingle(s.files[Resolve(s, path).value.file], c) && c in s.placements
  }

  ghost function ContentAt(s: Snapshot, path: string): ContentId
    requires exists c :: Leads(s, path, c)
  {
    s.files[Resolve(s, path).value.file].manifest.value.chunks[0].contentId
  }

  ghost predicate Enabled(h: Hash, r: Race, m: Move) {
    match m
    case Edited(op) => !op.Write? && !op.Upsert?
    case Switch(d, _) => d in r.reg
    case Join(_, _) => true
    case PutNew(_, data, _, d, _) => PutOn(h, r.reg, d, data).Ok?
    case CommitWrite(k) => k < |r.writes| && !r.writes[k].committed && Apply(r.writes[k].op, r.meta).Commit?
    case Choose(c, d, plan) =>
      && d in r.reg && Planned(r.seen, c, d, plan) && Wanted(plan.loaded.meta, c, d)
      && FindSource(h, r.reg, c, plan.loaded.meta.placements[c].replicas).Some?
    case Clear(k) => Phased(r, k, Chosen) && r.jobs[k].node in r.reg
    case PutBack(k) => Phased(r, k, Cleared)
    case Record(k) => Phased(r, k, Stored)
    case StartRead(path) => exists c :: Leads(r.meta, path, c)
    case Try(k) => k < |r.readers| && r.readers[k].got.None? && r.readers[k].rest != []
  }

  function Advance(r: Race, k: nat, phase: Phase): Race
    requires k < |r.jobs|
  {
    r.(jobs := r.jobs[k := r.jobs[k].(phase := phase)])
  }

  function Tried(h: Hash, reg: Registry, x: Reader): Reader
    requires x.rest != []
  {
    var d := x.rest[0].nodeId;
    if Readable(h, reg, d, x.content) then x.(got := Some(reg[d].blobs[x.content])) else x.(rest := x.rest[1..])
  }

  ghost function Effect(h: Hash, r: Race, m: Move): Race
    requires Enabled(h, r, m)
  {
    match m
    case Edited(op) => r.(meta := Replication.Committed(r.meta, op))
    case Switch(d, online) => r.(reg := r.reg[d := r.reg[d].(state := r.reg[d].state.(online := online))])
    case Join(state, capacity) => r.(reg := r.reg[state.deviceId := Node(state, capacity, map[])])
    case PutNew(f, data, expected, d, desired) =>
      r.(reg := PutOn(h, r.reg, d, data).value,
         writes := r.writes + [Writing(Write(f, h(data), |data|, expected, d, desired), false)])
    case CommitWrite(k) =>
      r.(meta := Replication.Committed(r.meta, r.writes[k].op),
         writes := r.writes[k := r.writes[k].(committed := true)])
    case Choose(c, d, plan) =>
      r.(jobs := r.jobs + [Job(c, d, FindSource(h, r.reg, c, plan.loaded.meta.placements[c].replicas).value.1, Chosen)])
    case Clear(k) => Advance(r, k, Cleared).(reg := Without(r.reg, r.jobs[k].node, r.jobs[k].content))
    case PutBack(k) =>
      (match PutOn(h, r.reg, r.jobs[k].node, r.jobs[k].bytes)
       case Err(e) => Advance(r, k, Aborted(e))
       case Ok(reg) => Advance(r, k, Stored).(reg := reg))
    case Record(k) =>
      var op := Upsert(r.jobs[k].content, r.jobs[k].node, Healthy);
      Advance(r, k, Finished).(meta := Replication.Committed(r.meta, op))
    case StartRead(path) =>
      var c := ContentAt(r.meta, path);
      r.(readers := r.readers + [Reader(c, r.meta.placements[c].replicas, None)])
    case Try(k) => r.(readers := r.readers[k := Tried(h, r.reg, r.readers[k])])
  }

  ghost function Moved(h: Hash, r: Race, m: Move): Race
    requires Enabled(h, r, m)
  {
    var t := Effect(h, r, m);
    t.(seen := r.seen + {Whole(t)})
  }

  /** The moves lead from each state to the next, starting with nothing under way. */
  ghost predicate IsTrace(h: Hash, rs: seq<Race>, ms: seq<Move>) {
    && |rs| == |ms| + 1 && rs[0] == Start(Whole(rs[0]))
    && forall i :: 0 <= i < |ms| ==> Follows(h, rs[i], ms[i], rs[i + 1])
  }

  ghost predicate Follows(h: Hash, r: Race, m: Move, r': Race) {
    Enabled(h, r, m) && r' == Moved(h, r, m)
  }

  // ---- one move ------------------------------------------------------------------------------------

  /** Copy jobs carry bytes that verify, for nodes that are registered. */
  ghost predicate JobsOk(h: Hash, r: Race) {
    forall k :: 0 <= k < |r.jobs| ==> h(r.jobs[k].bytes) == r.jobs[k].content && r.jobs[k].node in r.reg
  }

  /** The move stores the object on the node. */
  ghost predicate Stores(h: Hash, r: Race, m: Move, c: ContentId, d: DeviceId) {
    match m
    case PutNew(_, data, _, e, _) => h(data) == c && e == d
    case PutBack(k) =>
      k < |r.jobs| && r.jobs[k].content == c && r.jobs[k].node == d && Fits(h, r.reg, d, r.jobs[k].bytes)
    case _ => false
  }

  /** The move takes the object off the node: a job deletes it, or the node is registered anew. */
  ghost predicate Wipes(r: Race, m: Move, c: ContentId, d: DeviceId) {
    match m
    case Clear(k) => k < |r.jobs| && r.jobs[k].content == c && r.jobs[k].node == d
    case Join(state, _) => state.deviceId == d
    case _ => false
  }

  lemma PutHolds(h: Hash, reg: Registry, e: DeviceId, bytes: Bytes, c: ContentId, d: DeviceId)
    requires PutOn(h, reg, e, bytes).Ok?
    ensures e in reg && PutOn(h, reg, e, bytes).value.Keys == reg.Keys
    ensures Holds(h, PutOn(h, reg, e, bytes).value, d, c) <==> Holds(h, reg, d, c) || (h(bytes) == c && e == d)
  {
    PutPromise(h, reg[e], bytes);
    var n, n', x := reg[e], Put(h, reg[e], bytes).value, h(bytes);
    assert c != x ==> (c in n.blobs - {x} <==> c in n.blobs) && (c in n'.blobs - {x} <==> c in n'.blobs);
    assert c != x && c in n.blobs ==> (n.blobs - {x})[c] == n.blobs[c];
    assert c != x && c in n'.blobs ==> (n'.blobs - {x})[c] == n'.blobs[c];
  }

  lemma ClearHolds(h: Hash, reg: Registry, e: DeviceId, x: ContentId, c: ContentId, d: DeviceId)
    requires e in reg
    ensures Holds(h, Without(reg, e, x), d, c) <==> Holds(h, reg, d, c) && !(e == d && x == c)
  {
  }

  /** An object is on its node after a move exactly if the move stored it, or it was there and the
      move did not take it away. */
  lemma HeldStep(h: Hash, r: Race, m: Move, c: ContentId, d: DeviceId)
    requires Enabled(h, r, m) && JobsOk(h, r)
    ensures Holds(h, Moved(h, r, m).reg, d, c) <==>
      Stores(h, r, m, c, d) || (Holds(h, r.reg, d, c) && !Wipes(r, m, c, d))
  {
    hide PutOn, Replication.Committed, FindSource, Apply, Used, Planned, Wanted, Leads, Fits, Without;
    match m {
      case PutNew(_, data, _, e, _) => PutHolds(h, r.reg, e, data, c, d);
      case Clear(k) => ClearHolds(h, r.reg, r.jobs[k].node, r.jobs[k].content, c, d);
      case PutBack(k) =>
        var j := r.jobs[k];
        assert h(j.bytes) == j.content && j.node in r.reg;
        PutFails(h, r.reg, j.node, j.bytes);
        if PutOn(h, r.reg, j.node, j.bytes).Ok? {
          PutHolds(h, r.reg, j.node, j.bytes, c, d);
        }
      case _ =>
    }
  }

  lemma JobsStep(h: Hash, r: Race, m: Move)
    requires Enabled(h, r, m) && JobsOk(h, r)
    ensures JobsOk(h, Moved(h, r, m))
  {
    hide PutOn, Replication.Committed, FindSource, Apply, Used, Planned, Retained, Recorded, Leads;
    match m {
      case Choose(c, d, plan) => FindSourceGood(h, r.reg, c, plan.loaded.meta.placements[c].replicas);
      case PutNew(_, data, _, e, _) => PutHolds(h, r.reg, e, data, "", e);
      case PutBack(k) =>
        if PutOn(h, r.reg, r.jobs[k].node, r.jobs[k].bytes).Ok? {
          PutHolds(h, r.reg, r.jobs[k].node, r.jobs[k].bytes, "", "");
        }
      case _ =>
    }
  }

  // ---- objects along a trace ------------------------------------------------------------------------

  lemma {:induction false} TraceJobs(h: Hash, rs: seq<Race>, ms: seq<Move>, n: nat)
    requires IsTrace(h, rs, ms) && n <= |ms|
    ensures JobsOk(h, rs[n])
  {
    hide Enabled, Moved;
    if n > 0 {
      TraceJobs(h, rs, ms, n - 1);
      assert Follows(h, rs[n - 1], ms[n - 1], rs[n - 1 + 1]);
      JobsStep(h, rs[n - 1], ms[n - 1]);
    }
  }

  ghost predicate StoredAt(h: Hash, rs: seq<Race>, ms: seq<Move>, c: ContentId, d: DeviceId, i: nat) {
    i < |ms| && i < |rs| && Stores(h, rs[i], ms[i], c, d)
  }

  ghost predicate WipedAt(rs: seq<Race>, ms: seq<Move>, c: ContentId, d: DeviceId, j: nat) {
    j < |ms| && j < |rs| && Wipes(rs[j], ms[j], c, d)
  }

  /** The object was stored again between move `j` and state `n`. */
  ghost predicate StoredSince(h: Hash, rs: seq<Race>, ms: seq<Move>, c: ContentId, d: DeviceId, j: nat, n: nat) {
    exists i :: j < i < n && StoredAt(h, rs, ms, c, d, i)
  }

  /** From state `p` to state `n`, whatever took the object away was followed by a put of it. */
  ghost predicate Mended(h: Hash, rs: seq<Race>, ms: seq<Move>, c: ContentId, d: DeviceId, p: nat, n: nat) {
    forall j :: p <= j < n && WipedAt(rs, ms, c, d, j) ==> StoredSince(h, rs, ms, c, d, j, n)
  }

  lemma HeldNext(h: Hash, rs: seq<Race>, ms: seq<Move>, c: ContentId, d: DeviceId, n: nat)
    requires IsTrace(h, rs, ms) && n < |ms|
    ensures Holds(h, rs[n + 1].reg, d, c) <==>
      StoredAt(h, rs, ms, c, d, n) || (Holds(h, rs[n].reg, d, c) && !WipedAt(rs, ms, c, d, n))
    ensures !(StoredAt(h, rs, ms, c, d, n) && WipedAt(rs, ms, c, d, n))
  {
    hide Enabled, Moved;
    TraceJobs(h, rs, ms, n);
    assert Follows(h, rs[n], ms[n], rs[n + 1]);
    HeldStep(h, rs[n], ms[n], c, d);
  }

  lemma MendedNext(h: Hash, rs: seq<Race>, ms: seq<Move>, c: ContentId, d: DeviceId, p: nat, n: nat)
    requires p <= n < |ms| && n < |rs|
    requires !(StoredAt(h, rs, ms, c, d, n) && WipedAt(rs, ms, c, d, n))
    ensures Mended(h, rs, ms, c, d, p, n + 1) <==>
      StoredAt(h, rs, ms, c, d, n) || (Mended(h, rs, ms, c, d, p, n) && !WipedAt(rs, ms, c, d, n))
  {
    hide StoredAt, WipedAt;
    forall j | p <= j < n
      ensures StoredSince(h, rs, ms, c, d, j, n + 1) <==>
        StoredSince(h, rs, ms, c, d, j, n) || StoredAt(h, rs, ms, c, d, n)
    {
      if StoredAt(h, rs, ms, c, d, n) {
        assert j < n < n + 1;
      }
    }
    assert !StoredSince(h, rs, ms, c, d, n, n + 1);
  }

  /** In every interleaving, an object that was on its node is there later exactly if whatever took it
      away was followed by a put of it that went through. */
  lemma {:induction false} HeldIffMended(
      h: Hash, rs: seq<Race>, ms: seq<Move>, c: ContentId, d: DeviceId, p: nat, n: nat)
    requires IsTrace(h, rs, ms) && p <= n <= |ms| && Holds(h, rs[p].reg, d, c)
    ensures Holds(h, rs[n].reg, d, c) <==> Mended(h, rs, ms, c, d, p, n)
    decreases n
  {
    hide IsTrace, Mended, StoredAt, WipedAt, Holds;
    if n == p {
      NothingToMend(h, rs, ms, c, d, p);
    } else {
      TraceLength(h, rs, ms);
      HeldIffMended(h, rs, ms, c, d, p, n - 1);
      HeldNext(h, rs, ms, c, d, n - 1);
      MendedNext(h, rs, ms, c, d, p, n - 1);
    }
  }

  lemma NothingToMend(h: Hash, rs: seq<Race>, ms: seq<Move>, c: ContentId, d: DeviceId, p: nat)
    ensures Mended(h, rs, ms, c, d, p, p)
  {
  }

  lemma TraceLength(h: Hash, rs: seq<Race>, ms: seq<Move>)
    requires IsTrace(h, rs, ms)
    ensures |rs| == |ms| + 1
  {
  }

  // ---- who took it away --------------------------------------------------------------------------------

  /** The job has deleted its object and not stored it again: its put is still to come, or failed
      because the node was offline or full. */
  ghost predicate Owes(r: Race, k: nat, c: ContentId, d: DeviceId) {
    && k < |r.jobs| && r.jobs[k].content == c && r.jobs[k].node == d
    && (r.jobs[k].phase.Cleared? || r.jobs[k].phase in {Aborted(ContentUnavailable), Aborted(NoSpace)})
  }

  lemma OwesStep(h: Hash, r: Race, m: Move, k: nat, c: ContentId, d: DeviceId)
    requires Enabled(h, r, m) && JobsOk(h, r) && !Stores(h, r, m, c, d)
    requires Owes(r, k, c, d) || (m == Clear(k) && Wipes(r, m, c, d))
    ensures Owes(Moved(h, r, m), k, c, d)
  {
    hide PutOn, Replication.Committed, FindSource, Apply, Used, Planned, Wanted, Leads, Fits;
    if m == PutBack(k) {
      assert h(r.jobs[k].bytes) == c && d in r.reg;
      PutFails(h, r.reg, d, r.jobs[k].bytes);
    }
  }

  lemma {:induction false} OwesSince(
      h: Hash, rs: seq<Race>, ms: seq<Move>, c: ContentId, d: DeviceId, j: nat, n: nat)
    requires IsTrace(h, rs, ms) && j < n <= |ms| && ms[j].Clear? && WipedAt(rs, ms, c, d, j)
    requires !StoredSince(h, rs, ms, c, d, j, n)
    ensures Owes(rs[n], ms[j].job, c, d)
    decreases n
  {
    hide Enabled, Moved, Stores, Owes;
    TraceJobs(h, rs, ms, n - 1);
    assert Follows(h, rs[n - 1], ms[n - 1], rs[n - 1 + 1]);
    if n == j + 1 {
      ClearStoresNot(h, rs[j], ms[j], c, d);
    } else {
      OwesSince(h, rs, ms, c, d, j, n - 1);
      assert !StoredAt(h, rs, ms, c, d, n - 1);
    }
    OwesStep(h, rs[n - 1], ms[n - 1], ms[j].job, c, d);
  }

  lemma ClearStoresNot(h: Hash, r: Race, m: Move, c: ContentId, d: DeviceId)
    requires m.Clear?
    ensures !Stores(h, r, m, c, d)
  {
  }

  /** Some move took the object away for good: a job that owes it, or a new registration of the node. */
  ghost predicate Blamed(h: Hash, rs: seq<Race>, ms: seq<Move>, c: ContentId, d: DeviceId, p: nat, n: nat) {
    exists j :: p <= j < n && BlamedFor(h, rs, ms, c, d, j, n)
  }

  ghost predicate BlamedFor(h: Hash, rs: seq<Race>, ms: seq<Move>, c: ContentId, d: DeviceId, j: nat, n: nat) {
    && WipedAt(rs, ms, c, d, j) && !StoredSince(h, rs, ms, c, d, j, n) && n < |rs|
    && (ms[j].Join? || (ms[j].Clear? && Owes(rs[n], ms[j].job, c, d)))
  }

  /** An object that is gone was taken by a job which still owes it, or by a new registration. */
  lemma GoneIsBlamed(h: Hash, rs: seq<Race>, ms: seq<Move>, c: ContentId, d: DeviceId, p: nat, n: nat)
    requires IsTrace(h, rs, ms) && p <= n <= |ms| && Holds(h, rs[p].reg, d, c)
    ensures !Holds(h, rs[n].reg, d, c) <==> Blamed(h, rs, ms, c, d, p, n)
  {
    HeldIffMended(h, rs, ms, c, d, p, n);
    hide IsTrace, Owes, StoredSince, Holds;
    TraceLength(h, rs, ms);
    forall j | p <= j < n && WipedAt(rs, ms, c, d, j) && !StoredSince(h, rs, ms, c, d, j, n)
      ensures BlamedFor(h, rs, ms, c, d, j, n)
    {
      if ms[j].Clear? {
        OwesSince(h, rs, ms, c, d, j, n);
      }
    }
  }

  // ---- writes along a trace -------------------------------------------------------------------------

  /** Move `p` is the put of write `k`. */
  ghost predicate PutAt(h: Hash, rs: seq<Race>, ms: seq<Move>, k: nat, p: nat, op: Op) {
    && p < |ms| && p < |rs| && ms[p].PutNew? && |rs[p].writes| == k
    && op == Write(ms[p].file, h(ms[p].data), |ms[p].data|, ms[p].expected, ms[p].node, ms[p].desired)
  }

  ghost predicate WasPut(h: Hash, rs: seq<Race>, ms: seq<Move>, k: nat, n: nat, op: Op) {
    exists p :: 0 <= p < n && PutAt(h, rs, ms, k, p, op)
  }

  lemma {:induction false} WriteWasPut(h: Hash, rs: seq<Race>, ms: seq<Move>, k: nat, n: nat)
    requires IsTrace(h, rs, ms) && n <= |ms| && k < |rs[n].writes|
    ensures WasPut(h, rs, ms, k, n, rs[n].writes[k].op)
    decreases n
  {
    hide PutOn, Replication.Committed, FindSource, Apply, Used, Planned, Wanted, Leads;
    if n > 0 {
      var r, m, r' := rs[n - 1], ms[n - 1], rs[n - 1 + 1];
      assert Follows(h, r, m, r');
      if k < |r.writes| {
        assert r'.writes[k].op == r.writes[k].op;
        WriteWasPut(h, rs, ms, k, n - 1);
        var p :| 0 <= p < n - 1 && PutAt(h, rs, ms, k, p, r.writes[k].op);
      } else {
        assert PutAt(h, rs, ms, k, n - 1, r'.writes[k].op);
      }
    }
  }

  lemma PutIsHeld(h: Hash, rs: seq<Race>, ms: seq<Move>, k: nat, p: nat, op: Op)
    requires IsTrace(h, rs, ms) && PutAt(h, rs, ms, k, p, op)
    ensures op.Write? && Holds(h, rs[p + 1].reg, op.node, op.content)
  {
    hide IsTrace;
    HeldNext(h, rs, ms, op.content, op.node, p);
  }

  /** What a write stored is on its node exactly if every removal since its put was mended; if it is
      gone, a copy job that owes it or a new registration of the node took it. */
  lemma StoredIffMended(h: Hash, rs: seq<Race>, ms: seq<Move>, k: nat, n: nat) returns (p: nat)
    requires IsTrace(h, rs, ms) && n <= |ms| && k < |rs[n].writes|
    ensures rs[n].writes[k].op.Write? && p < n && PutAt(h, rs, ms, k, p, rs[n].writes[k].op)
    ensures
      var c, d := rs[n].writes[k].op.content, rs[n].writes[k].op.node;
      && (Holds(h, rs[n].reg, d, c) <==> Mended(h, rs, ms, c, d, p + 1, n))
      && (!Holds(h, rs[n].reg, d, c) <==> Blamed(h, rs, ms, c, d, p + 1, n))
  {
    hide IsTrace, Mended, Blamed, Holds;
    TraceLength(h, rs, ms);
    WriteWasPut(h, rs, ms, k, n);
    var op := rs[n].writes[k].op;
    p :| 0 <= p < n && PutAt(h, rs, ms, k, p, op);
    PutIsHeld(h, rs, ms, k, p, op);
    HeldIffMended(h, rs, ms, op.content, op.node, p + 1, n);
    GoneIsBlamed(h, rs, ms, op.content, op.node, p + 1, n);
  }

  lemma RecordStep(h: Hash, r: Race, m: Move, c: ContentId, d: DeviceId)
    requires Enabled(h, r, m) && Concurrency.HasRecord(r.meta, c, d)
    ensures Concurrency.HasRecord(Moved(h, r, m).meta, c, d)
  {
    hide PutOn, FindSource, Apply, Used, Planned, Wanted, Leads, Concurrency.HasRecord;
    var op := if m.Edited? then m.op else if m.CommitWrite? then r.writes[m.write].op
              else if m.Record? then Upsert(r.jobs[m.job].content, r.jobs[m.job].node, Healthy)
              else Mark(c, d, Healthy);
    if Apply(op, r.meta).Commit? {
      Concurrency.RecordsKept(r.meta, op, c, d);
      RecordFree(Apply(op, r.meta).next, r.meta.revision + 1, c, d);
    }
  }

  lemma RecordFree(s: Snapshot, revision: nat, c: ContentId, d: DeviceId)
    requires Concurrency.HasRecord(s, c, d)
    ensures Concurrency.HasRecord(s.(revision := revision), c, d)
  {
  }

  lemma WriteRecorded(s: Snapshot, op: Op)
    requires op.Write? && Apply(op, s).Commit?
    ensures Concurrency.HasRecord(Replication.Committed(s, op), op.content, op.node)
  {
    UpsertHas(if op.content in s.placements then s.placements[op.content].replicas else [], op.node);
  }

  /** A committed write stays recorded. */
  lemma {:induction false} CommittedRecorded(h: Hash, rs: seq<Race>, ms: seq<Move>, k: nat, n: nat)
    requires IsTrace(h, rs, ms) && n <= |ms| && k < |rs[n].writes|
    ensures rs[n].writes[k].op.Write?
    ensures rs[n].writes[k].committed ==>
      Concurrency.HasRecord(rs[n].meta, rs[n].writes[k].op.content, rs[n].writes[k].op.node)
    decreases n
  {
    hide PutOn, Replication.Committed, FindSource, Apply, Used, Planned, Wanted, Leads, Concurrency.HasRecord;
    if n > 0 {
      var r, m := rs[n - 1], ms[n - 1];
      assert Follows(h, r, m, rs[n - 1 + 1]);
      if k < |r.writes| {
        CommittedRecorded(h, rs, ms, k, n - 1);
        if r.writes[k].committed {
          RecordStep(h, r, m, r.writes[k].op.content, r.writes[k].op.node);
        } else if m == CommitWrite(k) {
          WriteRecorded(r.meta, r.writes[k].op);
        }
      }
    }
  }

  // ---- reads along a trace ---------------------------------------------------------------------------

  /** Move `q` is the attempt of reader `k` at node `d`. */
  ghost predicate TriedAt(rs: seq<Race>, ms: seq<Move>, k: nat, q: nat, d: DeviceId) {
    && q < |ms| && q < |rs| && ms[q] == Try(k) && k < |rs[q].readers|
    && rs[q].readers[k].rest != [] && rs[q].readers[k].rest[0].nodeId == d
  }

  /** Reader `k`, which began with move `a`, has tried this node in vain before state `n`. */
  ghost predicate InVain(h: Hash, rs: seq<Race>, ms: seq<Move>, k: nat, a: nat, n: nat, c: ContentId, d: DeviceId) {
    exists q :: a < q < n && TriedAt(rs, ms, k, q, d) && !Readable(h, rs[q].reg, d, c)
  }

  ghost predicate Served(h: Hash, rs: seq<Race>, ms: seq<Move>, k: nat, a: nat, n: nat, c: ContentId) {
    exists q, d :: a < q < n && TriedAt(rs, ms, k, q, d) && Readable(h, rs[q].reg, d, c)
  }

  /** Where reader `k` stands, of the replicas `all` it began with. */
  ghost predicate ReaderOk(
      h: Hash, rs: seq<Race>, ms: seq<Move>, k: nat, a: nat, n: nat, c: ContentId, all: seq<Replica>)
    requires n < |rs|
  {
    && k < |rs[n].readers| && rs[n].readers[k].content == c
    && |rs[n].readers[k].rest| <= |all| && rs[n].readers[k].rest == all[|all| - |rs[n].readers[k].rest|..]
    && (forall i :: 0 <= i < |all| - |rs[n].readers[k].rest| ==> InVain(h, rs, ms, k, a, n, c, all[i].nodeId))
    && (rs[n].readers[k].got.Some? ==> h(rs[n].readers[k].got.value) == c)
    && (rs[n].readers[k].got.Some? <==> Served(h, rs, ms, k, a, n, c))
  }

  lemma InVainLater(
      h: Hash, rs: seq<Race>, ms: seq<Move>, k: nat, a: nat, n: nat, n': nat, c: ContentId, d: DeviceId)
    requires InVain(h, rs, ms, k, a, n, c, d) && n <= n'
    ensures InVain(h, rs, ms, k, a, n', c, d)
  {
    var q :| a < q < n && TriedAt(rs, ms, k, q, d) && !Readable(h, rs[q].reg, d, c);
  }

  lemma ServedNext(h: Hash, rs: seq<Race>, ms: seq<Move>, k: nat, a: nat, n: nat, c: ContentId)
    requires a < n < |ms| && n < |rs| && k < |rs[n].readers|
    ensures Served(h, rs, ms, k, a, n + 1, c) <==>
      || Served(h, rs, ms, k, a, n, c)
      || (ms[n] == Try(k) && rs[n].readers[k].rest != [] && Readable(h, rs[n].reg, rs[n].readers[k].rest[0].nodeId, c))
  {
    if Served(h, rs, ms, k, a, n + 1, c) {
      var q, d :| a < q < n + 1 && TriedAt(rs, ms, k, q, d) && Readable(h, rs[q].reg, d, c);
      if q < n {
        assert Served(h, rs, ms, k, a, n, c);
      }
    }
    if Served(h, rs, ms, k, a, n, c) {
      var q, d :| a < q < n && TriedAt(rs, ms, k, q, d) && Readable(h, rs[q].reg, d, c);
      assert a < q < n + 1;
    }
    if ms[n] == Try(k) && rs[n].readers[k].rest != [] {
      assert TriedAt(rs, ms, k, n, rs[n].readers[k].rest[0].nodeId);
    }
  }

  lemma ReaderStep(h: Hash, rs: seq<Race>, ms: seq<Move>, k: nat, a: nat, n: nat, c: ContentId, all: seq<Replica>)
    requires IsTrace(h, rs, ms) && a < n < |ms| && ReaderOk(h, rs, ms, k, a, n, c, all)
    ensures ReaderOk(h, rs, ms, k, a, n + 1, c, all)
  {
    hide PutOn, Replication.Committed, FindSource, Apply, Used, Planned, Wanted, Leads, InVain, Served;
    assert Follows(h, rs[n], ms[n], rs[n + 1]);
    var x, x' := rs[n].readers[k], rs[n + 1].readers[k];
    ServedNext(h, rs, ms, k, a, n, c);
    forall i | 0 <= i < |all| - |x'.rest| ensures InVain(h, rs, ms, k, a, n + 1, c, all[i].nodeId) {
      if i < |all| - |x.rest| {
        InVainLater(h, rs, ms, k, a, n, n + 1, c, all[i].nodeId);
      } else {
        InVainNow(h, rs, ms, k, a, n, c, all[i].nodeId);
      }
    }
  }

  lemma InVainNow(h: Hash, rs: seq<Race>, ms: seq<Move>, k: nat, a: nat, n: nat, c: ContentId, d: DeviceId)
    requires a < n && TriedAt(rs, ms, k, n, d) && !Readable(h, rs[n].reg, d, c)
    ensures InVain(h, rs, ms, k, a, n + 1, c, d)
  {
  }

  /** A read that interleaves with everything else: it returns bytes exactly if one of its attempts met
      a copy that verified at that moment, and bytes of the content; each node it went past it had
      tried in vain. */
  lemma {:induction false} ReadOutcome(h: Hash, rs: seq<Race>, ms: seq<Move>, k: nat, a: nat, n: nat)
    requires IsTrace(h, rs, ms) && a < n <= |ms| && ms[a].StartRead? && k == |rs[a].readers|
    ensures exists c :: Leads(rs[a].meta, ms[a].path, c)
    ensures
      var c := ContentAt(rs[a].meta, ms[a].path);
      Leads(rs[a].meta, ms[a].path, c) && ReaderOk(h, rs, ms, k, a, n, c, rs[a].meta.placements[c].replicas)
    decreases n
  {
    hide Enabled, Moved, Leads, ReaderOk, ContentAt;
    assert Follows(h, rs[a], ms[a], rs[a + 1]);
    ReaderBegins(h, rs, ms, k, a);
    if n > a + 1 {
      var c := ContentAt(rs[a].meta, ms[a].path);
      LeadsOnce(rs[a].meta, ms[a].path, c);
      ReadOutcome(h, rs, ms, k, a, n - 1);
      ReaderStep(h, rs, ms, k, a, n - 1, c, rs[a].meta.placements[c].replicas);
    }
  }

  lemma ReaderBegins(h: Hash, rs: seq<Race>, ms: seq<Move>, k: nat, a: nat)
    requires a < |ms| && |rs| == |ms| + 1 && Follows(h, rs[a], ms[a], rs[a + 1])
    requires ms[a].StartRead? && k == |rs[a].readers|
    ensures exists c :: Leads(rs[a].meta, ms[a].path, c)
    ensures
      var c := ContentAt(rs[a].meta, ms[a].path);
      Leads(rs[a].meta, ms[a].path, c) && ReaderOk(h, rs, ms, k, a, a + 1, c, rs[a].meta.placements[c].replicas)
  {
    hide Resolve, TriedAt;
    var c := ContentAt(rs[a].meta, ms[a].path);
    assert Leads(rs[a].meta, ms[a].path, c);
    assert rs[a + 1].readers[k].rest == rs[a].meta.placements[c].replicas;
  }

  /** Read after write in every interleaving. A read that begins once a write has committed, of a path
      that leads to the written content, returns bytes of that content; it can only fail if, at the
      very moment it tried the writing node, that node was offline, or a copy job or a new
      registration had taken the object away and nobody had stored it again. */
  lemma RacingReadAfterWrite(h: Hash, rs: seq<Race>, ms: seq<Move>, w: nat, k: nat, a: nat, n: nat)
    requires IsTrace(h, rs, ms) && a < n <= |ms| && ms[a].StartRead? && k == |rs[a].readers|
    requires w < |rs[a].writes| && rs[a].writes[w].committed && rs[a].writes[w].op.Write?
    requires Leads(rs[a].meta, ms[a].path, rs[a].writes[w].op.content)
    ensures k < |rs[n].readers|
    ensures
      var c, d, x := rs[a].writes[w].op.content, rs[a].writes[w].op.node, rs[n].readers[k];
      && (x.got.Some? ==> h(x.got.value) == c)
      && (x.got.None? && x.rest == [] ==> exists q: nat, p: nat ::
        && a < q < n && TriedAt(rs, ms, k, q, d) && d in rs[q].reg
        && PutAt(h, rs, ms, w, p, rs[a].writes[w].op) && p < q
        && (!rs[q].reg[d].state.online || Blamed(h, rs, ms, c, d, p + 1, q)))
  {
    hide IsTrace, Leads, ReaderOk, TriedAt, Blamed, Mended;
    TraceLength(h, rs, ms);
    ReadOutcome(h, rs, ms, k, a, n);
    var op := rs[a].writes[w].op;
    var c, d := op.content, op.node;
    LeadsOnce(rs[a].meta, ms[a].path, c);
    ReaderSays(h, rs, ms, k, a, n, c, rs[a].meta.placements[c].replicas);
    var x := rs[n].readers[k];
    if x.got.None? && x.rest == [] {
      CommittedRecorded(h, rs, ms, w, a);
      var i :| 0 <= i < |rs[a].meta.placements[c].replicas| && rs[a].meta.placements[c].replicas[i].nodeId == d;
      var q :| a < q < n && TriedAt(rs, ms, k, q, d) && !Readable(h, rs[q].reg, d, c);
      WriteStays(h, rs, ms, w, a, q);
      var p := StoredIffMended(h, rs, ms, w, q);
      PutIsHeld(h, rs, ms, w, p, op);
      NodeStays(h, rs, ms, p + 1, q, d, c);
    }
  }

  lemma LeadsOnce(s: Snapshot, path: string, c: ContentId)
    requires Leads(s, path, c)
    ensures ContentAt(s, path) == c && c in s.placements
  {
  }

  lemma ReaderSays(
      h: Hash, rs: seq<Race>, ms: seq<Move>, k: nat, a: nat, n: nat, c: ContentId, all: seq<Replica>)
    requires n < |rs| && ReaderOk(h, rs, ms, k, a, n, c, all)
    ensures k < |rs[n].readers| && (rs[n].readers[k].got.Some? ==> h(rs[n].readers[k].got.value) == c)
    ensures rs[n].readers[k].rest == [] ==>
      forall i :: 0 <= i < |all| ==> InVain(h, rs, ms, k, a, n, c, all[i].nodeId)
  {
    hide InVain, Served;
  }

  lemma {:induction false} WriteStays(h: Hash, rs: seq<Race>, ms: seq<Move>, w: nat, a: nat, n: nat)
    requires IsTrace(h, rs, ms) && a <= n <= |ms| && w < |rs[a].writes|
    ensures w < |rs[n].writes| && rs[n].writes[w].op == rs[a].writes[w].op
    decreases n
  {
    hide PutOn, Replication.Committed, FindSource, Apply, Used, Planned, Wanted, Leads;
    if a < n {
      WriteStays(h, rs, ms, w, a, n - 1);
      assert Follows(h, rs[n - 1], ms[n - 1], rs[n - 1 + 1]);
    }
  }

  /** Nodes stay registered. */
  lemma {:induction false} NodeStays(h: Hash, rs: seq<Race>, ms: seq<Move>, p: nat, n: nat, d: DeviceId, c: ContentId)
    requires IsTrace(h, rs, ms) && p <= n <= |ms| && d in rs[p].reg
    ensures d in rs[n].reg
    decreases n
  {
    hide PutOn, Replication.Committed, FindSource, Apply, Used, Planned, Wanted, Leads;
    if p < n {
      NodeStays(h, rs, ms, p, n - 1, d, c);
      var r, m := rs[n - 1], ms[n - 1];
      assert Follows(h, r, m, rs[n - 1 + 1]);
      if m.PutNew? {
        PutHolds(h, r.reg, m.node, m.data, c, d);
      } else if m.PutBack? && PutOn(h, r.reg, r.jobs[m.job].node, r.jobs[m.job].bytes).Ok? {
        PutHolds(h, r.reg, r.jobs[m.job].node, r.jobs[m.job].bytes, c, d);
      }
    }
  }

  /** A job that nothing interrupts is the sequential copy of `Replication`, errors included. */
  lemma JobIsCopy(h: Hash, r: Race, k: nat)
    requires Phased(r, k, Chosen) && r.jobs[k].node in r.reg && h(r.jobs[k].bytes) == r.jobs[k].content
    ensures
      var r2 := Moved(h, Moved(h, r, Clear(k)), PutBack(k));
      var copy := CopyTo(h, Whole(r), r.jobs[k].content, r.jobs[k].node, r.jobs[k].bytes);
      match copy.error
      case Some(e) => Phased(r2, k, Aborted(e)) && Whole(r2) == copy.world
      case None => Phased(r2, k, Stored) && Whole(Moved(h, r2, Record(k))) == copy.world
  {
    hide PutOn, Replication.Committed;
  }
}
