/** Any number of clients sharing one metadata store through load and compare-and-swap.

    A call draws its identifiers, then loads, edits its private copy and tries to swap it in, a
    bounded number of times. Steps of different calls interleave arbitrarily. `history` and `log`
    record the committed snapshots and the commits between them. */
module Concurrency {
  import opened Domain
  import Paths
  import opened Tree
  import opened Metadata
  import opened MetadataInvariants

  datatype CallResult = Committed | Skipped | Failed(error: FsError)
  datatype CallState = Ready(left: nat) | Holding(left: nat, held: Snapshot) | Done(result: CallResult)
  /** `loads` records the revisions this call has loaded so far. */
  datatype Call = Call(op: Op, state: CallState, loads: seq<nat>)
  datatype LogEntry = LogEntry(call: nat, op: Op)
  datatype Sys = Sys(store: Snapshot, calls: seq<Call>, history: seq<Snapshot>, log: seq<LogEntry>)

  const INITIAL: Sys := Sys(DEFAULT_SNAPSHOT, [], [DEFAULT_SNAPSHOT], [])

  /** Between retries only the freshly observed replica states of a refresh may differ. */
  predicate Serves(op: Op, tried: Op) {
    tried == op || (op.Refresh? && tried.Refresh? && tried.content == op.content)
  }

  /** Identifiers drawn for a new call were never drawn before. */
  ghost predicate FreshDraw(s: Sys, op: Op) {
    && (op.Mkdir? ==> op.newDir != ROOT && forall k :: 0 <= k < |s.calls| && s.calls[k].op.Mkdir? ==>
      s.calls[k].op.newDir != op.newDir)
    && (op.Create? ==> forall k :: 0 <= k < |s.calls| && s.calls[k].op.Create? ==>
      s.calls[k].op.newFile != op.newFile)
  }

  ghost predicate Begin(s: Sys, s': Sys, op: Op) {
    FreshDraw(s, op) && s' == s.(calls := s.calls + [Call(op, Ready(Attempts(op)), [])])
  }

  ghost predicate Load(s: Sys, s': Sys, k: nat) {
    && k < |s.calls| && s.calls[k].state.Ready? && s.calls[k].state.left > 0
    && s' == s.(calls := s.calls[k := s.calls[k].(state := Holding(s.calls[k].state.left, s.store),
                                                  loads := s.calls[k].loads + [s.store.revision])])
  }

  /** The store installs the replacement only if its revision is still current. */
  ghost function Swap(s: Sys, k: nat, tried: Op): Sys
    requires k < |s.calls| && s.calls[k].state.Holding?
  {
    var left, held := s.calls[k].state.left, s.calls[k].state.held;
    match Apply(tried, held)
    case Fail(e) => Settle(s, k, Done(Failed(e)))
    case Skip => Settle(s, k, Done(Skipped))
    case Commit(next) =>
      if s.store.revision == next.revision then
        var installed := next.(revision := next.revision + 1);
        Settle(s, k, Done(Committed)).(store := installed, history := s.history + [installed],
                                       log := s.log + [LogEntry(k, tried)])
      else if left <= 1 then Settle(s, k, Done(Failed(Conflict)))
      else Settle(s, k, Ready(left - 1))
  }

  function Settle(s: Sys, k: nat, state: CallState): Sys
    requires k < |s.calls|
  {
    s.(calls := s.calls[k := s.calls[k].(state := state)])
  }

  ghost predicate Try(s: Sys, s': Sys, k: nat, tried: Op) {
    k < |s.calls| && s.calls[k].state.Holding? && Serves(s.calls[k].op, tried) && s' == Swap(s, k, tried)
  }

  ghost predicate Next(s: Sys, s': Sys) {
    || (exists op :: Begin(s, s', op))
    || (exists k :: Load(s, s', k))
    || (exists k, tried :: Try(s, s', k, tried))
  }

  ghost predicate IsRun(t: seq<Sys>) {
    |t| > 0 && t[0] == INITIAL && forall i :: 0 <= i < |t| - 1 ==> Next(t[i], t[i + 1])
  }

  // ---- serial histories ----------------------------------------------------------------------

  /** Committed states are the logged edits, each applied to the state just before its commit. */
  ghost predicate Serial(history: seq<Snapshot>, log: seq<LogEntry>) {
    && |history| == |log| + 1 && history[0] == DEFAULT_SNAPSHOT
    && (forall i :: 0 <= i < |history| ==> history[i].revision == i)
    && (forall i :: 0 <= i < |log| ==> SerialStep(history[i], log[i].op, history[i + 1]))
  }

  ghost predicate SerialStep(before: Snapshot, op: Op, after: Snapshot) {
    Apply(op, before).Commit? && after == Apply(op, before).next.(revision := before.revision + 1)
  }

  ghost predicate Logged(log: seq<LogEntry>, k: nat) {
    exists i :: 0 <= i < |log| && log[i].call == k
  }

  /** A call is logged exactly when it reported success, and then exactly once. */
  ghost predicate LogMatchesCalls(s: Sys) {
    && (forall i :: 0 <= i < |s.log| ==>
      && s.log[i].call < |s.calls| && s.calls[s.log[i].call].state == Done(Committed)
      && Serves(s.calls[s.log[i].call].op, s.log[i].op))
    && (forall i, j :: 0 <= i < j < |s.log| ==> s.log[i].call != s.log[j].call)
    && (forall k :: 0 <= k < |s.calls| && s.calls[k].state == Done(Committed) ==> Logged(s.log, k))
  }

  /** The answer is that of the state the call loaded last. */
  ghost predicate Answered(history: seq<Snapshot>, c: Call, answer: Outcome) {
    && c.loads != [] && Last(c.loads) < |history|
    && exists tried :: Serves(c.op, tried) && Apply(tried, history[Last(c.loads)]) == answer
  }

  function Last(loads: seq<nat>): nat
    requires loads != []
  {
    loads[|loads| - 1]
  }

  /** Somebody has committed since the last load. */
  predicate Outrun(history: seq<Snapshot>, c: Call) {
    c.loads != [] ==> Last(c.loads) + 1 < |history|
  }

  /** Every attempt loaded a later state than the one before, and lost to a commit of another call. */
  predicate Exhausted(history: seq<Snapshot>, c: Call) {
    |c.loads| == Attempts(c.op) && Outrun(history, c)
  }

  ghost predicate LoadsOk(history: seq<Snapshot>, loads: seq<nat>) {
    && (forall i, j :: 0 <= i < j < |loads| ==> loads[i] < loads[j])
    && (forall i :: 0 <= i < |loads| ==> loads[i] < |history|)
  }

  /** Private copies are committed states, every answer is the answer of the state loaded last, and
      only lost races exhaust the attempts. */
  ghost predicate CallOk(history: seq<Snapshot>, c: Call) {
    && LoadsOk(history, c.loads)
    && match c.state
       case Ready(left) => |c.loads| + left == Attempts(c.op) && Outrun(history, c)
       case Holding(left, held) =>
         && left > 0 && |c.loads| + left == Attempts(c.op) + 1 && c.loads != [] && Last(c.loads) == held.revision
         && held.revision < |history| && history[held.revision] == held
       case Done(Committed) => true
       case Done(Skipped) => Answered(history, c, Skip)
       case Done(Failed(e)) => Answered(history, c, Fail(e)) || (e == Conflict && Exhausted(history, c))
  }

  ghost predicate CallsOk(s: Sys) {
    forall k :: 0 <= k < |s.calls| ==> CallOk(s.history, s.calls[k])
  }

  ghost predicate CreatedBefore(log: seq<LogEntry>, i: nat, f: FileId) {
    exists k :: 0 <= k < i && k < |log| && log[k].op.Create? && log[k].op.newFile == f
  }

  ghost predicate MadeBefore(log: seq<LogEntry>, i: nat, d: DirectoryId) {
    exists k :: 0 <= k < i && k < |log| && log[k].op.Mkdir? && log[k].op.newDir == d
  }

  /** Identifiers enter a history only through the call that drew them. */
  ghost predicate IdsTraced(s: Sys) {
    && (forall i, f :: 0 <= i < |s.history| && f in s.history[i].files ==> CreatedBefore(s.log, i, f))
    && (forall i, d :: 0 <= i < |s.history| && d in s.history[i].directories ==> d == ROOT || MadeBefore(s.log, i, d))
  }

  ghost predicate DrawsDistinct(s: Sys) {
    && (forall j, k :: 0 <= j < k < |s.calls| && s.calls[j].op.Create? && s.calls[k].op.Create? ==>
      s.calls[j].op.newFile != s.calls[k].op.newFile)
    && (forall j, k :: 0 <= j < k < |s.calls| && s.calls[j].op.Mkdir? && s.calls[k].op.Mkdir? ==>
      s.calls[j].op.newDir != s.calls[k].op.newDir)
    && (forall k :: 0 <= k < |s.calls| && s.calls[k].op.Mkdir? ==> s.calls[k].op.newDir != ROOT)
  }

  ghost predicate AllValid(history: seq<Snapshot>) {
    forall i :: 0 <= i < |history| ==> Valid(history[i])
  }

  ghost predicate Inv(s: Sys) {
    && Serial(s.history, s.log) && s.history[|s.history| - 1] == s.store
    && LogMatchesCalls(s) && CallsOk(s) && IdsTraced(s) && DrawsDistinct(s) && AllValid(s.history)
  }

  // ---- every step keeps the invariant -----------------------------------------------------------

  lemma InitialInv()
    ensures Inv(INITIAL)
  {
    DefaultValid();
  }

  lemma BeginKeeps(s: Sys, s': Sys, op: Op)
    requires Inv(s) && Begin(s, s', op)
    ensures Inv(s')
  {
    hide Apply, Valid, SerialStep, Answered;
  }

  lemma LoadKeeps(s: Sys, s': Sys, k: nat)
    requires Inv(s) && Load(s, s', k)
    ensures Inv(s')
  {
    hide Apply, Valid, SerialStep, Answered;
  }

  /** A call that has not committed meets a store without its identifiers. */
  lemma DrawStillFresh(s: Sys, k: nat)
    requires Inv(s) && k < |s.calls| && s.calls[k].state.Holding?
    ensures Fresh(s.calls[k].op, s.store)
  {
    hide Apply, Valid, SerialStep, CallsOk, AllValid;
    var op, n := s.calls[k].op, |s.history| - 1;
    forall j | 0 <= j < |s.log| && op.Create? && s.log[j].op.Create? ensures s.log[j].op.newFile != op.newFile {
      assert Serves(s.calls[s.log[j].call].op, s.log[j].op);
    }
    forall j | 0 <= j < |s.log| && op.Mkdir? && s.log[j].op.Mkdir? ensures s.log[j].op.newDir != op.newDir {
      assert Serves(s.calls[s.log[j].call].op, s.log[j].op);
    }
    assert s.history[n] == s.store;
  }

  lemma IdsGrow(s: Snapshot, op: Op)
    requires Apply(op, s).Commit?
    ensures Apply(op, s).next.files.Keys <= s.files.Keys + (if op.Create? then {op.newFile} else {})
    ensures Apply(op, s).next.directories.Keys <= s.directories.Keys + (if op.Mkdir? then {op.newDir} else {})
  {
    match op {
      case Mkdir(path, id) => MkdirEffect(s, path, id);
      case Create(path, id) => CreateEffect(s, path, id);
      case Rename(from, to) => RenameEffect(s, from, to);
      case Remove(path) => RemoveEffect(s, path);
      case Write(file, _, _, _, _, _) =>
      case Refresh(_, _) =>
      case Upsert(_, _, _) =>
      case Mark(_, _, _) =>
    }
  }

  lemma SettleKeeps(s: Sys, k: nat, state: CallState)
    requires Inv(s) && k < |s.calls| && s.calls[k].state != Done(Committed) && state != Done(Committed)
    requires CallOk(s.history, s.calls[k].(state := state))
    ensures Inv(Settle(s, k, state))
  {
    hide Apply, Valid, SerialStep, Answered;
  }

  lemma AnswersGrow(s: Sys, installed: Snapshot)
    requires CallsOk(s)
    ensures forall k :: 0 <= k < |s.calls| ==> CallOk(s.history + [installed], s.calls[k])
  {
    var h := s.history + [installed];
    forall k | 0 <= k < |s.calls| ensures CallOk(h, s.calls[k]) {
      assert CallOk(s.history, s.calls[k]);
      var c := s.calls[k];
      if c.state == Done(Skipped) {
        AnswerGrows(s.history, installed, c, Skip);
      } else if c.state.Done? && c.state.result.Failed? && Answered(s.history, c, Fail(c.state.result.error)) {
        AnswerGrows(s.history, installed, c, Fail(c.state.result.error));
      }
    }
  }

  lemma AnswerGrows(history: seq<Snapshot>, installed: Snapshot, c: Call, answer: Outcome)
    requires Answered(history, c, answer)
    ensures Answered(history + [installed], c, answer)
  {
    hide Apply;
    assert (history + [installed])[Last(c.loads)] == history[Last(c.loads)];
  }

  lemma CreatedLater(log: seq<LogEntry>, e: LogEntry, i: nat, j: nat, f: FileId)
    requires CreatedBefore(log, i, f) && i <= j
    ensures CreatedBefore(log + [e], j, f)
  {
    var k :| 0 <= k < i && k < |log| && log[k].op.Create? && log[k].op.newFile == f;
    assert (log + [e])[k] == log[k];
  }

  lemma MadeLater(log: seq<LogEntry>, e: LogEntry, i: nat, j: nat, d: DirectoryId)
    requires MadeBefore(log, i, d) && i <= j
    ensures MadeBefore(log + [e], j, d)
  {
    var k :| 0 <= k < i && k < |log| && log[k].op.Mkdir? && log[k].op.newDir == d;
    assert (log + [e])[k] == log[k];
  }

  lemma CommitKeepsIds(s: Sys, s': Sys, e: LogEntry, installed: Snapshot)
    requires IdsTraced(s) && |s.history| == |s.log| + 1 && s.history[|s.log|] == s.store
    requires s'.history == s.history + [installed] && s'.log == s.log + [e]
    requires installed.files.Keys <= s.store.files.Keys + (if e.op.Create? then {e.op.newFile} else {})
    requires installed.directories.Keys <= s.store.directories.Keys + (if e.op.Mkdir? then {e.op.newDir} else {})
    ensures IdsTraced(s')
  {
    var n := |s.log|;
    assert s'.log[n] == e;
    forall i, f | 0 <= i < |s'.history| && f in s'.history[i].files ensures CreatedBefore(s'.log, i, f) {
      var j := if i <= n then i else n;
      if f in s.history[j].files { CreatedLater(s.log, e, j, i, f); }
    }
    forall i, d | 0 <= i < |s'.history| && d in s'.history[i].directories && d != ROOT
      ensures MadeBefore(s'.log, i, d)
    {
      var j := if i <= n then i else n;
      if d in s.history[j].directories { MadeLater(s.log, e, j, i, d); }
    }
  }

  /** A commit appends one legal step to the serial history. */
  lemma SerialGrows(history: seq<Snapshot>, log: seq<LogEntry>, e: LogEntry, installed: Snapshot)
    requires Serial(history, log) && SerialStep(history[|log|], e.op, installed)
    ensures Serial(history + [installed], log + [e])
  {
    hide SerialStep;
    var h, l := history + [installed], log + [e];
    assert installed.revision == |log| + 1 by { Revision(history[|log|], e.op, installed); }
    forall i | 0 <= i < |l| ensures SerialStep(h[i], l[i].op, h[i + 1]) {
      if i < |log| { assert h[i] == history[i] && l[i] == log[i] && h[i + 1] == history[i + 1]; }
    }
  }

  lemma Revision(before: Snapshot, op: Op, after: Snapshot)
    requires SerialStep(before, op, after)
    ensures after.revision == before.revision + 1
  {
    hide Apply;
  }

  lemma CommitKeeps(s: Sys, k: nat, tried: Op, installed: Snapshot)
    requires Inv(s) && k < |s.calls| && s.calls[k].state.Holding? && Serves(s.calls[k].op, tried)
    requires SerialStep(s.store, tried, installed)
    ensures Inv(Settle(s, k, Done(Committed)).(store := installed, history := s.history + [installed],
                                               log := s.log + [LogEntry(k, tried)]))
  {
    hide Apply, Valid;
    var s' := Settle(s, k, Done(Committed)).(store := installed, history := s.history + [installed],
                                             log := s.log + [LogEntry(k, tried)]);
    assert Valid(s.store);
    DrawStillFresh(s, k);
    KeepsValid(s.store, tried);
    RevisionIsFree(Apply(tried, s.store).next, s.store.revision + 1);
    IdsGrow(s.store, tried);
    CommitKeepsIds(s, s', LogEntry(k, tried), installed);
    AnswersGrow(s, installed);
    CommitKeepsLog(s, s', k, tried);
    SerialGrows(s.history, s.log, LogEntry(k, tried), installed);
  }

  lemma CommitKeepsLog(s: Sys, s': Sys, k: nat, tried: Op)
    requires LogMatchesCalls(s) && k < |s.calls| && s.calls[k].state.Holding? && Serves(s.calls[k].op, tried)
    requires s'.log == s.log + [LogEntry(k, tried)]
    requires s'.calls == s.calls[k := s.calls[k].(state := Done(Committed))]
    ensures LogMatchesCalls(s')
  {
    forall j | 0 <= j < |s'.calls| && s'.calls[j].state == Done(Committed) ensures Logged(s'.log, j) {
      if j == k {
        assert s'.log[|s.log|].call == k;
      } else {
        assert Logged(s.log, j);
        var i :| 0 <= i < |s.log| && s.log[i].call == j;
        assert s'.log[i].call == j;
      }
    }
  }

  lemma TryKeeps(s: Sys, s': Sys, k: nat, tried: Op)
    requires Inv(s) && Try(s, s', k, tried)
    ensures Inv(s') && s.history <= s'.history && s.log <= s'.log
  {
    hide Apply, Inv;
    var held, c := s.calls[k].state.held, s.calls[k];
    HeldIsCommitted(s, k);
    match Apply(tried, held) {
      case Fail(e) =>
        assert Answered(s.history, c.(state := Done(Failed(e))), Fail(e));
        SettleKeeps(s, k, Done(Failed(e)));
      case Skip =>
        assert Answered(s.history, c.(state := Done(Skipped)), Skip);
        SettleKeeps(s, k, Done(Skipped));
      case Commit(next) =>
        Frame(held, tried);
        if s.store.revision == next.revision {
          CommitKeeps(s, k, tried, next.(revision := next.revision + 1));
        } else if s.calls[k].state.left <= 1 {
          SettleKeeps(s, k, Done(Failed(Conflict)));
        } else {
          SettleKeeps(s, k, Ready(s.calls[k].state.left - 1));
        }
    }
  }

  /** Equal revision implies equal snapshot. */
  lemma HeldIsCommitted(s: Sys, k: nat)
    requires Inv(s) && k < |s.calls| && s.calls[k].state.Holding?
    ensures
      var held := s.calls[k].state.held;
      && held.revision < |s.history| && s.history[held.revision] == held
      && (held.revision == s.store.revision ==> held == s.store)
      && CallOk(s.history, s.calls[k])
      && s.store.revision == |s.history| - 1
  {
    hide Apply, Valid, Answered;
    assert CallOk(s.history, s.calls[k]);
    assert s.history[|s.history| - 1] == s.store;
  }

  lemma StepKeeps(s: Sys, s': Sys)
    requires Inv(s) && Next(s, s')
    ensures Inv(s') && s.history <= s'.history && s.log <= s'.log
  {
    hide Inv, Try;
    if op :| Begin(s, s', op) {
      BeginKeeps(s, s', op);
    } else if k :| Load(s, s', k) {
      LoadKeeps(s, s', k);
    } else {
      var k, tried :| Try(s, s', k, tried);
      TryKeeps(s, s', k, tried);
    }
  }

  lemma {:induction false} RunInv(t: seq<Sys>)
    requires IsRun(t)
    ensures Inv(t[|t| - 1])
  {
    if |t| == 1 {
      InitialInv();
    } else {
      hide Inv, Next;
      RunInv(t[..|t| - 1]);
      assert Next(t[|t| - 2], t[|t| - 1]);
      StepKeeps(t[|t| - 2], t[|t| - 1]);
    }
  }

  // ---- results over every run -------------------------------------------------------------------

  /** Optimistic concurrency is serializable, over every interleaving. */
  lemma Serializable(t: seq<Sys>)
    requires IsRun(t)
    ensures
      var s := t[|t| - 1];
      && Serial(s.history, s.log) && |s.history| == |s.log| + 1 && s.history[|s.log|] == s.store
      && LogMatchesCalls(s) && CallsOk(s)
  {
    RunInv(t);
  }

  /** Only a guarded write can be refused with Conflict by the state it meets. */
  lemma ConflictMeans(s: Snapshot, op: Op)
    ensures Apply(op, s) == Fail(Conflict) <==>
      && op.Write? && op.file in s.files
      && op.expected.Some? && op.expected.value != s.files[op.file].generation
  {
    hide Locate, Lookup, Position, Retained, Descends;
    match op {
      case Mkdir(path, _) => LocateErrors(s, path);
      case Create(path, _) => LocateErrors(s, path);
      case Rename(from, to) =>
        LocateErrors(s, from);
        LocateErrors(s, to);
      case Remove(path) => LocateErrors(s, path);
      case _ =>
    }
  }

  lemma {:induction false} WalkErrors(es: seq<Entry>, d: DirectoryId, cs: seq<string>)
    ensures Walk(es, d, cs).Err? ==> Walk(es, d, cs).error != Conflict
    decreases |cs|
  {
    if cs != [] && Lookup(es, d, cs[0]).Some? && Lookup(es, d, cs[0]).value.Directory? {
      WalkErrors(es, Lookup(es, d, cs[0]).value.dir, cs[1..]);
    }
  }

  lemma LocateErrors(s: Snapshot, path: string)
    ensures Locate(s, path).Err? ==> Locate(s, path).error != Conflict
  {
    var cs := Paths.Parse(path);
    if cs.Ok? && cs.value != [] {
      WalkErrors(s.entries, s.root, cs.value[..|cs.value| - 1]);
    }
  }

  /** When a call may report Conflict: its expected generation differed in the state it loaded, or
      each of its attempts, one of a write, four of a replica mark and eight of any other edit, lost
      to a commit of another call that came after the attempt's load. */
  lemma ConflictReported(t: seq<Sys>, k: nat)
    requires IsRun(t) && k < |t[|t| - 1].calls| && t[|t| - 1].calls[k].state == Done(Failed(Conflict))
    ensures
      var s, c := t[|t| - 1], t[|t| - 1].calls[k];
      && LoadsOk(s.history, c.loads)
      && c.loads != []
      && (GuardFails(s.history[Last(c.loads)], c.op)
          || (|c.loads| == (if c.op.Write? then 1 else if c.op.Mark? then 4 else 8) && Outrun(s.history, c)))
      && forall i :: 0 <= i < |s.log| ==> s.log[i].call != k
  {
    RunInv(t);
    var s, c := t[|t| - 1], t[|t| - 1].calls[k];
    hide Inv, Apply, Next, Serial, IdsTraced, DrawsDistinct, AllValid;
    CallAt(s, k);
    if Answered(s.history, c, Fail(Conflict)) {
      var tried :| Serves(c.op, tried) && Apply(tried, s.history[Last(c.loads)]) == Fail(Conflict);
      ConflictMeans(s.history[Last(c.loads)], tried);
    }
  }

  predicate GuardFails(s: Snapshot, op: Op) {
    op.Write? && op.expected.Some? && op.file in s.files && op.expected.value != s.files[op.file].generation
  }

  lemma CallAt(s: Sys, k: nat)
    requires Inv(s) && k < |s.calls|
    ensures CallOk(s.history, s.calls[k]) && LogMatchesCalls(s)
  {
    hide CallOk, LogMatchesCalls, Serial, IdsTraced, DrawsDistinct, AllValid;
  }

  /** Whatever the interleaving, every state ever committed is a valid filesystem. */
  lemma CommittedStatesValid(t: seq<Sys>, i: nat)
    requires IsRun(t) && i < |t[|t| - 1].history|
    ensures Valid(t[|t| - 1].history[i])
  {
    RunInv(t);
  }

  function WritesTo(log: seq<LogEntry>, f: FileId): nat {
    if log == [] then 0
    else WritesTo(log[..|log| - 1], f) + if log[|log| - 1].op.Write? && log[|log| - 1].op.file == f then 1 else 0
  }

  lemma GenerationStep(s: Snapshot, op: Op, f: FileId)
    requires Apply(op, s).Commit? && Fresh(op, s) && f in s.files && f in Apply(op, s).next.files
    ensures Apply(op, s).next.files[f].generation ==
      s.files[f].generation + if op.Write? && op.file == f then 1 else 0
  {
    match op {
      case Mkdir(path, id) => MkdirEffect(s, path, id);
      case Create(path, id) => CreateEffect(s, path, id);
      case Rename(from, to) => RenameEffect(s, from, to);
      case Remove(path) => RemoveEffect(s, path);
      case Write(file, _, _, _, _, _) =>
      case Refresh(_, _) =>
      case Upsert(_, _, _) =>
      case Mark(_, _, _) =>
    }
  }

  lemma StepIs(before: Snapshot, op: Op, after: Snapshot)
    requires SerialStep(before, op, after)
    ensures Apply(op, before).Commit? && after == Apply(op, before).next.(revision := before.revision + 1)
  {
  }

  lemma LoggedFresh(s: Sys, i: nat)
    requires Inv(s) && i < |s.log|
    ensures Fresh(s.log[i].op, s.history[i])
  {
    hide Apply, Valid, CallsOk;
    assert forall k :: 0 <= k < i ==> s.log[k].call != s.log[i].call;
  }

  lemma NotCreatedTwice(s: Sys, i: nat, f: FileId)
    requires Inv(s) && i < |s.log| && CreatedBefore(s.log, i, f)
    ensures !(s.log[i].op.Create? && s.log[i].op.newFile == f)
  {
    hide Apply, Valid, CallsOk, Serial, IdsTraced;
    var k :| 0 <= k < i && k < |s.log| && s.log[k].op.Create? && s.log[k].op.newFile == f;
    assert s.log[k].call != s.log[i].call;
  }

  /** A file that disappears from the history never comes back. */
  lemma FileStays(s: Sys, i: nat, f: FileId)
    requires Inv(s) && i < |s.log| && f in s.history[i + 1].files && CreatedBefore(s.log, i, f)
    ensures f in s.history[i].files
  {
    hide Apply, Inv, SerialStep;
    NotCreatedTwice(s, i, f);
    HistoryStep(s, i);
    StepIs(s.history[i], s.log[i].op, s.history[i + 1]);
    IdsGrow(s.history[i], s.log[i].op);
  }

  lemma TracedFile(s: Sys, i: nat, f: FileId)
    requires Inv(s) && i < |s.history| && f in s.history[i].files
    ensures CreatedBefore(s.log, i, f)
  {
  }

  lemma CreatedWeaken(log: seq<LogEntry>, i: nat, j: nat, f: FileId)
    requires CreatedBefore(log, i, f) && i <= j
    ensures CreatedBefore(log, j, f)
  {
  }

  lemma {:induction false} WritesCounted(s: Sys, i: nat, j: nat, f: FileId)
    requires Inv(s) && i <= j < |s.history| && f in s.history[i].files && f in s.history[j].files
    ensures s.history[j].files[f].generation == s.history[i].files[f].generation + WritesTo(s.log[i..j], f)
    decreases j
  {
    hide Apply, Inv, SerialStep;
    HistoryLength(s);
    if i < j {
      TracedFile(s, i, f);
      CreatedWeaken(s.log, i, j - 1, f);
      FileStays(s, j - 1, f);
      WritesCounted(s, i, j - 1, f);
      HistoryStep(s, j - 1);
      LoggedFresh(s, j - 1);
      StepIs(s.history[j - 1], s.log[j - 1].op, s.history[j]);
      GenerationStep(s.history[j - 1], s.log[j - 1].op, f);
      assert s.log[i..j][..|s.log[i..j]| - 1] == s.log[i..j - 1];
    }
  }

  /** In every run, between two committed states a file's generation rises by the number of its
      committed writes. */
  lemma GenerationCountsWrites(t: seq<Sys>, i: nat, j: nat, f: FileId)
    requires IsRun(t) && i <= j < |t[|t| - 1].history|
    requires f in t[|t| - 1].history[i].files && f in t[|t| - 1].history[j].files
    ensures
      var s := t[|t| - 1];
      && |s.history| == |s.log| + 1
      && s.history[j].files[f].generation == s.history[i].files[f].generation + WritesTo(s.log[i..j], f)
  {
    hide Inv;
    RunInv(t);
    HistoryLength(t[|t| - 1]);
    WritesCounted(t[|t| - 1], i, j, f);
  }

  predicate SameGuardedWrite(log: seq<LogEntry>, i: nat, j: nat) {
    && i < |log| && j < |log| && log[i].op.Write? && log[j].op.Write? && log[i].op.file == log[j].op.file
    && log[i].op.expected.Some? && log[i].op.expected == log[j].op.expected
  }

  /** At most one write ever commits against a given expected generation of a file. */
  lemma OneWritePerGeneration(t: seq<Sys>, i: nat, j: nat)
    requires IsRun(t)
    requires SameGuardedWrite(t[|t| - 1].log, i, j)
    ensures i == j
  {
    hide Inv;
    RunInv(t);
    if i < j { EarlierWriteBumps(t[|t| - 1], i, j); }
    if j < i { EarlierWriteBumps(t[|t| - 1], j, i); }
  }

  lemma WriteGuard(before: Snapshot, op: Op, after: Snapshot)
    requires op.Write? && SerialStep(before, op, after)
    ensures op.file in before.files && op.file in after.files
    ensures op.expected.Some? ==> op.expected.value == before.files[op.file].generation
    ensures after.files[op.file].generation == before.files[op.file].generation + 1
  {
  }

  lemma EarlierWriteBumps(s: Sys, i: nat, j: nat)
    requires Inv(s) && i < j < |s.log|
    ensures !SameGuardedWrite(s.log, i, j)
  {
    hide Apply, Inv, SerialStep;
    if SameGuardedWrite(s.log, i, j) {
      HistoryLength(s);
      HistoryStep(s, i);
      HistoryStep(s, j);
      WriteGuard(s.history[i], s.log[i].op, s.history[i + 1]);
      WriteGuard(s.history[j], s.log[j].op, s.history[j + 1]);
      WritesCounted(s, i + 1, j, s.log[i].op.file);
    }
  }

  // ---- replica records under concurrency ----------------------------------------------------------

  ghost predicate HasRecord(s: Snapshot, c: ContentId, node: DeviceId) {
    c in s.placements && HasReplica(s.placements[c].replicas, node)
  }

  lemma SameNodesKeepRecord(rs: seq<Replica>, rs': seq<Replica>, node: DeviceId)
    requires |rs| <= |rs'| && forall i :: 0 <= i < |rs| ==> rs'[i].nodeId == rs[i].nodeId
    requires HasReplica(rs, node)
    ensures HasReplica(rs', node)
  {
    var i :| 0 <= i < |rs| && rs[i].nodeId == node;
    assert rs'[i].nodeId == node;
  }

  /** No edit of any kind removes a replica record. */
  lemma RecordsKept(s: Snapshot, op: Op, c: ContentId, node: DeviceId)
    requires Apply(op, s).Commit? && HasRecord(s, c, node)
    ensures HasRecord(Apply(op, s).next, c, node)
  {
    Frame(s, op);
    var s' := Apply(op, s).next;
    if op.Write? || op.Refresh? || op.Upsert? || op.Mark? {
      SameNodesKeepRecord(s.placements[c].replicas, s'.placements[c].replicas, node);
    }
  }

  /** A reconciler commit only ever edits the records of one content that is retained in the very
      state it commits onto; no other field of the snapshot changes. */
  lemma ReconcilerCommitsOnlyRetained(t: seq<Sys>, i: nat)
    requires IsRun(t) && i < |t[|t| - 1].log|
    requires t[|t| - 1].log[i].op.Refresh? || t[|t| - 1].log[i].op.Upsert?
    ensures
      var s := t[|t| - 1];
      && i + 1 < |s.history|
      && OnlyReplicasOf(s.history[i], s.log[i].op.content, s.history[i + 1])
  {
    hide Inv, Apply, SerialStep;
    RunInv(t);
    HistoryStep(t[|t| - 1], i);
    ReconcilerStep(t[|t| - 1].history[i], t[|t| - 1].log[i].op, t[|t| - 1].history[i + 1]);
  }

  ghost predicate OnlyReplicasOf(before: Snapshot, c: ContentId, after: Snapshot) {
    && Retained(before, c) && c in before.placements && c in after.placements
    && after == WithReplicas(before, c, after.placements[c].replicas).(revision := before.revision + 1)
  }

  lemma ReconcilerStep(before: Snapshot, op: Op, after: Snapshot)
    requires (op.Refresh? || op.Upsert?) && SerialStep(before, op, after)
    ensures OnlyReplicasOf(before, op.content, after)
  {
  }

  lemma HistoryLength(s: Sys)
    requires Inv(s)
    ensures |s.history| == |s.log| + 1
  {
  }

  lemma HistoryStep(s: Sys, i: nat)
    requires Inv(s) && i < |s.log|
    ensures i + 1 < |s.history| && SerialStep(s.history[i], s.log[i].op, s.history[i + 1])
  {
    hide Apply, Valid, SerialStep;
  }

  /** A replica record, once committed by anyone, is in every later committed state. */
  lemma {:induction false} RecordsNeverLost(t: seq<Sys>, i: nat, j: nat, c: ContentId, node: DeviceId)
    requires IsRun(t) && i <= j < |t[|t| - 1].history| && HasRecord(t[|t| - 1].history[i], c, node)
    ensures HasRecord(t[|t| - 1].history[j], c, node)
    decreases j
  {
    hide Inv, Apply, HasReplica, Next, SerialStep;
    if i < j {
      RunInv(t);
      var s := t[|t| - 1];
      RecordsNeverLost(t, i, j - 1, c, node);
      HistoryLength(s);
      HistoryStep(s, j - 1);
      StepIs(s.history[j - 1], s.log[j - 1].op, s.history[j]);
      RecordsKept(s.history[j - 1], s.log[j - 1].op, c, node);
    }
  }
}
