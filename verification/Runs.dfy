/** Whole runs of the database, with any number of crashes and recoveries in them. */
module Runs {
  import opened Ordering
  import opened Levels
  import opened Install
  import opened CompactionInputs
  import opened CompactionWork
  import opened CompactionRun
  import opened VersionBuilder
  import Manifest
  import opened MidCompactionFlush
  import opened History
  import opened Durability
  import opened Background
  import opened Recovery
  import opened Wrappers

  /** A database as `NewDB` leaves it. */
  ghost predicate Init(r: Run)
  {
    r == Run(Down(Disk(map[], [], Saved(Manifest.EmptyVersion(), 0, 2, 0))), [], 0, 0, 0, 0)
  }

  ghost predicate WriterStep(r: Run, r': Run)
  {
    || (exists ops :: BeginWrite(r, r', ops))
    || LogWrite(r, r')
    || ApplyWrite(r, r')
    || Acknowledge(r, r')
    || Rotate(r, r')
  }

  ghost predicate FlushStep(r: Run, r': Run)
  {
    || FlushReserve(r, r')
    || (exists file :: FlushBuild(r, r', file))
    || (exists F :: FlushRecord(r, r', F))
    || FlushInstall(r, r')
  }

  ghost predicate CompactionStep(r: Run, r': Run)
  {
    || JobStart(r, r')
    || (exists es :: JobOutput(r, r', es))
    || (exists L, I0, I1, outs :: JobRecord(r, r', L, I0, I1, outs))
    || (exists L, f :: JobMove(r, r', L, f))
    || JobInstall(r, r')
    || JobAbandon(r, r')
  }

  ghost predicate RemovalStep(r: Run, r': Run)
  {
    || Sweep(r, r')
    || (exists n :: RemoveTable(r, r', n))
    || (exists n :: RemoveLog(r, r', n))
  }

  ghost predicate ReaderStep(r: Run, r': Run)
  {
    || Pin(r, r')
    || (exists v :: Unpin(r, r', v))
    || TakeSnapshot(r, r')
    || (exists i :: ReleaseSnapshot(r, r', i))
  }

  ghost predicate RecoveryStep(r: Run, r': Run)
  {
    || Crash(r, r')
    || (exists n, es :: Leftover(r, r', n, es))
    || (exists n :: LeftoverLog(r, r', n))
    || (exists files, next :: Recover(r, r', files, next))
  }

  ghost predicate Step(r: Run, r': Run)
  {
    WriterStep(r, r') || FlushStep(r, r') || CompactionStep(r, r') || RemovalStep(r, r') || ReaderStep(r, r')
        || RecoveryStep(r, r')
  }

  ghost predicate IsRun(rs: seq<Run>)
  {
    |rs| > 0 && Init(rs[0]) && forall i :: 0 <= i < |rs| - 1 ==> Step(rs[i], rs[i + 1])
  }

  lemma {:induction false} WriterStepInv(r: Run, r': Run)
    requires Inv(r) && WriterStep(r, r')
    ensures Inv(r')
  {
    hide Inv, BeginWrite, LogWrite, ApplyWrite, Acknowledge, Rotate;
    if ops :| BeginWrite(r, r', ops) { BeginWriteInv(r, r', ops); }
    else if LogWrite(r, r') { LogWriteInv(r, r'); }
    else if ApplyWrite(r, r') { ApplyWriteInv(r, r'); }
    else if Acknowledge(r, r') { AcknowledgeInv(r, r'); }
    else { RotateInv(r, r'); }
  }

  lemma {:induction false} FlushStepInv(r: Run, r': Run)
    requires Inv(r) && FlushStep(r, r')
    ensures Inv(r')
  {
    hide Inv, FlushReserve, FlushBuild, FlushRecord, FlushInstall;
    if FlushReserve(r, r') { FlushReserveInv(r, r'); }
    else if file :| FlushBuild(r, r', file) { FlushBuildInv(r, r', file); }
    else if F: nat :| FlushRecord(r, r', F) { FlushRecordInv(r, r', F); }
    else { FlushInstallInv(r, r'); }
  }

  lemma {:induction false} CompactionStepInv(r: Run, r': Run)
    requires Inv(r) && CompactionStep(r, r')
    ensures Inv(r')
  {
    hide Inv, JobStart, JobOutput, JobRecord, JobMove, JobInstall, JobAbandon;
    if JobStart(r, r') { JobStartInv(r, r'); }
    else if es :| JobOutput(r, r', es) { JobOutputInv(r, r', es); }
    else if L: nat, I0, I1, outs :| JobRecord(r, r', L, I0, I1, outs) { JobRecordInv(r, r', L, I0, I1, outs); }
    else if L: nat, f :| JobMove(r, r', L, f) { JobMoveInv(r, r', L, f); }
    else if JobInstall(r, r') { JobInstallInv(r, r'); }
    else { JobAbandonInv(r, r'); }
  }

  lemma {:induction false} RemovalStepInv(r: Run, r': Run)
    requires Inv(r) && RemovalStep(r, r')
    ensures Inv(r')
  {
    hide Inv, Sweep, RemoveTable, RemoveLog;
    if Sweep(r, r') { SweepInv(r, r'); }
    else if n: nat :| RemoveTable(r, r', n) { RemoveTableInv(r, r', n); }
    else { var n: nat :| RemoveLog(r, r', n); RemoveLogInv(r, r', n); }
  }

  lemma {:induction false} ReaderStepInv(r: Run, r': Run)
    requires Inv(r) && ReaderStep(r, r')
    ensures Inv(r')
  {
    hide Inv, Pin, Unpin, TakeSnapshot, ReleaseSnapshot;
    if Pin(r, r') { PinInv(r, r'); }
    else if v :| Unpin(r, r', v) { UnpinInv(r, r', v); }
    else if TakeSnapshot(r, r') { TakeSnapshotInv(r, r'); }
    else { var i: nat :| ReleaseSnapshot(r, r', i); ReleaseSnapshotInv(r, r', i); }
  }

  lemma {:induction false} RecoveryStepInv(r: Run, r': Run)
    requires Inv(r) && RecoveryStep(r, r')
    ensures Inv(r')
  {
    hide Inv, Crash, Leftover, LeftoverLog, Recover;
    if Crash(r, r') { CrashInv(r, r'); }
    else if n: nat, es :| Leftover(r, r', n, es) { LeftoverInv(r, r', n, es); }
    else if n: nat :| LeftoverLog(r, r', n) { LeftoverLogInv(r, r', n); }
    else { var files, next: nat :| Recover(r, r', files, next); RecoverInv(r, r', files, next); }
  }

  lemma {:induction false} StepInv(r: Run, r': Run)
    requires Inv(r) && Step(r, r')
    ensures Inv(r')
  {
    hide Inv, WriterStep, FlushStep, CompactionStep, RemovalStep, ReaderStep, RecoveryStep;
    if WriterStep(r, r') { WriterStepInv(r, r'); }
    else if FlushStep(r, r') { FlushStepInv(r, r'); }
    else if CompactionStep(r, r') { CompactionStepInv(r, r'); }
    else if RemovalStep(r, r') { RemovalStepInv(r, r'); }
    else if ReaderStep(r, r') { ReaderStepInv(r, r'); }
    else { RecoveryStepInv(r, r'); }
  }

  lemma {:induction false} InitInv(r: Run)
    requires Init(r)
    ensures Inv(r)
  {
    EmptyVersionMirrors();
    hide Mirrors;
    assert Contiguous([]);
  }

  lemma {:induction false} EmptyVersionMirrors()
    ensures Mirrors(Manifest.EmptyVersion(), [], 0)
  {
    var v := Manifest.EmptyVersion();
    OnlyLevelEntries(v, 1);
    assert LevelEntries([]) == {} && Written([]) == {};
    OnlyLevelValid(v, 1);
  }

  /** Every state of every run satisfies the invariant. */
  lemma {:induction false} RunInv(rs: seq<Run>)
    requires IsRun(rs)
    ensures Inv(rs[|rs| - 1])
  {
    hide Inv, Step, Init;
    var n := |rs| - 1;
    if n == 0 {
      InitInv(rs[0]);
    } else {
      var before := rs[..n];
      assert forall i :: 0 <= i < n - 1 ==> Step(before[i], before[i + 1]);
      RunInv(before);
      assert Step(rs[n - 1], rs[n]);
      StepInv(rs[n - 1], rs[n]);
    }
  }

  // ----- what readers see

  /** Entries above the snapshot are not seen. */
  lemma {:induction false} NewerIsInvisible(h: seq<Batch>, b: Batch, u: UserKey, s: nat)
    requires Contiguous(h + [b]) && s <= End(h)
    ensures View(Written(h + [b]), u, s) == View(Written(h), u, s)
  {
    var g := h + [b];
    assert g[..|h|] == h && g[|h|..] == [b];
    WrittenSplit(g, |h|);
    WrittenUnique(g);
    var A, C := Written(h), Written([b]);
    forall d, e | d in A && e in C ensures d.key.sequence < e.key.sequence { PrefixBelowSuffix(g, |h|, d, e); }
    forall e | e in C ensures !Visible(e, u, s) { InSuffix(g, |h|, e); }
    StackCases(A, C, u, s);
    assert C + A == Written(g);
  }

  /** Newer tiers are above older ones, and together they read as the history does. */
  ghost predicate TiersRead(M: set<Entry>, I: set<Entry>, A: set<Entry>, H: set<Entry>, u: UserKey, s: nat)
  {
    Above(M, I + A) && Above(I, A) && UniqueSeqs(M + (I + A)) && View(M + (I + A), u, s) == View(H, u, s)
  }

  /** The three tiers hold the applied history between them, newest first. */
  lemma {:induction false} TiersInOrder(v: Version, imm: seq<Entry>, mem: seq<Entry>, h: seq<Batch>, flushed: nat,
                                        rotated: nat, u: UserKey, s: nat)
    requires Contiguous(h) && flushed <= rotated <= |h|
    requires Entries(v) <= Written(h[..flushed]) && View(Entries(v), u, s) == View(Written(h[..flushed]), u, s)
    requires SetOf(imm) == Written(h[flushed..rotated]) && SetOf(mem) == Written(h[rotated..])
    ensures TiersRead(SetOf(mem), SetOf(imm), Entries(v), Written(h), u, s)
  {
    var A, B, I, M, H := Entries(v), Written(h[..flushed]), SetOf(imm), SetOf(mem), Written(h);
    TierSets(h, flushed, rotated);
    WrittenUnique(h);
    hide Contiguous, SetOf, Written, Entries, View;
    SetTiers(A, B, I, M, H, u, s);
  }

  lemma {:induction false} SetTiers(A: set<Entry>, B: set<Entry>, I: set<Entry>, M: set<Entry>, H: set<Entry>,
                                    u: UserKey, s: nat)
    requires A <= B && H == B + (I + M) && UniqueSeqs(H) && View(A, u, s) == View(B, u, s)
    requires forall a, b :: a in B && b in I ==> a.key.sequence < b.key.sequence
    requires forall a, b :: a in B + I && b in M ==> a.key.sequence < b.key.sequence
    ensures View(M + (I + A), u, s) == View(H, u, s)
    ensures Above(M, I + A) && Above(I, A) && UniqueSeqs(M + (I + A))
  {
    StackReads(A, B, I + M, H, u, s);
    assert I + M + A == M + (I + A);
  }

  lemma {:induction false} TierSets(h: seq<Batch>, flushed: nat, rotated: nat)
    requires Contiguous(h) && flushed <= rotated <= |h|
    ensures Written(h) == Written(h[..flushed]) + (Written(h[flushed..rotated]) + Written(h[rotated..]))
    ensures forall a, b :: a in Written(h[..flushed]) && b in Written(h[flushed..rotated]) ==>
            a.key.sequence < b.key.sequence
    ensures forall a, b :: a in Written(h[..flushed]) + Written(h[flushed..rotated]) && b in Written(h[rotated..]) ==>
            a.key.sequence < b.key.sequence
  {
    var p := h[..rotated];
    assert p[..flushed] == h[..flushed] && p[flushed..] == h[flushed..rotated];
    ContiguousPrefix(h, rotated);
    WrittenSplit(h, rotated);
    WrittenSplit(p, flushed);
    forall a, b | a in Written(h[..flushed]) && b in Written(h[flushed..rotated])
        ensures a.key.sequence < b.key.sequence {
      PrefixBelowSuffix(p, flushed, a, b);
    }
    forall a, b | a in Written(p) && b in Written(h[rotated..]) ensures a.key.sequence < b.key.sequence {
      PrefixBelowSuffix(h, rotated, a, b);
    }
  }

  /** In every state of a run the memtables are sorted, the version is valid, and the three read
      together as what was acknowledged. */
  lemma {:induction false} StateReadsHistory(r: Run, u: UserKey, s: nat)
    requires Inv(r) && r.state.Up? && r.cutoff <= s <= r.state.m.lastSequence
    ensures var m := r.state.m;
            && Valid(m.current) && Sorted(m.mem) && Sorted(m.imm.GetOr([]))
            && TiersRead(SetOf(m.mem), SetOf(m.imm.GetOr([])), Entries(m.current), Written(r.acked), u, s)
  {
    hide DiskOk, WorkOk, LogsOk, WriterOk, Contiguous, View, SetOf, Written, Above, UniqueSeqs;
    var m, h := r.state.m, AppliedHistory(r);
    MirrorIsValid(m.current, r.acked[..r.flushed], r.cutoff);
    hide Valid;
    assert h == LoggedHistory(r)[..|h|];
    ContiguousPrefix(LoggedHistory(r), |h|);
    assert h[..r.flushed] == r.acked[..r.flushed] && h[r.flushed..r.rotated] == r.acked[r.flushed..r.rotated];
    if m.imm.None? {
      EmptyTier(h, r.flushed);
    }
    TiersInOrder(m.current, m.imm.GetOr([]), m.mem, h, r.flushed, r.rotated, u, s);
    if h != r.acked {
      NewerIsInvisible(r.acked, m.writer.batch, u, s);
    }
  }

  /** `Get` at any sequence number a reader may hold returns what the history says. */
  lemma {:induction false} GetReadsHistory(r: Run, u: UserKey, s: nat)
    requires Inv(r) && r.state.Up? && r.cutoff <= s <= r.state.m.lastSequence
    ensures |r.state.m.current.levels| == NUM_LEVELS
    ensures AsReading(DbGet(r.state.m.mem, r.state.m.imm.GetOr([]), r.state.m.current, u, s)) ==
            View(Written(r.acked), u, s)
  {
    StateReadsHistory(r, u, s);
    DbGetReadsView(r.state.m.mem, r.state.m.imm.GetOr([]), r.state.m.current, u, s);
  }

  lemma {:induction false} EmptyTier(h: seq<Batch>, k: nat)
    requires k <= |h|
    ensures Sorted([]) && SetOf([]) == Written(h[k..k])
  {
    assert h[k..k] == [];
  }

  /** The history read at `s` is the map its first `s` operations leave. */
  lemma {:induction false} HistoryIsStore(r: Run, u: UserKey, s: nat)
    requires Inv(r) && r.state.Up? && s <= r.state.m.lastSequence
    ensures |AllOps(r.acked)| == r.state.m.lastSequence
    ensures View(Written(r.acked), u, s) == Lookup(Store(AllOps(r.acked)[..s]), u)
  {
    hide DiskOk, WorkOk, MemOk, LogsOk, ImmOk, Mirrors, Written, Contiguous, WriterOk, End, AllOps, Store, View;
    AckedContiguous(r);
    EndIsCount(r.acked);
    ReadsAsStore(r.acked, u, s);
  }

  /** The sequence numbers a reader may hold: the newest one, or a snapshot not released. */
  ghost predicate Readable(r: Run, s: nat)
  {
    r.state.Up? && (s == r.state.m.lastSequence || s in r.state.m.snapshots)
  }

  /** What `Get` returns in this state. */
  ghost function ReadAt(r: Run, u: UserKey, s: nat): Option<Val>
    requires r.state.Up? && |r.state.m.current.levels| == NUM_LEVELS
  {
    AsReading(DbGet(r.state.m.mem, r.state.m.imm.GetOr([]), r.state.m.current, u, s))
  }

  /** In every run: a read at sequence number `s` is a lookup in the plain map that the first `s` acknowledged
      operations leave, where a put sets a key and a deletion removes it. */
  lemma {:induction false} ReadsAreStore(rs: seq<Run>, u: UserKey, s: nat)
    requires IsRun(rs) && Readable(rs[|rs| - 1], s)
    ensures var r := rs[|rs| - 1];
            && s <= |AllOps(r.acked)| == r.state.m.lastSequence
            && |r.state.m.current.levels| == NUM_LEVELS
            && ReadAt(r, u, s) == Lookup(Store(AllOps(r.acked)[..s]), u)
  {
    hide Step, Init, DbGet, View, Written, AsReading, AllOps, Store;
    RunInv(rs);
    var r := rs[|rs| - 1];
    ReadableInRange(r, s);
    GetReadsHistory(r, u, s);
    HistoryIsStore(r, u, s);
  }

  lemma {:induction false} ReadableInRange(r: Run, s: nat)
    requires Inv(r) && Readable(r, s)
    ensures r.cutoff <= s <= r.state.m.lastSequence
  {
    hide DiskOk, HistoryOk, FilesOk, PendingOk, DoomedOk, DoomedLogsOk, PhaseOk, FlushOk, JobOk, Contiguous;
  }

  // ----- acknowledged writes survive

  /** A step never drops a batch from the history, and adds at most the one being written. */
  ghost predicate Extends(r: Run, r': Run)
  {
    r'.acked == r.acked || (r.state.Up? && r.state.m.writer != Idle && r'.acked == r.acked + [r.state.m.writer.batch])
  }

  lemma {:induction false} StepExtends(r: Run, r': Run)
    requires Step(r, r')
    ensures Extends(r, r')
  {
    hide TableOf, FlushAfter, PickedLevel, Installable, Replay, AppendRecord, ObsoleteTables, ObsoleteLogs, WithoutLog,
         InsertOps, Opened, Valid;
  }

  /** Whatever was acknowledged at some moment of a run is part of the history, in order, at
      every later moment: through compactions, crashes and recoveries. */
  lemma {:induction false} AcknowledgedSurvives(rs: seq<Run>, i: nat, j: nat)
    requires IsRun(rs) && i <= j < |rs|
    ensures rs[i].acked <= rs[j].acked
    decreases j
  {
    hide Step, Init;
    if i < j {
      AcknowledgedSurvives(rs, i, j - 1);
      assert Step(rs[j - 1], rs[j - 1 + 1]);
      StepExtends(rs[j - 1], rs[j]);
    }
  }

  /** While the database is down nothing is added to the history. */
  lemma {:induction false} DownKeeps(rs: seq<Run>, i: nat, j: nat)
    requires IsRun(rs) && i <= j < |rs| && forall k :: i <= k < j ==> rs[k].state.Down?
    ensures rs[j].acked == rs[i].acked
    decreases j
  {
    hide Step, Init;
    if i < j {
      DownKeeps(rs, i, j - 1);
      assert Step(rs[j - 1], rs[j - 1 + 1]);
      StepExtends(rs[j - 1], rs[j]);
    }
  }

  /** A crash after step `i` and the recovery that ends it at step `j`: everything acknowledged before is
      there again, and at most the group that was being written comes on top, as a whole. */
  lemma {:induction false} RecoveryRestores(rs: seq<Run>, i: nat, j: nat, u: UserKey)
    requires IsRun(rs) && i + 1 < j < |rs| && rs[i].state.Up? && rs[j].state.Up?
    requires forall k :: i < k < j ==> rs[k].state.Down?
    ensures rs[j].acked == rs[i].acked
            || (rs[i].state.m.writer != Idle && rs[j].acked == rs[i].acked + [rs[i].state.m.writer.batch])
    ensures |rs[j].state.m.current.levels| == NUM_LEVELS
    ensures ReadAt(rs[j], u, rs[j].state.m.lastSequence) == Lookup(Store(AllOps(rs[j].acked)), u)
  {
    hide Step, Init;
    assert Step(rs[i], rs[i + 1]);
    StepExtends(rs[i], rs[i + 1]);
    DownKeeps(rs, i + 1, j);
    NewestRead(rs, j, u);
  }

  lemma {:induction false} NewestRead(rs: seq<Run>, j: nat, u: UserKey)
    requires IsRun(rs) && j < |rs| && rs[j].state.Up?
    ensures |rs[j].state.m.current.levels| == NUM_LEVELS
    ensures ReadAt(rs[j], u, rs[j].state.m.lastSequence) == Lookup(Store(AllOps(rs[j].acked)), u)
  {
    hide Step, Init, AllOps, Store, ReadAt;
    PrefixOfRun(rs, j);
    ReadsAreStore(rs[..j + 1], u, rs[j].state.m.lastSequence);
    var ops := AllOps(rs[j].acked);
    assert ops[..|ops|] == ops;
  }

  /** Where every acknowledged batch is on disk: the recorded version reads as a prefix of the history, and each
      batch past that prefix is in a log that recovery replays. */
  lemma {:induction false} AcknowledgedIsStored(rs: seq<Run>, k: nat)
    requires IsRun(rs) && k < |rs[|rs| - 1].acked|
    ensures var r := rs[|rs| - 1];
            || (k < r.durable <= |LoggedHistory(r)|
               && Mirrors(r.state.disk.saved.version, LoggedHistory(r)[..r.durable], r.cutoff))
            || InNeededLog(r.state.disk, r.acked[k])
  {
    hide Mirrors, Inv, InNeededLog;
    RunInv(rs);
    StoredOnDisk(rs[|rs| - 1], k);
  }

  lemma {:induction false} StoredOnDisk(r: Run, k: nat)
    requires Inv(r) && k < |r.acked|
    ensures || (k < r.durable <= |LoggedHistory(r)|
            && Mirrors(r.state.disk.saved.version, LoggedHistory(r)[..r.durable], r.cutoff))
            || InNeededLog(r.state.disk, r.acked[k])
  {
    hide Mirrors, HistoryOk, WorkOk, Contiguous, Pending, OnDisk, End, Ascending, NumbersBelow;
    var h, disk := LoggedHistory(r), r.state.disk;
    if k >= r.durable {
      assert h[r.durable..][k - r.durable] == r.acked[k];
      PendingIsLogged(disk.logs, disk.saved.logNumber, r.acked[k]);
    }
  }

  ghost predicate InNeededLog(disk: Disk, b: Batch)
  {
    exists i :: 0 <= i < |disk.logs| && disk.logs[i].number >= disk.saved.logNumber && b in disk.logs[i].batches
  }

  lemma {:induction false} PendingIsLogged(logs: seq<Log>, n: nat, b: Batch)
    requires b in Pending(logs, n)
    ensures exists i :: 0 <= i < |logs| && logs[i].number >= n && b in logs[i].batches
  {
    var k := |logs| - 1;
    if b in Pending(logs[..k], n) {
      PendingIsLogged(logs[..k], n, b);
      var i :| 0 <= i < k && logs[..k][i].number >= n && b in logs[..k][i].batches;
      assert logs[i] == logs[..k][i];
    } else {
      assert b in logs[k].batches;
    }
  }

  lemma {:induction false} PrefixOfRun(rs: seq<Run>, j: nat)
    requires IsRun(rs) && j < |rs|
    ensures IsRun(rs[..j + 1]) && rs[..j + 1][|rs[..j + 1]| - 1] == rs[j]
  {
    hide Step, Init;
    var before := rs[..j + 1];
    assert forall i :: 0 <= i < j ==> Step(before[i], before[i + 1]);
  }

  /** Operation `p` of those acknowledged at step `i` is the last one on its key at step `j`, however many
      compactions, crashes and recoveries lie between: a put reads back as its value, a deletion as absent. */
  lemma {:induction false} WriteReadsBack(rs: seq<Run>, i: nat, j: nat, p: nat)
    requires IsRun(rs) && i <= j < |rs| && rs[j].state.Up?
    requires p < |AllOps(rs[i].acked)| <= |AllOps(rs[j].acked)|
    requires forall q :: p < q < |AllOps(rs[j].acked)| ==> AllOps(rs[j].acked)[q].key != AllOps(rs[i].acked)[p].key
    ensures |rs[j].state.m.current.levels| == NUM_LEVELS
    ensures var op, s := AllOps(rs[i].acked)[p], rs[j].state.m.lastSequence;
            ReadAt(rs[j], op.key, s) == if op.Put? then Some(op.value) else None
  {
    hide Step, Init, AllOps, Store, ReadAt;
    AcknowledgedSurvives(rs, i, j);
    OpsSurvive(rs[i].acked, rs[j].acked);
    var ops, op := AllOps(rs[j].acked), AllOps(rs[i].acked)[p];
    assert ops[p] == op && LastOn(ops, p, op.key);
    LastDecides(ops, op.key);
    NewestRead(rs, j, op.key);
  }

  /** A key that no acknowledged operation is on reads as absent. */
  lemma {:induction false} UnwrittenIsAbsent(rs: seq<Run>, j: nat, u: UserKey)
    requires IsRun(rs) && j < |rs| && rs[j].state.Up?
    requires forall op :: op in AllOps(rs[j].acked) ==> op.key != u
    ensures |rs[j].state.m.current.levels| == NUM_LEVELS
    ensures ReadAt(rs[j], u, rs[j].state.m.lastSequence) == None
  {
    hide Step, Init, AllOps, Store, ReadAt;
    LastDecides(AllOps(rs[j].acked), u);
    NewestRead(rs, j, u);
  }

  lemma {:induction false} OpsSurvive(g: seq<Batch>, h: seq<Batch>)
    requires g <= h
    ensures AllOps(g) <= AllOps(h)
  {
    assert h == g + h[|g|..];
    AllOpsConcat(g, h[|g|..]);
  }

  /** A snapshot taken at step `i` and not released at step `j` reads, for every key, as the database read when the
      snapshot was taken, whatever happened since. */
  lemma {:induction false} SnapshotIsFixed(rs: seq<Run>, i: nat, j: nat, u: UserKey)
    requires IsRun(rs) && i <= j < |rs| && rs[i].state.Up? && rs[j].state.Up?
    requires rs[i].state.m.lastSequence in rs[j].state.m.snapshots
    ensures |rs[i].state.m.current.levels| == NUM_LEVELS && |rs[j].state.m.current.levels| == NUM_LEVELS
    ensures var s := rs[i].state.m.lastSequence;
            ReadAt(rs[j], u, s) == ReadAt(rs[i], u, s) == Lookup(Store(AllOps(rs[i].acked)), u)
  {
    hide Step, Init, AllOps, Store, ReadAt;
    var s := rs[i].state.m.lastSequence;
    PrefixOfRun(rs, i);
    PrefixOfRun(rs, j);
    ReadsAreStore(rs[..i + 1], u, s);
    ReadsAreStore(rs[..j + 1], u, s);
    AcknowledgedSurvives(rs, i, j);
    OpsSurvive(rs[i].acked, rs[j].acked);
    var a, b := AllOps(rs[i].acked), AllOps(rs[j].acked);
    assert b[..s] == a && a[..s] == a;
  }

  /** No entry anywhere is numbered above the sequence counter that new writes continue from. */
  lemma {:induction false} EndOfHistory(r: Run, e: Entry)
    requires Inv(r) && r.state.Up? && e in Written(r.acked)
    ensures e.key.sequence <= r.state.m.lastSequence
  {
    hide DiskOk, WorkOk, MemOk, LogsOk, ImmOk, Mirrors, Written, Contiguous, WriterOk, End;
    AckedContiguous(r);
    assert r.acked[..|r.acked|] == r.acked;
    InPrefix(r.acked, |r.acked|, e);
  }

  lemma {:induction false} AckedContiguous(r: Run)
    requires Contiguous(LoggedHistory(r))
    ensures Contiguous(r.acked)
  {
    ContiguousPrefix(LoggedHistory(r), |r.acked|);
    assert LoggedHistory(r)[..|r.acked|] == r.acked;
  }

  // ----- compactions

  /** In every run, what a compaction installs is its input without old versions and spent deletions, all of them. */
  lemma {:induction false} CompactionsDistill(rs: seq<Run>, i: nat, L: nat, I0: seq<File>, I1: seq<File>,
                                              outs: seq<File>)
    requires IsRun(rs) && i + 1 < |rs| && JobRecord(rs[i], rs[i + 1], L, I0, I1, outs)
    ensures var m := rs[i].state.m;
            && Distilled(m.job.input, L, m.job.snap, MergeFiles(I0 + I1), Flat(outs))
            && |m.current.levels| == NUM_LEVELS
            && Installed(m.current, rs[i + 1].state.m.job.after, L, I0, I1, outs)
            && rs[i + 1].state.disk.saved.version == rs[i + 1].state.m.job.after
  {
    hide Step, Init, Distilled, Installed;
    PrefixOfRun(rs, i);
    RunInv(rs[..i + 1]);
    var disk, m := rs[i].state.disk, rs[i].state.m;
    JobSound(rs[i]);
    hide Inv, Grown, FlushesClear, Produced, Valid, Paired, Next, EditOk;
    ProducedIsDistilled(m.job, L, I0, I1, outs, disk.tables);
    JobReadsLike(m.job, m.current, L, I0, I1, outs, disk.tables);
  }

  lemma {:induction false} JobSound(r: Run)
    requires Inv(r) && r.state.Up? && r.state.m.job.Working?
    ensures var m := r.state.m;
            Valid(m.current) && Grown(m.job.input, m.current) && forall n :: n in m.job.outputs ==> !Uses(m.current, n)
  {
    hide Contiguous, DiskOk, LogsOk, MemOk, FilesOk, PendingOk, DoomedOk, DoomedLogsOk, SnapshotsOk, PhaseOk,
         FlushOk, Grown, Uses, Valid;
    var m := r.state.m;
    MirrorIsValid(m.current, r.acked[..r.flushed], r.cutoff);
    assert m.current in Live(r.state.disk, m);
  }

  // ----- files

  /** A version that someone refers to: it is current, recorded, pinned by a reader or being compacted. */
  ghost predicate RefersTo(r: Run, v: Version)
  {
    && r.state.Up?
    && (v == r.state.m.current || v == r.state.disk.saved.version || v in r.state.m.pinned
       || (r.state.m.job.Working? && v == r.state.m.job.input))
  }

  /** In every reachable state, every file of every version that someone refers to is on disk with its contents,
      under a number already handed out. */
  lemma {:induction false} LiveFilesStay(rs: seq<Run>, v: Version, l: nat, f: File)
    requires IsRun(rs) && RefersTo(rs[|rs| - 1], v) && l < |v.levels| && f in v.levels[l]
    ensures var disk := rs[|rs| - 1].state.disk; f.number in disk.tables && disk.tables[f.number] == f.entries
    ensures f.number < rs[|rs| - 1].state.m.nextFile
  {
    RunInv(rs);
    hide Step, Init, DiskOk, HistoryOk, PendingOk, DoomedOk, DoomedLogsOk, SnapshotsOk, PhaseOk, FlushOk, JobOk, IsRun;
    var r := rs[|rs| - 1];
    assert v in Live(r.state.disk, r.state.m);
    assert OnDisk(r.state.disk.tables, v) && NumbersBelow(v, r.state.m.nextFile);
  }

  /** Whatever is about to be deleted: a table of no version that someone refers to, that nobody is writing and that
      no flush has just built; a log below the first one recovery reads. */
  lemma {:induction false} RemovalIsSafe(rs: seq<Run>, n: nat, v: Version, l: nat, f: File)
    requires IsRun(rs) && RefersTo(rs[|rs| - 1], v) && l < |v.levels| && f in v.levels[l]
    ensures var disk, m := rs[|rs| - 1].state.disk, rs[|rs| - 1].state.m;
            && f.number !in m.doomedTables
            && (n in m.doomedTables ==> n !in m.pending && !m.flush.Built?)
            && (n in m.doomedLogs ==> n < disk.saved.logNumber)
  {
    hide Step, Init, Inv, Uses;
    RunInv(rs);
    FileIsUsed(v, l, f);
    DoomedIsUnused(rs[|rs| - 1], n, v, f.number);
  }

  lemma {:induction false} DoomedIsUnused(r: Run, n: nat, v: Version, number: nat)
    requires Inv(r) && RefersTo(r, v) && Uses(v, number)
    ensures var disk, m := r.state.disk, r.state.m;
            && number !in m.doomedTables
            && (n in m.doomedTables ==> n !in m.pending && !m.flush.Built?)
            && (n in m.doomedLogs ==> n < disk.saved.logNumber)
  {
    hide Contiguous, DiskOk, HistoryOk, PendingOk, FilesOk, SnapshotsOk, PhaseOk, JobOk, Uses, NumbersBelow, TableOf;
    assert v in Live(r.state.disk, r.state.m);
  }

  lemma {:induction false} FileIsUsed(v: Version, l: nat, f: File)
    requires l < |v.levels| && f in v.levels[l]
    ensures Uses(v, f.number)
  {
  }
}
