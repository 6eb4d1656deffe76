/** What survives a crash. The database is a state machine over log files, table files, the
    MANIFEST and the memtables; every step keeps an invariant from which recovery rebuilds
    the readings of all acknowledged writes, plus at most the one group in flight. */
module Durability {
  import opened Ordering
  import opened Levels
  import opened History
  import opened VersionBuilder
  import opened Flush
  import opened CompactionRun
  import opened MidCompactionFlush
  import opened Wrappers

  // ----- states

  datatype Log = Log(number: nat, batches: seq<Batch>)

  /** What the MANIFEST records: a version and the counters logged with it. */
  datatype Saved = Saved(version: Version, logNumber: nat, nextFile: nat, lastSequence: nat)

  /** Files on disk; logs are listed by ascending number. */
  datatype Disk = Disk(tables: map<nat, seq<Entry>>, logs: seq<Log>, saved: Saved)

  /** The leading writer: its group is numbered, appended to the log, then inserted into the
      memtable, and only then acknowledged. */
  datatype Writer = Idle | Assigned(batch: Batch) | Logged(batch: Batch) | Applied(batch: Batch)

  /** A flush: a file number is reserved, the table written, the edit logged. An empty
      memtable yields no table. */
  datatype Flushing = NoFlush | Reserved(number: nat) | Built(number: nat,
      file: Option<File>) | Recorded(after: Version)

  /** A compaction: it works on a pinned input version, then its edit is logged. */
  datatype Job = NoJob | Working(snap: nat, input: Version, outputs: set<nat>) | Installing(after: Version,
      outputs: set<nat>)

  datatype Memory = Memory(
    mem: seq<Entry>, imm: Option<seq<Entry>>, logNumber: nat,
    current: Version, pinned: set<Version>, nextFile: nat, lastSequence: nat,
    snapshots: seq<nat>, pending: set<nat>,
    writer: Writer, flush: Flushing, job: Job,
    doomedTables: set<nat>, doomedLogs: set<nat>)

  datatype State = Up(disk: Disk, m: Memory) | Down(disk: Disk)

  /** A state with its history: the batches acknowledged (or found again by a recovery), how
      many of them the MANIFEST's version, the current version and the versions plus the
      immutable memtable cover, and the oldest snapshot readings are still kept for. */
  datatype Run = Run(state: State, acked: seq<Batch>, durable: nat, flushed: nat, rotated: nat, cutoff: nat)

  /** The acknowledged batches and the one whose log record is complete. */
  function LoggedHistory(r: Run): seq<Batch>
  {
    if r.state.Up? && (r.state.m.writer.Logged? || r.state.m.writer.Applied?) then r.acked + [r.state.m.writer.batch]
    else r.acked
  }

  function AppliedHistory(r: Run): seq<Batch>
  {
    if r.state.Up? && r.state.m.writer.Applied? then r.acked + [r.state.m.writer.batch] else r.acked
  }

  // ----- the invariant

  ghost predicate Ascending(logs: seq<Log>)
  {
    forall i, j :: 0 <= i < j < |logs| ==> logs[i].number < logs[j].number
  }

  /** The batches of the logs numbered `n` or more, in log order. */
  function Pending(logs: seq<Log>, n: nat): seq<Batch>
  {
    if logs == [] then []
    else
      var k := |logs| - 1;
      Pending(logs[..k], n) + (if logs[k].number >= n then logs[k].batches else [])
  }

  /** The version holds only entries of `h` and reads like all of them from `cutoff` on. */
  ghost predicate Mirrors(v: Version, h: seq<Batch>, cutoff: nat)
  {
    && Valid(v)
    && Entries(v) <= Written(h)
    && forall u, s :: cutoff <= s ==> View(Entries(v), u, s) == View(Written(h), u, s)
  }

  ghost predicate OnDisk(tables: map<nat, seq<Entry>>, v: Version)
  {
    forall l, f :: 0 <= l < |v.levels| && f in v.levels[l] ==> f.number in tables && tables[f.number] == f.entries
  }

  ghost predicate NumbersBelow(v: Version, n: nat)
  {
    forall l, f :: 0 <= l < |v.levels| && f in v.levels[l] ==> f.number < n
  }

  ghost predicate Uses(v: Version, number: nat)
  {
    exists l, f :: 0 <= l < |v.levels| && f in v.levels[l] && f.number == number
  }

  /** What the disk alone guarantees about the history `h`. */
  ghost predicate DiskOk(disk: Disk, h: seq<Batch>, durable: nat, cutoff: nat)
  {
    && durable <= |h|
    && Ascending(disk.logs)
    && Pending(disk.logs, disk.saved.logNumber) == h[durable..]
    && Mirrors(disk.saved.version, h[..durable], cutoff)
    && End(h[..durable]) <= disk.saved.lastSequence <= End(h)
    && OnDisk(disk.tables, disk.saved.version)
    && NumbersBelow(disk.saved.version, disk.saved.nextFile)
    && disk.saved.logNumber < disk.saved.nextFile
  }

  /** Versions somebody still refers to. */
  ghost function Referenced(saved: Version, current: Version, pinned: set<Version>, job: Job): set<Version>
  {
    pinned + {current, saved} + (if job.Working? then {job.input} else {})
  }

  ghost function Live(disk: Disk, m: Memory): set<Version>
  {
    Referenced(disk.saved.version, m.current, m.pinned, m.job)
  }

  /** Every referenced version's files are on disk under numbers already handed out. */
  ghost predicate FilesOk(tables: map<nat, seq<Entry>>, live: set<Version>, nextFile: nat)
  {
    forall v :: v in live ==> OnDisk(tables, v) && NumbersBelow(v, nextFile)
  }

  /** Files marked for removal are neither referenced nor being written. */
  ghost predicate DoomedOk(doomed: set<nat>, pending: set<nat>, live: set<Version>)
  {
    forall n :: n in doomed ==> n !in pending && forall v :: v in live ==> !Uses(v, n)
  }

  ghost predicate PendingOk(pending: set<nat>, nextFile: nat, job: Job)
  {
    && (forall n :: n in pending ==> n < nextFile)
    && (job.Working? ==> job.outputs <= pending)
  }

  ghost predicate DoomedLogsOk(doomed: set<nat>, logNumber: nat)
  {
    forall n :: n in doomed ==> n < logNumber
  }

  ghost predicate LogsOk(logs: seq<Log>, saved: Saved, logNumber: nat, nextFile: nat, h: seq<Batch>, rotated: nat)
  {
    && rotated <= |h|
    && |logs| > 0
    && logs[|logs| - 1] == Log(logNumber, h[rotated..])
    && saved.logNumber <= logNumber < nextFile
    && saved.nextFile <= nextFile
  }

  ghost predicate ImmOk(imm: Option<seq<Entry>>, h: seq<Batch>, flushed: nat, rotated: nat)
  {
    && flushed <= rotated <= |h|
    && (imm.None? ==> flushed == rotated)
    && (imm.Some? ==> Sorted(imm.value) && SetOf(imm.value) == Written(h[flushed..rotated]))
  }

  ghost predicate MemOk(mem: seq<Entry>, h: seq<Batch>, rotated: nat)
  {
    rotated <= |h| && Sorted(mem) && SetOf(mem) == Written(h[rotated..])
  }

  ghost predicate SnapshotsOk(snapshots: seq<nat>, lastSequence: nat, job: Job, cutoff: nat)
  {
    && cutoff <= lastSequence
    && (forall i :: 0 <= i < |snapshots| ==> cutoff <= snapshots[i] <= lastSequence)
    && (forall i, j :: 0 <= i < j < |snapshots| ==> snapshots[i] <= snapshots[j])
    && (job.Working? ==> job.snap <= lastSequence && forall i :: 0 <= i < |snapshots| ==> job.snap <= snapshots[i])
  }

  /** The MANIFEST is ahead of the current version only while an edit is being installed. */
  ghost predicate PhaseOk(flush: Flushing, job: Job, saved: Saved, current: Version, logNumber: nat,
                          durable: nat, flushed: nat, rotated: nat)
  {
    && (flush.Recorded? ==>
       !job.Installing? && saved.version == flush.after && durable == rotated && saved.logNumber == logNumber)
    && (job.Installing? ==> flush == NoFlush && saved.version == job.after)
    && (!flush.Recorded? ==> durable == flushed)
    && (!flush.Recorded? && !job.Installing? ==> saved.version == current)
  }

  /** A number reserved for a flush is above every number in use; the table written under it
      holds the immutable memtable. No file is being removed meanwhile: one background thread
      does both. */
  ghost predicate FlushOk(flush: Flushing, imm: Option<seq<Entry>>, nextFile: nat, doomed: set<nat>, live: set<Version>,
                          job: Job, tables: map<nat, seq<Entry>>)
  {
    && (flush != NoFlush ==> imm.Some? && doomed == {})
    && (flush.Reserved? || flush.Built? ==> job.Working? ==> flush.number !in job.outputs)
    && (flush.Reserved? || flush.Built? ==> flush.number < nextFile && forall v :: v in live ==>
       NumbersBelow(v, flush.number))
    && (flush.Built? ==> TableOf(flush, imm.value)
                         && (flush.file.Some? ==>
                            flush.number in tables && tables[flush.number] == flush.file.value.entries))
  }

  /** The current version is the compaction's input plus tables flushed since; no version uses
      an output yet. */
  ghost predicate JobOk(job: Job, current: Version, saved: Version, live: set<Version>)
  {
    job.Working? ==>
      && Valid(job.input)
      && |current.levels| == NUM_LEVELS && Grown(job.input, current)
      && |saved.levels| == NUM_LEVELS && Grown(job.input, saved)
      && forall n, v :: n in job.outputs && v in live ==> !Uses(v, n)
  }

  /** The table written for a memtable: none if it is empty. */
  ghost predicate TableOf(flush: Flushing, imm: seq<Entry>)
    requires flush.Built?
  {
    && (flush.file.None? <==> imm == [])
    && (flush.file.Some? ==>
       WellFormed(flush.file.value) && flush.file.value.entries == imm && flush.file.value.number == flush.number)
  }

  ghost predicate WriterOk(writer: Writer, acked: seq<Batch>)
  {
    writer != Idle ==> writer.batch.sequence == End(acked) + 1
  }

  /** The logs and memtables against the history. */
  ghost predicate HistoryOk(r: Run)
    requires r.state.Up?
  {
    var disk, m := r.state.disk, r.state.m;
    && LogsOk(disk.logs, disk.saved, m.logNumber, m.nextFile, LoggedHistory(r), r.rotated)
    && MemOk(m.mem, AppliedHistory(r), r.rotated)
    && ImmOk(m.imm, r.acked, r.flushed, r.rotated)
    && Mirrors(m.current, r.acked[..r.flushed], r.cutoff)
    && m.lastSequence == End(r.acked)
    && WriterOk(m.writer, r.acked)
  }

  /** The files and the background work. */
  ghost predicate WorkOk(r: Run)
    requires r.state.Up?
  {
    var disk, m := r.state.disk, r.state.m;
    && FilesOk(disk.tables, Live(disk, m), m.nextFile)
    && PendingOk(m.pending, m.nextFile, m.job)
    && DoomedOk(m.doomedTables, m.pending, Live(disk, m))
    && DoomedLogsOk(m.doomedLogs, disk.saved.logNumber)
    && SnapshotsOk(m.snapshots, m.lastSequence, m.job, r.cutoff)
    && PhaseOk(m.flush, m.job, disk.saved, m.current, m.logNumber, r.durable, r.flushed, r.rotated)
    && FlushOk(m.flush, m.imm, m.nextFile, m.doomedTables, Live(disk, m), m.job, disk.tables)
    && JobOk(m.job, m.current, disk.saved.version, Live(disk, m))
  }

  ghost predicate Inv(r: Run)
  {
    && Contiguous(LoggedHistory(r))
    && DiskOk(r.state.disk, LoggedHistory(r), r.durable, r.cutoff)
    && (r.state.Up? ==> HistoryOk(r) && WorkOk(r))
    && (r.state.Down? ==> r.cutoff <= End(r.acked))
  }

  // ----- readings of stacked sets

  /** Putting newer entries on top of two sets that read alike gives sets that read alike. */
  lemma {:induction false} ViewStack(A: set<Entry>, B: set<Entry>, C: set<Entry>, u: UserKey, s: nat)
    requires UniqueSeqs(A + C) && UniqueSeqs(B + C) && Above(C, A) && Above(C, B)
    requires View(A, u, s) == View(B, u, s)
    ensures View(C + A, u, s) == View(C + B, u, s)
  {
    StackCases(A, C, u, s);
    StackCases(B, C, u, s);
  }

  lemma {:induction false} StackCases(A: set<Entry>, C: set<Entry>, u: UserKey, s: nat)
    requires UniqueSeqs(A + C) && Above(C, A)
    ensures if exists e :: e in C && Visible(e, u, s) then View(C + A, u, s) == View(C, u, s)
            else View(C + A, u, s) == View(A, u, s)
  {
    if w :| w in C && Visible(w, u, s) {
      var e := NewestExists(C, u, s, w);
      assert Newest(C + A, u, s, e);
      ViewOfNewest(C, u, s, e);
      ViewOfNewest(C + A, u, s, e);
    } else {
      ViewCases(A, u, s);
      if e :| Newest(A, u, s, e) && View(A, u, s) == Reading(e) {
        assert Newest(C + A, u, s, e);
        ViewOfNewest(C + A, u, s, e);
      } else {
        ViewOfNone(C + A, u, s);
      }
    }
  }

  lemma {:induction false} PrefixBelowSuffix(h: seq<Batch>, k: nat, d: Entry, e: Entry)
    requires Contiguous(h) && k <= |h| && d in Written(h[..k]) && e in Written(h[k..])
    ensures d.key.sequence < e.key.sequence
  {
    InPrefix(h, k, d);
    InSuffix(h, k, e);
  }

  /** A table of the next batches on top of a mirror mirrors the longer prefix. */
  lemma {:induction false} MirrorExtends(v: Version, after: Version, h: seq<Batch>, k: nat, C: set<Entry>, cutoff: nat)
    requires Contiguous(h) && k <= |h| && Mirrors(v, h[..k], cutoff) && C == Written(h[k..])
    requires Valid(after) && Entries(after) == C + Entries(v)
    ensures Mirrors(after, h, cutoff)
  {
    var A, B, H := Entries(v), Written(h[..k]), Written(h);
    WrittenSplit(h, k);
    WrittenUnique(h);
    forall d, e | d in B && e in C ensures d.key.sequence < e.key.sequence { PrefixBelowSuffix(h, k, d, e); }
    forall u, s | cutoff <= s
      ensures View(Entries(after), u, s) == View(H, u, s)
    {
      StackReads(A, B, C, H, u, s);
    }
  }

  lemma {:induction false} StackReads(A: set<Entry>, B: set<Entry>, C: set<Entry>, H: set<Entry>, u: UserKey, s: nat)
    requires A <= B && H == B + C && UniqueSeqs(H) && View(A, u, s) == View(B, u, s)
    requires forall d, e :: d in B && e in C ==> d.key.sequence < e.key.sequence
    ensures View(C + A, u, s) == View(H, u, s)
  {
    ViewStack(A, B, C, u, s);
    assert C + B == H;
  }

  // ----- steps of the writer

  ghost predicate BeginWrite(r: Run, r': Run, ops: seq<Op>)
  {
    && r.state.Up? && r.state.m.writer == Idle
    && r' == r.(state := Up(r.state.disk, r.state.m.(writer := Assigned(Batch(r.state.m.lastSequence + 1, ops)))))
  }

  lemma {:induction false} BeginWriteInv(r: Run, r': Run, ops: seq<Op>)
    requires Inv(r) && BeginWrite(r, r', ops)
    ensures Inv(r')
  {
    hide Contiguous, DiskOk, End, LogsOk, MemOk, ImmOk, Mirrors, FilesOk, PendingOk, DoomedOk, DoomedLogsOk,
         SnapshotsOk, PhaseOk, FlushOk, JobOk;
  }

  function AppendRecord(logs: seq<Log>, b: Batch): seq<Log>
    requires |logs| > 0
  {
    var k := |logs| - 1;
    logs[..k] + [Log(logs[k].number, logs[k].batches + [b])]
  }

  ghost predicate LogWrite(r: Run, r': Run)
  {
    && r.state.Up? && r.state.m.writer.Assigned? && |r.state.disk.logs| > 0
    && r' == r.(state := Up(r.state.disk.(logs := AppendRecord(r.state.disk.logs, r.state.m.writer.batch)),
                            r.state.m.(writer := Logged(r.state.m.writer.batch))))
  }

  lemma {:induction false} AppendPending(logs: seq<Log>, b: Batch, n: nat)
    requires |logs| > 0 && logs[|logs| - 1].number >= n && Ascending(logs)
    ensures Pending(AppendRecord(logs, b), n) == Pending(logs, n) + [b] && Ascending(AppendRecord(logs, b))
  {
    var k, logs' := |logs| - 1, AppendRecord(logs, b);
    assert logs'[..k] == logs[..k];
    assert Pending(logs[..k], n) + (logs[k].batches + [b]) == (Pending(logs[..k], n) + logs[k].batches) + [b];
    forall i, j | 0 <= i < j < |logs'| ensures logs'[i].number < logs'[j].number {
      assert logs'[i].number == logs[i].number && logs'[j].number == logs[j].number;
    }
  }

  lemma {:induction false} LogWriteDisk(disk: Disk, h: seq<Batch>, durable: nat, cutoff: nat, b: Batch)
    requires DiskOk(disk, h, durable, cutoff) && |disk.logs| > 0
    requires disk.logs[|disk.logs| - 1].number >= disk.saved.logNumber
    ensures DiskOk(disk.(logs := AppendRecord(disk.logs, b)), h + [b], durable, cutoff)
  {
    AppendPending(disk.logs, b, disk.saved.logNumber);
    assert (h + [b])[durable..] == h[durable..] + [b];
    assert (h + [b])[..durable] == h[..durable];
    EndSnoc(h, b);
  }

  lemma {:induction false} LogWriteInv(r: Run, r': Run)
    requires Inv(r) && LogWrite(r, r')
    ensures Inv(r')
  {
    hide Contiguous, DiskOk, End, MemOk, ImmOk, Mirrors, FilesOk, PendingOk, DoomedOk, DoomedLogsOk, SnapshotsOk,
         PhaseOk, FlushOk, JobOk;
    var disk, m, h := r.state.disk, r.state.m, r.acked;
    var b := m.writer.batch;
    ContiguousSnoc(h, b);
    LogWriteDisk(disk, h, r.durable, r.cutoff, b);
    assert (h + [b])[r.rotated..] == h[r.rotated..] + [b];
    var disk', m' := r'.state.disk, r'.state.m;
    assert disk'.logs[|disk'.logs| - 1] == Log(m.logNumber, (h + [b])[r.rotated..]);
  }

  ghost predicate ApplyWrite(r: Run, r': Run)
  {
    && r.state.Up? && r.state.m.writer.Logged?
    && var b := r.state.m.writer.batch;
       r' == r.(state :=
           Up(r.state.disk, r.state.m.(mem := InsertOps(r.state.m.mem, b, |b.ops|), writer := Applied(b))))
  }

  /** Inserting the next batch keeps the memtable equal to the batches since the rotation. */
  lemma {:induction false} InsertExtends(mem: seq<Entry>, h: seq<Batch>, rotated: nat, b: Batch)
    requires Contiguous(h) && MemOk(mem, h, rotated) && b.sequence == End(h) + 1
    ensures MemOk(InsertOps(mem, b, |b.ops|), h + [b], rotated)
  {
    forall d | d in mem
      ensures d.key.sequence < b.sequence
    {
      assert d in SetOf(mem);
      InSuffix(h, rotated, d);
    }
    InsertOpsSorted(mem, b, |b.ops|);
    assert (h + [b])[rotated..] == h[rotated..] + [b];
    WrittenConcat(h[rotated..], [b]);
    WrittenOne(b);
  }

  lemma {:induction false} ApplyWriteInv(r: Run, r': Run)
    requires Inv(r) && ApplyWrite(r, r')
    ensures Inv(r')
  {
    hide DiskOk, LogsOk, MemOk, ImmOk, Mirrors, End, FilesOk, PendingOk, DoomedOk, DoomedLogsOk, SnapshotsOk, PhaseOk,
         FlushOk, JobOk;
    ContiguousPrefix(LoggedHistory(r), |r.acked|);
    assert LoggedHistory(r)[..|r.acked|] == r.acked;
    InsertExtends(r.state.m.mem, r.acked, r.rotated, r.state.m.writer.batch);
  }

  ghost predicate Acknowledge(r: Run, r': Run)
  {
    && r.state.Up? && r.state.m.writer.Applied?
    && var b := r.state.m.writer.batch;
       r' == r.(state := Up(r.state.disk, r.state.m.(writer := Idle, lastSequence := r.state.m.lastSequence + |b.ops|)),
                acked := r.acked + [b])
  }

  lemma {:induction false} AcknowledgeInv(r: Run, r': Run)
    requires Inv(r) && Acknowledge(r, r')
    ensures Inv(r')
  {
    hide Contiguous, DiskOk, LogsOk, MemOk, Mirrors, FilesOk, PendingOk, DoomedOk, DoomedLogsOk, PhaseOk, FlushOk,
         JobOk;
    var m, h := r.state.m, r.acked;
    var b := m.writer.batch;
    EndSnoc(h, b);
    assert (h + [b])[..r.flushed] == h[..r.flushed];
    assert (h + [b])[r.flushed..r.rotated] == h[r.flushed..r.rotated];
  }

  /** The memtable becomes immutable and a new log is started. */
  ghost predicate Rotate(r: Run, r': Run)
  {
    && r.state.Up? && r.state.m.writer == Idle && r.state.m.imm.None?
    && var disk, m := r.state.disk, r.state.m;
       r' == r.(state := Up(disk.(logs := disk.logs + [Log(m.nextFile, [])]),
                            m.(mem := [], imm := Some(m.mem), logNumber := m.nextFile, nextFile := m.nextFile + 1)),
                rotated := |r.acked|)
  }

  lemma {:induction false} NewLogPending(logs: seq<Log>, number: nat, n: nat)
    requires Ascending(logs) && forall i :: 0 <= i < |logs| ==> logs[i].number < number
    ensures Pending(logs + [Log(number, [])], n) == Pending(logs, n) && Ascending(logs + [Log(number, [])])
  {
    assert (logs + [Log(number, [])])[..|logs|] == logs;
  }

  /** Handing out further file numbers disturbs nothing. */
  lemma {:induction false} NumbersGrow(tables: map<nat, seq<Entry>>, live: set<Version>, pending: set<nat>, job: Job,
                                       n: nat, n': nat)
    requires FilesOk(tables, live, n) && PendingOk(pending, n, job) && n <= n'
    ensures FilesOk(tables, live, n') && PendingOk(pending, n', job)
  {
    forall v | v in live ensures OnDisk(tables, v) && NumbersBelow(v, n') {
      hide OnDisk;
      assert NumbersBelow(v, n);
    }
  }

  lemma {:induction false} RotateMemory(mem: seq<Entry>, h: seq<Batch>, rotated: nat)
    requires MemOk(mem, h, rotated)
    ensures MemOk([], h, |h|) && ImmOk(Some(mem), h, rotated, |h|)
  {
    assert h[rotated..|h|] == h[rotated..];
    assert h[|h|..] == [];
    assert Written([]) == {} && SetOf([]) == {};
  }

  lemma {:induction false} RotateLogs(disk: Disk, h: seq<Batch>, durable: nat, rotated: nat, cutoff: nat,
                                      logNumber: nat, nextFile: nat)
    requires DiskOk(disk, h, durable, cutoff) && LogsOk(disk.logs, disk.saved, logNumber, nextFile, h, rotated)
    ensures var disk' := disk.(logs := disk.logs + [Log(nextFile, [])]);
            && DiskOk(disk', h, durable, cutoff)
            && LogsOk(disk'.logs, disk.saved, nextFile, nextFile + 1, h, |h|)
  {
    hide Mirrors, OnDisk, NumbersBelow, End;
    NewLogPending(disk.logs, nextFile, disk.saved.logNumber);
  }

  lemma {:induction false} RotateInv(r: Run, r': Run)
    requires Inv(r) && Rotate(r, r')
    ensures Inv(r')
  {
    hide Contiguous, DiskOk, LogsOk, MemOk, Mirrors, End, FilesOk, PendingOk, DoomedOk, DoomedLogsOk, SnapshotsOk,
         JobOk;
    var disk, m := r.state.disk, r.state.m;
    RotateLogs(disk, r.acked, r.durable, r.rotated, r.cutoff, m.logNumber, m.nextFile);
    RotateMemory(m.mem, r.acked, r.rotated);
    NumbersGrow(disk.tables, Live(disk, m), m.pending, m.job, m.nextFile, m.nextFile + 1);
  }
}
