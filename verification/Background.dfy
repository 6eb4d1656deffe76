/** The background thread's steps: flushes, compactions, removal of obsolete files; and what
    readers pin. Each keeps the durability invariant. */
module Background {
  import opened Ordering
  import opened Levels
  import opened CompactionInputs
  import opened CompactionWork
  import opened VersionBuilder
  import opened Install
  import opened CompactionRun
  import opened Flush
  import opened MidCompactionFlush
  import opened History
  import opened Durability
  import opened Wrappers

  // ----- writing a table

  /** A table written under a number that no version uses disturbs nothing. */
  lemma {:induction false} WriteTable(tables: map<nat, seq<Entry>>, live: set<Version>, nextFile: nat, n: nat,
                                      es: seq<Entry>)
    requires FilesOk(tables, live, nextFile) && forall v :: v in live ==> NumbersBelow(v, n)
    ensures FilesOk(tables[n := es], live, nextFile)
  {
    forall v | v in live ensures OnDisk(tables[n := es], v) {
      assert OnDisk(tables, v) && NumbersBelow(v, n);
    }
  }

  lemma {:induction false} TablesOnly(disk: Disk, tables: map<nat, seq<Entry>>, h: seq<Batch>, durable: nat,
                                      cutoff: nat, live: set<Version>, nextFile: nat)
    requires DiskOk(disk, h, durable, cutoff) && FilesOk(tables, live, nextFile) && disk.saved.version in live
    ensures DiskOk(disk.(tables := tables), h, durable, cutoff)
  {
    hide Mirrors, Pending, Ascending, NumbersBelow, End;
    assert OnDisk(tables, disk.saved.version);
  }

  // ----- flushes

  ghost predicate FlushReserve(r: Run, r': Run)
  {
    && r.state.Up? && r.state.m.flush == NoFlush && r.state.m.imm.Some? && !r.state.m.job.Installing?
       && r.state.m.doomedTables == {}
    && var m := r.state.m;
       r' == r.(state :=
           Up(r.state.disk,
               m.(flush := Reserved(m.nextFile), pending := m.pending + {m.nextFile}, nextFile := m.nextFile + 1)))
  }

  lemma {:induction false} FlushReserveInv(r: Run, r': Run)
    requires Inv(r) && FlushReserve(r, r')
    ensures Inv(r')
  {
    hide Contiguous, DiskOk, MemOk, ImmOk, Mirrors, End, OnDisk, NumbersBelow, DoomedLogsOk, SnapshotsOk, JobOk,
         NumbersBelow, Uses;
    var disk, m := r.state.disk, r.state.m;
    NumbersGrow(disk.tables, Live(disk, m), m.pending, m.job, m.nextFile, m.nextFile + 1);
  }

  ghost predicate FlushBuild(r: Run, r': Run, file: Option<File>)
  {
    && r.state.Up? && r.state.m.flush.Reserved? && r.state.m.imm.Some?
    && var disk, m := r.state.disk, r.state.m;
       var built := Built(m.flush.number, file);
       && TableOf(built, m.imm.value)
       && r' == r.(state :=
          Up(disk.(tables := if file.Some? then disk.tables[m.flush.number := file.value.entries] else disk.tables),
                               m.(flush := built, pending := m.pending - {m.flush.number})))
  }

  lemma {:induction false} FlushBuildInv(r: Run, r': Run, file: Option<File>)
    requires Inv(r) && FlushBuild(r, r', file)
    ensures Inv(r')
  {
    hide Contiguous, DiskOk, MemOk, LogsOk, ImmOk, Mirrors, End, OnDisk, NumbersBelow, DoomedLogsOk, SnapshotsOk,
         JobOk, NumbersBelow, Uses, FilesOk;
    var disk, m := r.state.disk, r.state.m;
    if file.Some? {
      WriteTable(disk.tables, Live(disk, m), m.nextFile, m.flush.number, file.value.entries);
      TablesOnly(disk, r'.state.disk.tables, LoggedHistory(r), r.durable, r.cutoff, Live(disk, m), m.nextFile);
    }
  }

  /** The version a flush installs: the table, if there is one, at the level picked for it. */
  function FlushAfter(v: Version, F: nat, file: Option<File>): Version
    requires |v.levels| == NUM_LEVELS && F < NUM_LEVELS
  {
    Next(v, Edit({}, if file.Some? then [(F, file.value)] else []))
  }

  /** What `PickLevelForMemTableOutput` guarantees of the level it returns. */
  ghost predicate PickedLevel(v: Version, F: nat, f: File)
    requires |v.levels| == NUM_LEVELS
  {
    && F <= MAX_MEM_COMPACT_LEVEL
    && (F > 0 ==> forall l :: 0 <= l <= F ==> NoneTouches(v.levels[l], f.smallest.user, f.largest.user))
  }

  lemma {:induction false} EmptyEditKeeps(v: Version)
    requires LevelsOrdered(v)
    ensures Next(v, Edit({}, [])) == v
  {
    var edit := Edit({}, []);
    NextEffect(v, edit);
    var after := Next(v, edit);
    forall l | 0 <= l < NUM_LEVELS
      ensures after.levels[l] == v.levels[l]
    {
      forall f ensures f in after.levels[l] <==> f in v.levels[l] {
        assert f in after.levels[l] <==> InNext(f, v, edit, l);
      }
      OrderedUnique(after.levels[l], v.levels[l]);
    }
    assert after.levels == v.levels;
  }

  /** The table of the immutable memtable is newer than the current version. */
  lemma {:induction false} MemtableFlushable(v: Version, h: seq<Batch>, k: nat, F: nat, f: File, cutoff: nat)
    requires Contiguous(h) && k <= |h| && Mirrors(v, h[..k], cutoff) && Contents(f) == Written(h[k..])
    requires WellFormed(f) && PickedLevel(v, F, f) && NumbersBelow(v, f.number)
    ensures Flushable(v, F, f)
  {
    assert |v.levels| == NUM_LEVELS;
    hide Contiguous, Valid, Written, PickedLevel, WellFormed, View;
    forall d, e | d in Entries(v) && e in Contents(f)
        ensures d.key.sequence < e.key.sequence { PrefixBelowSuffix(h, k, d, e); }
    WrittenUnique(h);
    WrittenSplit(h, k);
    assert Above(Contents(f), Entries(v)) && UniqueSeqs(Contents(f) + Entries(v));
    FlushableFrom(v, F, f);
  }

  lemma {:induction false} FlushableFrom(v: Version, F: nat, f: File)
    requires |v.levels| == NUM_LEVELS && WellFormed(f) && PickedLevel(v, F, f) && NumbersBelow(v, f.number)
    requires Above(Contents(f), Entries(v)) && UniqueSeqs(Contents(f) + Entries(v))
    ensures Flushable(v, F, f)
  {
  }

  /** A flush carries the current version over the batches of the immutable memtable. */
  lemma {:induction false} FlushMirrors(v: Version, h: seq<Batch>, k: nat, F: nat, built: Flushing, imm: seq<Entry>,
                                        cutoff: nat)
    requires Contiguous(h) && k <= |h| && Mirrors(v, h[..k], cutoff) && SetOf(imm) == Written(h[k..])
    requires built.Built? && TableOf(built, imm) && NumbersBelow(v, built.number)
    requires built.file.Some? ==> PickedLevel(v, F, built.file.value)
    requires F < NUM_LEVELS
    ensures Mirrors(FlushAfter(v, F, built.file), h, cutoff)
  {
    hide Contiguous, WellFormed, NumbersBelow, PickedLevel, View, Written;
    if built.file.Some? {
      MemtableFlushable(v, h, k, F, built.file.value, cutoff);
      FlushKeepsValid(v, F, built.file.value);
    } else {
      EmptyEditKeeps(v);
      assert SetOf(imm) == {};
    }
    MirrorExtends(v, FlushAfter(v, F, built.file), h, k, SetOf(imm), cutoff);
  }

  ghost predicate FileOf(v: Version, f: File)
  {
    exists l :: 0 <= l < |v.levels| && f in v.levels[l]
  }

  /** `after` has only files of `v` and files written under the given numbers, with tables to match. */
  ghost predicate FilesFrom(v: Version, after: Version, written: set<nat>, tables: map<nat, seq<Entry>>)
  {
    forall l, f :: 0 <= l < |after.levels| && f in after.levels[l] ==>
      FileOf(v, f) || (f.number in written && f.number in tables && tables[f.number] == f.entries)
  }

  lemma {:induction false} FilesFromOnDisk(v: Version, after: Version, written: set<nat>, tables: map<nat, seq<Entry>>,
                                           nextFile: nat)
    requires FilesFrom(v, after, written, tables) && OnDisk(tables, v) && NumbersBelow(v, nextFile)
    requires forall n :: n in written ==> n < nextFile
    ensures OnDisk(tables, after) && NumbersBelow(after, nextFile)
    ensures forall n :: Uses(after, n) ==> Uses(v, n) || n in written
  {
    forall l, f | 0 <= l < |after.levels| && f in after.levels[l]
      ensures f.number in tables && tables[f.number] == f.entries && f.number < nextFile
      ensures (Uses(v, f.number) || f.number in written)
    {
    }
  }

  lemma {:induction false} FlushFiles(v: Version, F: nat, file: Option<File>, n: nat, tables: map<nat, seq<Entry>>)
    requires Shaped(v) && F < NUM_LEVELS
    requires file.Some? ==>
             Flushable(v, F, file.value) && file.value.number == n && n in tables && tables[n] == file.value.entries
    ensures FilesFrom(v, FlushAfter(v, F, file), {n}, tables)
  {
    if file.Some? {
      hide Flushable, Shaped;
      FlushEdit(v, F, file.value);
    } else {
      EmptyEditKeeps(v);
    }
  }

  lemma {:induction false} PendingLast(logs: seq<Log>, n: nat)
    requires |logs| > 0 && Ascending(logs) && logs[|logs| - 1].number == n
    ensures Pending(logs, n) == logs[|logs| - 1].batches
  {
    var k := |logs| - 1;
    forall i | 0 <= i < k ensures logs[..k][i].number < n { assert logs[i].number < logs[k].number; }
    PendingNone(logs[..k], n);
  }

  lemma {:induction false} PendingNone(logs: seq<Log>, n: nat)
    requires forall i :: 0 <= i < |logs| ==> logs[i].number < n
    ensures Pending(logs, n) == []
  {
    if logs != [] {
      PendingNone(logs[..|logs| - 1], n);
    }
  }

  /** The edit of a flush: the new version, and the log of the current memtable as the first
      one that is still needed. */
  ghost predicate FlushRecord(r: Run, r': Run, F: nat)
  {
    && r.state.Up? && r.state.m.flush.Built? && |r.state.m.current.levels| == NUM_LEVELS && F < NUM_LEVELS
    && var disk, m := r.state.disk, r.state.m;
       var after := FlushAfter(m.current, F, m.flush.file);
       && (m.flush.file.Some? ==> PickedLevel(m.current, F, m.flush.file.value))
       && r' == r.(state :=
          Up(disk.(saved := Saved(after, m.logNumber, m.nextFile, m.lastSequence)), m.(flush := Recorded(after))),
                   durable := r.rotated)
  }

  lemma {:induction false} FlushRecordDisk(disk: Disk, after: Version, h: seq<Batch>, durable: nat, rotated: nat,
                                           cutoff: nat,
                                           logNumber: nat, nextFile: nat, lastSequence: nat)
    requires DiskOk(disk, h, durable, cutoff) && LogsOk(disk.logs, disk.saved, logNumber, nextFile, h, rotated)
    requires Mirrors(after, h[..rotated], cutoff) && End(h[..rotated]) <= lastSequence <= End(h)
    requires OnDisk(disk.tables, after) && NumbersBelow(after, nextFile)
    ensures DiskOk(disk.(saved := Saved(after, logNumber, nextFile, lastSequence)), h, rotated, cutoff)
  {
    hide Mirrors, OnDisk, NumbersBelow, End;
    PendingLast(disk.logs, logNumber);
  }

  lemma {:induction false} FlushRecordMirrors(v: Version, h: seq<Batch>, flushed: nat, rotated: nat, F: nat,
                                              built: Flushing, imm: seq<Entry>, cutoff: nat)
    requires Contiguous(h) && ImmOk(Some(imm), h, flushed, rotated) && Mirrors(v, h[..flushed], cutoff)
    requires built.Built? && TableOf(built, imm) && NumbersBelow(v, built.number) && F < NUM_LEVELS
    requires built.file.Some? ==> PickedLevel(v, F, built.file.value)
    ensures Mirrors(FlushAfter(v, F, built.file), h[..rotated], cutoff) && Shaped(v)
    ensures built.file.Some? ==> Flushable(v, F, built.file.value)
  {
    assert Shaped(v);
    hide Mirrors, Contiguous, NumbersBelow, PickedLevel, Shaped, WellFormed;
    var g := h[..rotated];
    ContiguousPrefix(h, rotated);
    assert g[..flushed] == h[..flushed] && g[flushed..] == h[flushed..rotated];
    FlushMirrors(v, g, flushed, F, built, imm, cutoff);
    if built.file.Some? {
      MemtableFlushable(v, g, flushed, F, built.file.value, cutoff);
    }
  }

  lemma {:induction false} FlushAfterGrows(input: Version, v: Version, F: nat, file: Option<File>)
    requires |input.levels| == NUM_LEVELS && Shaped(v) && Grown(input, v) && F < NUM_LEVELS
    requires file.Some? ==> Flushable(v, F, file.value)
    ensures |FlushAfter(v, F, file).levels| == NUM_LEVELS && Grown(input, FlushAfter(v, F, file))
  {
    if file.Some? {
      FlushGrows(input, v, F, file.value);
    } else {
      EmptyEditKeeps(v);
    }
  }

  lemma {:induction false} FlushRecordInv(r: Run, r': Run, F: nat)
    requires Inv(r) && FlushRecord(r, r', F)
    ensures Inv(r')
  {
    hide Contiguous, DiskOk, MemOk, Mirrors, End, OnDisk, NumbersBelow, SnapshotsOk, Uses, WellFormed, Flushable,
         PickedLevel, Grown;
    var disk, m, h := r.state.disk, r.state.m, LoggedHistory(r);
    var after := FlushAfter(m.current, F, m.flush.file);
    assert m.current in Live(disk, m);
    ContiguousPrefix(h, |r.acked|);
    assert h[..|r.acked|] == r.acked;
    FlushRecordMirrors(m.current, r.acked, r.flushed, r.rotated, F, m.flush, m.imm.value, r.cutoff);
    FlushFiles(m.current, F, m.flush.file, m.flush.number, disk.tables);
    FilesFromOnDisk(m.current, after, {m.flush.number}, disk.tables, m.nextFile);
    assert h[..r.rotated] == r.acked[..r.rotated];
    EndMonotone(h, r.rotated, |r.acked|);
    EndMonotone(h, |r.acked|, |h|);
    assert h[..|h|] == h;
    FlushRecordDisk(disk, after, h, r.durable, r.rotated, r.cutoff, m.logNumber, m.nextFile, m.lastSequence);
    if m.job.Working? {
      FlushAfterGrows(m.job.input, m.current, F, m.flush.file);
    }
  }

  ghost predicate FlushInstall(r: Run, r': Run)
  {
    && r.state.Up? && r.state.m.flush.Recorded?
    && r' == r.(state := Up(r.state.disk, r.state.m.(current := r.state.m.flush.after, imm := None, flush := NoFlush)),
                flushed := r.rotated)
  }

  lemma {:induction false} FlushInstallInv(r: Run, r': Run)
    requires Inv(r) && FlushInstall(r, r')
    ensures Inv(r')
  {
    hide Contiguous, MemOk, LogsOk, Mirrors, End, OnDisk, NumbersBelow, SnapshotsOk, Uses, PendingOk, DoomedLogsOk,
         Pending, Grown, Valid;
    assert LoggedHistory(r)[..r.rotated] == r.acked[..r.rotated];
  }

  // ----- compactions

  /** Under the lock: the oldest snapshot still held, or the newest sequence number. */
  function OldestSnapshot(m: Memory): nat
  {
    if |m.snapshots| > 0 then m.snapshots[0] else m.lastSequence
  }

  lemma {:induction false} MirrorIsValid(v: Version, h: seq<Batch>, cutoff: nat)
    requires Mirrors(v, h, cutoff)
    ensures Valid(v) && |v.levels| == NUM_LEVELS
  {
  }

  ghost predicate JobStart(r: Run, r': Run)
  {
    && r.state.Up? && r.state.m.job == NoJob && r.state.m.flush == NoFlush
    && r' == r.(state := Up(r.state.disk, r.state.m.(job := Working(OldestSnapshot(r.state.m), r.state.m.current, {}))))
  }

  /** The cutoff of a compaction: the least snapshot held, or the newest sequence number when none is. */
  lemma {:induction false} JobStartCutoff(r: Run, r': Run)
    requires Inv(r) && JobStart(r, r')
    ensures var m, snap := r.state.m, r'.state.m.job.snap;
            && (m.snapshots == [] ==> snap == m.lastSequence)
            && (m.snapshots != [] ==> snap in m.snapshots && forall s :: s in m.snapshots ==> snap <= s)
  {
    hide Contiguous, DiskOk, HistoryOk, FilesOk, PendingOk, DoomedOk, DoomedLogsOk, PhaseOk, FlushOk, JobOk;
  }

  lemma {:induction false} JobStartInv(r: Run, r': Run)
    requires Inv(r) && JobStart(r, r')
    ensures Inv(r')
  {
    hide Contiguous, MemOk, LogsOk, Mirrors, End, FilesOk, DoomedOk, DoomedLogsOk, Grown, Valid, DiskOk;
    var disk, m := r.state.disk, r.state.m;
    MirrorIsValid(m.current, r.acked[..r.flushed], r.cutoff);
    GrownRefl(m.current);
    assert Live(disk, r'.state.m) == Live(disk, m);
  }

  /** An output table is opened under a fresh number and filled; `es` is whatever it holds. */
  ghost predicate JobOutput(r: Run, r': Run, es: seq<Entry>)
  {
    && r.state.Up? && r.state.m.job.Working? && r.state.m.flush == NoFlush && r.state.m.doomedTables == {}
    && var disk, m := r.state.disk, r.state.m;
       var n := m.nextFile;
       r' == r.(state := Up(disk.(tables := disk.tables[n := es]),
                            m.(nextFile := n + 1, pending := m.pending + {n},
                                job := Working(m.job.snap, m.job.input, m.job.outputs + {n}))))
  }

  lemma {:induction false} JobOutputInv(r: Run, r': Run, es: seq<Entry>)
    requires Inv(r) && JobOutput(r, r', es)
    ensures Inv(r')
  {
    hide Contiguous, MemOk, ImmOk, Mirrors, End, OnDisk, DoomedLogsOk, Grown, Valid, DiskOk;
    var disk, m, n := r.state.disk, r.state.m, r.state.m.nextFile;
    assert Live(r'.state.disk, r'.state.m) == Live(disk, m);
    WriteTable(disk.tables, Live(disk, m), n, n, es);
    NumbersGrow(disk.tables[n := es], Live(disk, m), m.pending, m.job, n, n + 1);
    TablesOnly(disk, disk.tables[n := es], LoggedHistory(r), r.durable, r.cutoff, Live(disk, m), n);
    forall v | v in Live(disk, m) ensures !Uses(v, n) { assert NumbersBelow(v, n); }
  }

  /** What the merge loop leaves: tables of the entries it keeps, under the numbers of the
      outputs. */
  ghost predicate Produced(job: Job, L: nat, I0: seq<File>, I1: seq<File>, outs: seq<File>,
                           tables: map<nat, seq<Entry>>)
    requires job.Working? && L + 1 < NUM_LEVELS && |job.input.levels| == NUM_LEVELS
  {
    var input := MergeFiles(I0 + I1);
    && AllWellFormed(outs)
    && Flat(outs) == Kept(input, |input|, job.snap, BaseKeys(job.input, L))
    && (forall i, j :: 0 <= i < j < |outs| ==> outs[i].number != outs[j].number)
    && (forall o :: o in outs ==> o.number in job.outputs && o.number in tables && tables[o.number] == o.entries)
  }

  /** Installing a compaction's outputs on the current version, which may have gained flushed
      tables since the compaction picked its inputs. */
  ghost predicate Installable(job: Job, current: Version, L: nat, I0: seq<File>, I1: seq<File>, outs: seq<File>,
                              tables: map<nat, seq<Entry>>)
  {
    && job.Working? && L + 1 < NUM_LEVELS && Valid(job.input) && |current.levels| == NUM_LEVELS
       && job.snap < MAX_SEQUENCE
    && Paired(job.input, L, I0, I1)
    && Produced(job, L, I0, I1, outs, tables)
    && FlushesClear(job.input, current, L, outs)
  }

  function NumberAt(outs: seq<File>, k: nat): nat
  {
    if k < |outs| then outs[k].number else 0
  }

  lemma {:induction false} ProducedOutputs(job: Job, L: nat, I0: seq<File>, I1: seq<File>, outs: seq<File>,
                                           tables: map<nat, seq<Entry>>)
    requires job.Working? && L + 1 < NUM_LEVELS && Valid(job.input) && job.snap < MAX_SEQUENCE
    requires GoodInputs(job.input, L, I0, I1) && Produced(job, L, I0, I1, outs, tables)
    ensures GoodOutputs(I0, I1, outs)
    ensures LevelEntries(outs) == Survivors(InputEntries(I0, I1), job.snap, BaseKeys(job.input, L))
  {
    hide Valid, GoodInputs, GoodOutputs, Kept, Survivors, Sorted;
    var number := (k: nat) => NumberAt(outs, k);
    forall k | 0 <= k < |outs| ensures Output(outs[k], number(k)) { assert outs[k] in outs; }
    assert Flat(outs) + [] == Flat(outs);
    OutputsOfLoop(job.input, L, I0, I1, outs, number, job.snap);
  }

  /** The outputs of a compaction: nothing a snapshot can ask for is missing, and nothing that no snapshot and no
      deeper level needs is left. */
  lemma {:induction false} ProducedIsDistilled(job: Job, L: nat, I0: seq<File>, I1: seq<File>, outs: seq<File>,
                                               tables: map<nat, seq<Entry>>)
    requires job.Working? && L + 1 < NUM_LEVELS && Valid(job.input) && job.snap < MAX_SEQUENCE
    requires Paired(job.input, L, I0, I1) && Produced(job, L, I0, I1, outs, tables)
    ensures Distilled(job.input, L, job.snap, MergeFiles(I0 + I1), Flat(outs))
  {
    hide Distilled, Kept;
    PairedIsGood(job.input, L, I0, I1);
    MergedInput(job.input, L, I0, I1);
    KeptIsDistilled(job.input, L, job.snap, MergeFiles(I0 + I1));
  }

  lemma {:induction false} OutputsUnused(current: Version, L: nat, I0: seq<File>, outs: seq<File>, outputs: set<nat>)
    requires forall n :: n in outputs ==> !Uses(current, n)
    requires forall o :: o in outs ==> o.number in outputs
    requires forall i, j :: 0 <= i < j < |outs| ==> outs[i].number != outs[j].number
    ensures NumbersFree(current, L, I0, outs)
  {
    forall l, f, o | 0 <= l < |current.levels| && f in current.levels[l] && o in outs ensures f.number != o.number {
      assert Uses(current, f.number);
    }
  }

  /** The whole compaction, flushes included, keeps every reading a snapshot can ask for. */
  lemma {:induction false} JobReadsLike(job: Job, current: Version, L: nat, I0: seq<File>, I1: seq<File>,
                                        outs: seq<File>, tables: map<nat, seq<Entry>>)
    requires Installable(job, current, L, I0, I1, outs, tables) && Valid(current) && Grown(job.input, current)
    requires forall n :: n in job.outputs ==> !Uses(current, n)
    ensures EditOk(CompactionEdit(L, I0, I1, outs))
    ensures Installed(current, Next(current, CompactionEdit(L, I0, I1, outs)), L, I0, I1, outs)
    ensures ReadsLike(current, Next(current, CompactionEdit(L, I0, I1, outs)), job.snap)
    ensures LevelEntries(outs) <= InputEntries(I0, I1) && Subset(I0, current.levels[L])
    ensures Subset(I1, current.levels[L + 1])
  {
    JobInstalls(job, current, L, I0, I1, outs, tables);
    hide Installable, Installed, GoodOutputs, GoodInputs, CoreInputs, NumbersFree, Grown, FlushesClear, Survivors;
    var after := Next(current, CompactionEdit(L, I0, I1, outs));
    InterruptedCompactionValid(job.input, current, after, L, I0, I1, outs);
    forall u, s | job.snap <= s
      ensures View(Entries(after), u, s) == View(Entries(current), u, s)
    {
      InterruptedCompactionKeepsView(job.input, current, after, L, I0, I1, outs, job.snap, u, s);
    }
  }

  lemma {:induction false} JobInstalls(job: Job, current: Version, L: nat, I0: seq<File>, I1: seq<File>,
                                       outs: seq<File>, tables: map<nat, seq<Entry>>)
    requires Installable(job, current, L, I0, I1, outs, tables) && Valid(current) && Grown(job.input, current)
    requires forall n :: n in job.outputs ==> !Uses(current, n)
    ensures GoodInputs(job.input, L, I0, I1) && CoreInputs(job.input, L, I0, I1) && GoodOutputs(I0, I1, outs)
    ensures LevelEntries(outs) == Survivors(InputEntries(I0, I1), job.snap, BaseKeys(job.input, L))
    ensures EditOk(CompactionEdit(L, I0, I1, outs)) && NumbersFree(current, L, I0, outs)
    ensures Installed(current, Next(current, CompactionEdit(L, I0, I1, outs)), L, I0, I1, outs)
    ensures Subset(I0, current.levels[L]) && Subset(I1, current.levels[L + 1])
    ensures FlushesClear(job.input, current, L, outs)
    ensures LevelEntries(outs) <= InputEntries(I0, I1)
  {
    hide Recency, NewerByNumber, Entries, FlushesClear, WellFormed, Kept, Survivors, Complete, NextInputs, Uses;
    PairedIsGood(job.input, L, I0, I1);
    ProducedOutputs(job, L, I0, I1, outs, tables);
    OutputsUnused(current, L, I0, outs, job.outputs);
    InputsStayCore(job.input, current, L, I0, I1);
    EditInstalls(current, L, I0, I1, outs);
  }

  lemma {:induction false} InstalledFewer(v: Version, after: Version, L: nat, I0: seq<File>, I1: seq<File>,
                                          outs: seq<File>)
    requires |v.levels| == NUM_LEVELS && L + 1 < NUM_LEVELS && Installed(v, after, L, I0, I1, outs)
    requires LevelEntries(outs) <= InputEntries(I0, I1) && Subset(I0, v.levels[L]) && Subset(I1, v.levels[L + 1])
    ensures Entries(after) <= Entries(v)
  {
    AfterEntries(v, after, L, I0, I1, outs);
    SplitEntries(v, L, I0, I1);
  }

  lemma {:induction false} InstalledFiles(v: Version, after: Version, L: nat, I0: seq<File>, I1: seq<File>,
                                          outs: seq<File>, written: set<nat>, tables: map<nat, seq<Entry>>)
    requires |v.levels| == NUM_LEVELS && Installed(v, after, L, I0, I1, outs)
    requires forall o :: o in outs ==>
             FileOf(v, o) || (o.number in written && o.number in tables && tables[o.number] == o.entries)
    ensures FilesFrom(v, after, written, tables)
  {
    forall l, f | 0 <= l < |after.levels| && f in after.levels[l]
      ensures FileOf(v, f) || (f.number in written && f.number in tables && tables[f.number] == f.entries)
    {
      assert Stays(v, l, f, L, I0, I1) || (l == L + 1 && f in outs);
    }
  }

  /** What any recorded compaction may do to the current version. */
  ghost predicate Rewrites(current: Version, after: Version, snap: nat, written: set<nat>, tables: map<nat, seq<Entry>>)
  {
    ReadsLike(current, after, snap) && Entries(after) <= Entries(current) && FilesFrom(current, after, written, tables)
  }

  lemma {:induction false} JobRewrites(job: Job, current: Version, L: nat, I0: seq<File>, I1: seq<File>,
                                       outs: seq<File>, tables: map<nat, seq<Entry>>)
    requires Installable(job, current, L, I0, I1, outs, tables) && Valid(current) && Grown(job.input, current)
    requires forall n :: n in job.outputs ==> !Uses(current, n)
    ensures EditOk(CompactionEdit(L, I0, I1, outs))
    ensures Rewrites(current, Next(current, CompactionEdit(L, I0, I1, outs)), job.snap, job.outputs, tables)
  {
    JobReadsLike(job, current, L, I0, I1, outs, tables);
    hide Valid, ReadsLike, Paired, FlushesClear, AllWellFormed, Kept, Grown, Uses, LevelsOrdered;
    var after := Next(current, CompactionEdit(L, I0, I1, outs));
    InstalledFewer(current, after, L, I0, I1, outs);
    InstalledFiles(current, after, L, I0, I1, outs, job.outputs, tables);
  }

  lemma {:induction false} RewriteMirrors(v: Version, after: Version, h: seq<Batch>, cutoff: nat, snap: nat,
                                          cutoff': nat, written: set<nat>, tables: map<nat, seq<Entry>>)
    requires Mirrors(v, h, cutoff) && Rewrites(v, after, snap, written, tables) && cutoff <= cutoff' && snap <= cutoff'
    ensures Mirrors(after, h, cutoff') && Mirrors(v, h, cutoff')
  {
    hide Valid, View, FilesFrom;
  }

  function Max(a: nat, b: nat): nat
  {
    if a < b then b else a
  }

  /** The edit of a compaction or a move goes to the MANIFEST; the log number stays. */
  ghost predicate Record(r: Run, r': Run, after: Version, snap: nat, outputs: set<nat>)
  {
    && r.state.Up? && r.state.m.flush == NoFlush && !r.state.m.job.Installing? && r.state.m.doomedTables == {}
    && var disk, m := r.state.disk, r.state.m;
       r' == r.(state :=
           Up(disk.(saved := Saved(after, disk.saved.logNumber, m.nextFile, m.lastSequence)),
               m.(job := Installing(after, outputs))),
                cutoff := Max(r.cutoff, snap))
  }

  lemma {:induction false} RecordDisk(disk: Disk, after: Version, h: seq<Batch>, durable: nat, cutoff: nat,
                                      cutoff': nat, nextFile: nat, lastSequence: nat)
    requires DiskOk(disk, h, durable, cutoff) && Mirrors(after, h[..durable], cutoff')
    requires End(h[..durable]) <= lastSequence <= End(h)
    requires OnDisk(disk.tables, after) && NumbersBelow(after, nextFile) && disk.saved.nextFile <= nextFile
    ensures DiskOk(disk.(saved := Saved(after, disk.saved.logNumber, nextFile, lastSequence)), h, durable, cutoff')
  {
    hide Mirrors, OnDisk, NumbersBelow, End, Pending;
  }

  lemma {:induction false} RecordInv(r: Run, r': Run, after: Version, snap: nat, outputs: set<nat>)
    requires Inv(r) && Record(r, r', after, snap, outputs)
    requires Rewrites(r.state.m.current, after, snap, outputs, r.state.disk.tables)
    requires outputs <= r.state.m.pending && snap <= r.state.m.lastSequence
    requires forall i :: 0 <= i < |r.state.m.snapshots| ==> snap <= r.state.m.snapshots[i]
    ensures Inv(r')
  {
    hide Contiguous, DiskOk, MemOk, Mirrors, End, OnDisk, NumbersBelow, Uses, Rewrites, Grown, Valid;
    var disk, m, h := r.state.disk, r.state.m, LoggedHistory(r);
    RewriteMirrors(m.current, after, r.acked[..r.flushed], r.cutoff, snap, r'.cutoff, outputs, disk.tables);
    RewriteFiles(m.current, after, snap, outputs, disk.tables, m.nextFile);
    assert h[..r.flushed] == r.acked[..r.flushed];
    EndMonotone(h, r.flushed, |r.acked|);
    EndMonotone(h, |r.acked|, |h|);
    assert h[..|h|] == h && h[..|r.acked|] == r.acked;
    RecordDisk(disk, after, h, r.durable, r.cutoff, r'.cutoff, m.nextFile, m.lastSequence);
  }

  lemma {:induction false} RewriteFiles(v: Version, after: Version, snap: nat, outputs: set<nat>,
                                        tables: map<nat, seq<Entry>>, nextFile: nat)
    requires Rewrites(v, after, snap, outputs, tables) && OnDisk(tables, v) && NumbersBelow(v, nextFile)
    requires forall n :: n in outputs ==> n < nextFile
    ensures OnDisk(tables, after) && NumbersBelow(after, nextFile)
  {
    hide ReadsLike, Entries;
    FilesFromOnDisk(v, after, outputs, tables, nextFile);
  }

  /** A compaction's results are recorded. */
  ghost predicate JobRecord(r: Run, r': Run, L: nat, I0: seq<File>, I1: seq<File>, outs: seq<File>)
  {
    && r.state.Up? && r.state.m.job.Working?
    && var m := r.state.m;
       && Installable(m.job, m.current, L, I0, I1, outs, r.state.disk.tables)
       && EditOk(CompactionEdit(L, I0, I1, outs))
       && Record(r, r', Next(m.current, CompactionEdit(L, I0, I1, outs)), m.job.snap, m.job.outputs)
  }

  lemma {:induction false} JobRecordInv(r: Run, r': Run, L: nat, I0: seq<File>, I1: seq<File>, outs: seq<File>)
    requires Inv(r) && JobRecord(r, r', L, I0, I1, outs)
    ensures Inv(r')
  {
    hide Contiguous, DiskOk, MemOk, LogsOk, Mirrors, End, OnDisk, NumbersBelow, Uses, Rewrites, Grown, Valid,
         Installable, Record;
    var disk, m := r.state.disk, r.state.m;
    MirrorIsValid(m.current, r.acked[..r.flushed], r.cutoff);
    JobRewrites(m.job, m.current, L, I0, I1, outs, disk.tables);
    RecordInv(r, r', Next(m.current, CompactionEdit(L, I0, I1, outs)), m.job.snap, m.job.outputs);
  }

  /** A lone file moves one level down. */
  ghost predicate JobMove(r: Run, r': Run, L: nat, f: File)
  {
    && r.state.Up? && r.state.m.job == NoJob && L + 1 < NUM_LEVELS && Valid(r.state.m.current)
    && var m := r.state.m;
       && Paired(m.current, L, [f], [])
       && EditOk(CompactionEdit(L, [f], [], [f]))
       && Record(r, r', Next(m.current, CompactionEdit(L, [f], [], [f])), 0, {})
  }

  lemma {:induction false} MoveRewrites(v: Version, L: nat, f: File, tables: map<nat, seq<Entry>>)
    requires Valid(v) && L + 1 < NUM_LEVELS && Paired(v, L, [f], [])
    ensures |v.levels| == NUM_LEVELS && EditOk(CompactionEdit(L, [f], [], [f]))
    ensures Rewrites(v, Next(v, CompactionEdit(L, [f], [], [f])), 0, {}, tables)
  {
    TrivialMovePreservesReads(v, L, f);
    hide ReadsLike, Recency, NewerByNumber, Entries, WellFormed, Complete, NextInputs;
    PairedIsGood(v, L, [f], []);
    MovedFileIsOutput(v, L, f);
    EditInstalls(v, L, [f], [], [f]);
    var after := Next(v, CompactionEdit(L, [f], [], [f]));
    assert f in v.levels[L];
    MoveKeepsEntries(v, after, L, f);
    InstalledFiles(v, after, L, [f], [], [f], {}, tables);
  }

  lemma {:induction false} JobMoveInv(r: Run, r': Run, L: nat, f: File)
    requires Inv(r) && JobMove(r, r', L, f)
    ensures Inv(r')
  {
    hide Contiguous, DiskOk, MemOk, LogsOk, ImmOk, Mirrors, End, WorkOk, HistoryOk, Rewrites, Valid, Record;
    MoveRewrites(r.state.m.current, L, f, r.state.disk.tables);
    RecordInv(r, r', Next(r.state.m.current, CompactionEdit(L, [f], [], [f])), 0, {});
  }

  /** The recorded version becomes current; the outputs are no longer pending. */
  ghost predicate JobInstall(r: Run, r': Run)
  {
    && r.state.Up? && r.state.m.job.Installing?
    && var m := r.state.m;
       r' == r.(state :=
           Up(r.state.disk, m.(current := m.job.after, pending := m.pending - m.job.outputs, job := NoJob)))
  }

  lemma {:induction false} JobInstallInv(r: Run, r': Run)
    requires Inv(r) && JobInstall(r, r')
    ensures Inv(r')
  {
    hide Contiguous, MemOk, LogsOk, Mirrors, End, OnDisk, NumbersBelow, Uses, DoomedLogsOk, Pending, Grown, Valid;
    assert LoggedHistory(r)[..r.flushed] == r.acked[..r.flushed];
  }

  /** A compaction that fails or is interrupted by a shutdown leaves its outputs behind. */
  ghost predicate JobAbandon(r: Run, r': Run)
  {
    && r.state.Up? && r.state.m.job.Working? && r.state.m.flush == NoFlush
    && r' == r.(state :=
       Up(r.state.disk, r.state.m.(pending := r.state.m.pending - r.state.m.job.outputs, job := NoJob)))
  }

  lemma {:induction false} JobAbandonInv(r: Run, r': Run)
    requires Inv(r) && JobAbandon(r, r')
    ensures Inv(r')
  {
    hide Contiguous, DiskOk, MemOk, LogsOk, ImmOk, Mirrors, End, OnDisk, NumbersBelow, Uses, DoomedLogsOk, Grown, Valid;
  }

  // ----- removing obsolete files

  ghost predicate Obsolete(disk: Disk, m: Memory, n: nat)
  {
    n !in m.pending && forall v :: v in Live(disk, m) ==> !Uses(v, n)
  }

  ghost function ObsoleteTables(disk: Disk, m: Memory): set<nat>
  {
    set n | n in disk.tables && Obsolete(disk, m, n)
  }

  function ObsoleteLogs(disk: Disk): set<nat>
  {
    set log | log in disk.logs && log.number < disk.saved.logNumber :: log.number
  }

  /** Under the lock, the files to delete are determined: tables that no version uses and no
      one is writing, and logs below the recorded log number. */
  ghost predicate Sweep(r: Run, r': Run)
  {
    && r.state.Up? && r.state.m.flush == NoFlush && !r.state.m.job.Installing?
    && var disk, m := r.state.disk, r.state.m;
       r' == r.(state := Up(disk, m.(doomedTables := ObsoleteTables(disk, m), doomedLogs := ObsoleteLogs(disk))))
  }

  lemma {:induction false} SweepInv(r: Run, r': Run)
    requires Inv(r) && Sweep(r, r')
    ensures Inv(r')
  {
    hide Contiguous, DiskOk, MemOk, LogsOk, ImmOk, Mirrors, End, OnDisk, NumbersBelow, FilesOk, PendingOk, SnapshotsOk,
         PhaseOk, JobOk, Uses;
  }

  /** Without the lock, the doomed files are deleted one by one. */
  ghost predicate RemoveTable(r: Run, r': Run, n: nat)
  {
    && r.state.Up? && n in r.state.m.doomedTables
    && r' == r.(state :=
       Up(r.state.disk.(tables := r.state.disk.tables - {n}), r.state.m.(doomedTables := r.state.m.doomedTables - {n})))
  }

  lemma {:induction false} RemoveTableInv(r: Run, r': Run, n: nat)
    requires Inv(r) && RemoveTable(r, r', n)
    ensures Inv(r')
  {
    hide Contiguous, DiskOk, MemOk, LogsOk, ImmOk, Mirrors, End, PendingOk, DoomedLogsOk, SnapshotsOk, PhaseOk, JobOk;
    var disk, m := r.state.disk, r.state.m;
    UnusedTable(disk.tables, Live(disk, m), m.nextFile, n);
    TablesOnly(disk, disk.tables - {n}, LoggedHistory(r), r.durable, r.cutoff, Live(disk, m), m.nextFile);
  }

  lemma {:induction false} UnusedTable(tables: map<nat, seq<Entry>>, live: set<Version>, nextFile: nat, n: nat)
    requires FilesOk(tables, live, nextFile) && forall v :: v in live ==> !Uses(v, n)
    ensures FilesOk(tables - {n}, live, nextFile)
  {
    forall v | v in live
      ensures OnDisk(tables - {n}, v)
    {
      assert OnDisk(tables, v) && !Uses(v, n);
    }
  }

  function WithoutLog(logs: seq<Log>, n: nat): seq<Log>
  {
    if logs == [] then []
        else WithoutLog(logs[..|logs| - 1], n) + (if logs[|logs| - 1].number == n then [] else [logs[|logs| - 1]])
  }

  ghost predicate RemoveLog(r: Run, r': Run, n: nat)
  {
    && r.state.Up? && n in r.state.m.doomedLogs
    && r' == r.(state :=
       Up(r.state.disk.(logs := WithoutLog(r.state.disk.logs, n)),
           r.state.m.(doomedLogs := r.state.m.doomedLogs - {n})))
  }

  lemma {:induction false} WithoutLogAscends(logs: seq<Log>, n: nat)
    requires Ascending(logs)
    ensures Ascending(WithoutLog(logs, n)) && forall x :: x in WithoutLog(logs, n) ==> x in logs
  {
    if logs != [] {
      var j := |logs| - 1;
      WithoutLogAscends(logs[..j], n);
      AppendAscends(WithoutLog(logs[..j], n), logs);
    }
  }

  lemma {:induction false} AppendAscends(rest: seq<Log>, logs: seq<Log>)
    requires Ascending(logs) && |logs| > 0 && Ascending(rest) && forall x :: x in rest ==> x in logs[..|logs| - 1]
    ensures Ascending(rest + [logs[|logs| - 1]])
  {
    forall i | 0 <= i < |rest|
      ensures rest[i].number < logs[|logs| - 1].number
    {
      assert rest[i] in rest;
      var x :| 0 <= x < |logs| - 1 && logs[..|logs| - 1][x] == rest[i];
      assert logs[x] == rest[i];
    }
  }

  /** Dropping a log below the recorded log number leaves what recovery replays. */
  lemma {:induction false} WithoutLogReplays(logs: seq<Log>, n: nat, k: nat)
    requires n < k
    ensures Pending(WithoutLog(logs, n), k) == Pending(logs, k)
  {
    if logs != [] {
      var j := |logs| - 1;
      WithoutLogReplays(logs[..j], n, k);
      var rest := WithoutLog(logs[..j], n);
      if logs[j].number != n {
        assert (rest + [logs[j]])[..|rest|] == rest;
      } else {
        assert rest + [] == rest && Pending(logs[..j], k) + [] == Pending(logs[..j], k);
      }
    }
  }

  lemma {:induction false} RemoveLogInv(r: Run, r': Run, n: nat)
    requires Inv(r) && RemoveLog(r, r', n)
    ensures Inv(r')
  {
    hide Contiguous, MemOk, ImmOk, Mirrors, End, OnDisk, NumbersBelow, FilesOk, PendingOk, DoomedOk, SnapshotsOk,
         PhaseOk, FlushOk, JobOk;
    WithoutLogAscends(r.state.disk.logs, n);
    WithoutLogReplays(r.state.disk.logs, n, r.state.disk.saved.logNumber);
  }

  // ----- readers

  /** A reader or an iterator pins the current version. */
  ghost predicate Pin(r: Run, r': Run)
  {
    && r.state.Up?
    && r' == r.(state := Up(r.state.disk, r.state.m.(pinned := r.state.m.pinned + {r.state.m.current})))
  }

  lemma {:induction false} PinInv(r: Run, r': Run)
    requires Inv(r) && Pin(r, r')
    ensures Inv(r')
  {
    hide Contiguous, DiskOk, MemOk, LogsOk, ImmOk, Mirrors, End, FilesOk, PendingOk, DoomedOk, DoomedLogsOk,
         SnapshotsOk, PhaseOk, FlushOk, JobOk;
    assert Live(r'.state.disk, r'.state.m) == Live(r.state.disk, r.state.m);
  }

  ghost predicate Unpin(r: Run, r': Run, v: Version)
  {
    && r.state.Up?
    && r' == r.(state := Up(r.state.disk, r.state.m.(pinned := r.state.m.pinned - {v})))
  }

  lemma {:induction false} UnpinInv(r: Run, r': Run, v: Version)
    requires Inv(r) && Unpin(r, r', v)
    ensures Inv(r')
  {
    hide Contiguous, DiskOk, MemOk, LogsOk, ImmOk, Mirrors, End, PendingOk, DoomedLogsOk, SnapshotsOk, PhaseOk, OnDisk,
         NumbersBelow, Uses, Grown;
    assert Live(r'.state.disk, r'.state.m) <= Live(r.state.disk, r.state.m);
  }

  ghost predicate TakeSnapshot(r: Run, r': Run)
  {
    && r.state.Up?
    && r' == r.(state := Up(r.state.disk, r.state.m.(snapshots := r.state.m.snapshots + [r.state.m.lastSequence])))
  }

  lemma {:induction false} TakeSnapshotInv(r: Run, r': Run)
    requires Inv(r) && TakeSnapshot(r, r')
    ensures Inv(r')
  {
    hide Contiguous, DiskOk, MemOk, LogsOk, ImmOk, Mirrors, End, FilesOk, PendingOk, DoomedOk, DoomedLogsOk, PhaseOk,
         FlushOk, JobOk;
  }

  ghost predicate ReleaseSnapshot(r: Run, r': Run, i: nat)
  {
    && r.state.Up? && i < |r.state.m.snapshots|
    && r' == r.(state :=
       Up(r.state.disk, r.state.m.(snapshots := r.state.m.snapshots[..i] + r.state.m.snapshots[i + 1..])))
  }

  lemma {:induction false} ReleaseSnapshotInv(r: Run, r': Run, i: nat)
    requires Inv(r) && ReleaseSnapshot(r, r', i)
    ensures Inv(r')
  {
    hide Contiguous, DiskOk, MemOk, LogsOk, ImmOk, Mirrors, End, FilesOk, PendingOk, DoomedOk, DoomedLogsOk, PhaseOk,
         FlushOk, JobOk;
  }
}
