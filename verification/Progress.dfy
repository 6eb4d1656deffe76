/** Nothing gets stuck: from every reachable state a write can be acknowledged, a memtable flushed, a compaction
    installed, a crashed database opened again; and each has the effect it is for. */
module Progress {
  import opened Ordering
  import opened Levels
  import opened CompactionInputs
  import opened CompactionWork
  import opened CompactionRun
  import opened Install
  import opened VersionBuilder
  import opened Flush
  import opened MidCompactionFlush
  import opened History
  import opened Durability
  import opened Background
  import opened Recovery
  import opened Runs
  import opened Wrappers

  function Last(rs: seq<Run>): Run
    requires |rs| > 0
  {
    rs[|rs| - 1]
  }

  lemma {:induction false} OneMore(rs: seq<Run>, r: Run)
    requires IsRun(rs) && Step(Last(rs), r)
    ensures IsRun(rs + [r]) && Last(rs + [r]) == r && rs <= rs + [r]
  {
    hide Step, Init;
    var more := rs + [r];
    forall i | 0 <= i < |more| - 1 ensures Step(more[i], more[i + 1]) {
      if i < |rs| - 1 { assert Step(rs[i], rs[i + 1]); }
    }
  }

  lemma {:induction false} Then(rs: seq<Run>, r: Run) returns (more: seq<Run>)
    requires IsRun(rs) && Step(Last(rs), r)
    ensures more == rs + [r] && IsRun(more) && Last(more) == r
  {
    hide Step, Init;
    more := rs + [r];
    OneMore(rs, r);
  }

  // ----- writes

  /** A group of operations goes through and takes the next sequence numbers. */
  lemma {:induction false} WriteCompletes(rs: seq<Run>, ops: seq<Op>) returns (more: seq<Run>)
    requires IsRun(rs) && Last(rs).state.Up? && Last(rs).state.m.writer == Idle
    ensures rs <= more && IsRun(more) && WriteDone(Last(rs), Last(more), ops)
  {
    hide Step, Init, Inv, WriteDone;
    RunInv(rs);
    LogsThere(Last(rs));
    var r1, r2 := LogIt(Last(rs), ops);
    var r3, r4 := ApplyIt(r2);
    LoggedThenApplied(Last(rs), r2, r4, ops);
    more := Then(rs, r1);
    more := Then(more, r2);
    more := Then(more, r3);
    more := Then(more, r4);
  }

  /** The operations are acknowledged, under the next numbers. */
  ghost predicate WriteDone(r: Run, r': Run, ops: seq<Op>)
    requires r.state.Up?
  {
    && r'.state.Up? && r'.state.m.writer == Idle
    && r'.acked == r.acked + [Batch(r.state.m.lastSequence + 1, ops)]
    && r'.state.m.lastSequence == r.state.m.lastSequence + |ops|
  }

  lemma {:induction false} LogIt(r: Run, ops: seq<Op>) returns (r1: Run, r2: Run)
    requires r.state.Up? && r.state.m.writer == Idle && |r.state.disk.logs| > 0
    ensures Step(r, r1) && Step(r1, r2)
    ensures r2.state.Up? && r2.acked == r.acked && r2.state.m.lastSequence == r.state.m.lastSequence
    ensures r2.state.m.writer == Logged(Batch(r.state.m.lastSequence + 1, ops))
  {
    var disk, m, b := r.state.disk, r.state.m, Batch(r.state.m.lastSequence + 1, ops);
    hide Step, AppendRecord;
    r1 := r.(state := Up(disk, m.(writer := Assigned(b))));
    WriterSteps(r, r1, ops);
    r2 := r.(state := Up(disk.(logs := AppendRecord(disk.logs, b)), m.(writer := Logged(b))));
    WriterSteps(r1, r2, ops);
  }

  lemma {:induction false} ApplyIt(r: Run) returns (r1: Run, r2: Run)
    requires r.state.Up? && r.state.m.writer.Logged?
    ensures Step(r, r1) && Step(r1, r2)
    ensures r2.state.Up? && r2.state.m.writer == Idle && r2.acked == r.acked + [r.state.m.writer.batch]
    ensures r2.state.m.lastSequence == r.state.m.lastSequence + |r.state.m.writer.batch.ops|
  {
    var disk, m, b := r.state.disk, r.state.m, r.state.m.writer.batch;
    hide Step, InsertOps;
    var mem := InsertOps(m.mem, b, |b.ops|);
    r1 := r.(state := Up(disk, m.(mem := mem, writer := Applied(b))));
    WriterSteps(r, r1, []);
    r2 := r.(state := Up(disk, m.(mem := mem, writer := Idle, lastSequence := m.lastSequence + |b.ops|)),
             acked := r.acked + [b]);
    WriterSteps(r1, r2, []);
  }

  lemma {:induction false} LoggedThenApplied(r: Run, r2: Run, r4: Run, ops: seq<Op>)
    requires r.state.Up? && r2.state.Up? && r2.acked == r.acked && r2.state.m.lastSequence == r.state.m.lastSequence
    requires r2.state.m.writer == Logged(Batch(r.state.m.lastSequence + 1, ops))
    requires r4.state.Up? && r4.state.m.writer == Idle && r4.acked == r2.acked + [r2.state.m.writer.batch]
    requires r4.state.m.lastSequence == r2.state.m.lastSequence + |ops|
    ensures WriteDone(r, r4, ops)
  {
  }

  lemma {:induction false} LogsThere(r: Run)
    requires Inv(r) && r.state.Up?
    ensures |r.state.disk.logs| > 0
  {
  }

  lemma {:induction false} WriterSteps(r: Run, r': Run, ops: seq<Op>)
    requires BeginWrite(r, r', ops) || LogWrite(r, r') || ApplyWrite(r, r') || Acknowledge(r, r') || Rotate(r, r')
    ensures Step(r, r')
  {
    hide BeginWrite, LogWrite, ApplyWrite, Acknowledge, Rotate;
    assert WriterStep(r, r');
    hide WriterStep, FlushStep, CompactionStep, RemovalStep, ReaderStep, RecoveryStep;
  }

  /** After the write every key reads as the plain map reads once the operations are done on it. */
  lemma {:induction false} WriteTakesEffect(rs: seq<Run>, ops: seq<Op>, u: UserKey) returns (more: seq<Run>)
    requires IsRun(rs) && Last(rs).state.Up? && Last(rs).state.m.writer == Idle
    ensures rs <= more && IsRun(more) && Last(more).state.Up? && |Last(more).state.m.current.levels| == NUM_LEVELS
    ensures var r, r' := Last(rs), Last(more);
            ReadAt(r', u, r'.state.m.lastSequence) == Lookup(Store(AllOps(r.acked) + ops), u)
  {
    hide Step, Init, AllOps, Store, ReadAt;
    more := WriteCompletes(rs, ops);
    AllOpsSnoc(Last(rs).acked, Batch(Last(rs).state.m.lastSequence + 1, ops));
    NewestRead(more, |more| - 1, u);
  }

  /** A memtable can always be made immutable once the one before it is gone. */
  lemma {:induction false} RotateCompletes(rs: seq<Run>) returns (more: seq<Run>)
    requires IsRun(rs) && Last(rs).state.Up? && Last(rs).state.m.writer == Idle && Last(rs).state.m.imm.None?
    ensures rs <= more && IsRun(more)
    ensures var r, r' := Last(rs), Last(more);
            && r'.state.Up? && r'.acked == r.acked && r'.rotated == |r.acked|
            && r'.state.m.mem == [] && r'.state.m.imm == Some(r.state.m.mem)
            && r'.state.m.flush == r.state.m.flush && r'.state.m.job == r.state.m.job
            && r'.state.m.doomedTables == r.state.m.doomedTables
  {
    hide Step, Init;
    var r := Last(rs);
    var disk, m := r.state.disk, r.state.m;
    var r' := r.(state := Up(disk.(logs := disk.logs + [Log(m.nextFile, [])]),
                             m.(mem := [], imm := Some(m.mem), logNumber := m.nextFile, nextFile := m.nextFile + 1)),
                 rotated := |r.acked|);
    assert Rotate(r, r');
    WriterSteps(r, r', []);
    more := Then(rs, r');
  }

  // ----- flushes

  lemma {:induction false} FlushSteps(r: Run, r': Run, file: Option<File>, F: nat)
    requires FlushReserve(r, r') || FlushBuild(r, r', file) || FlushRecord(r, r', F) || FlushInstall(r, r')
    ensures Step(r, r')
  {
    hide FlushReserve, FlushBuild, FlushRecord, FlushInstall;
    assert FlushStep(r, r');
    hide WriterStep, FlushStep, CompactionStep, RemovalStep, ReaderStep, RecoveryStep;
  }

  lemma {:induction false} LevelExists(v: Version, lo: UserKey, hi: UserKey, limit: nat, from: nat) returns (F: nat)
    requires |v.levels| == NUM_LEVELS && from <= MAX_MEM_COMPACT_LEVEL
    requires forall l :: 0 <= l <= from ==> NoneTouches(v.levels[l], lo, hi)
    requires forall l :: 2 <= l < from + 2 ==> TotalSize(Touching(v.levels[l], Some(lo), Some(hi))) <= limit
    ensures LevelChosen(v, lo, hi, limit, F)
    decreases MAX_MEM_COMPACT_LEVEL - from
  {
    hide NoneTouches, Touching, TotalSize;
    if from < MAX_MEM_COMPACT_LEVEL && NoneTouches(v.levels[from + 1], lo, hi)
       && TotalSize(Touching(v.levels[from + 2], Some(lo), Some(hi))) <= limit {
      F := LevelExists(v, lo, hi, limit, from + 1);
    } else {
      F := from;
    }
  }

  lemma {:induction false} SomeLevel(v: Version, lo: UserKey, hi: UserKey, limit: nat) returns (F: nat)
    requires |v.levels| == NUM_LEVELS
    ensures LevelChosen(v, lo, hi, limit, F)
  {
    hide NoneTouches, Touching, TotalSize;
    if NoneTouches(v.levels[0], lo, hi) {
      F := LevelExists(v, lo, hi, limit, 0);
    } else {
      F := 0;
    }
  }

  /** The immutable memtable is in the version, at the level chosen for it, and gone from memory. */
  ghost predicate FlushDone(r: Run, r': Run, limit: nat)
    requires r.state.Up? && r.state.m.imm.Some? && |r.state.m.current.levels| == NUM_LEVELS
  {
    && r'.state.Up? && r'.acked == r.acked && r'.durable == r'.flushed == r'.rotated == r.rotated
    && r'.state.m.imm.None? && r'.state.m.flush == NoFlush && r'.state.m.mem == r.state.m.mem
    && r'.state.m.pending == r.state.m.pending - {r.state.m.nextFile}
    && r'.state.disk.saved.version == r'.state.m.current && r'.state.disk.saved.logNumber == r.state.m.logNumber
    && exists F: nat, file :: TableAt(r.state.m.imm.value, file) && F < NUM_LEVELS
                         && r'.state.m.current == FlushAfter(r.state.m.current, F, file)
                         && (file.Some? ==> LevelChosen(r.state.m.current, file.value.smallest.user,
                                                        file.value.largest.user, limit, F))
  }

  /** The table of a memtable: none if it is empty. */
  ghost predicate TableAt(imm: seq<Entry>, file: Option<File>)
  {
    (file.None? <==> imm == []) && (file.Some? ==> WellFormed(file.value) && file.value.entries == imm)
  }

  lemma {:induction false} TableFor(imm: seq<Entry>, number: nat, size: seq<Entry> -> nat) returns (file: Option<File>)
    requires Sorted(imm)
    ensures TableAt(imm, file) && TableOf(Built(number, file), imm)
  {
    if imm == [] {
      file := None;
    } else {
      file := Some(Finish(number, size, imm));
    }
  }

  lemma {:induction false} LevelFor(v: Version, file: Option<File>, limit: nat) returns (F: nat)
    requires |v.levels| == NUM_LEVELS
    ensures F < NUM_LEVELS && (file.Some? ==> PickedLevel(v, F, file.value))
    ensures file.Some? ==> LevelChosen(v, file.value.smallest.user, file.value.largest.user, limit, F)
  {
    F := 0;
    if file.Some? {
      F := SomeLevel(v, file.value.smallest.user, file.value.largest.user, limit);
    }
  }

  lemma {:induction false} FlushReady(r: Run)
    requires Inv(r) && r.state.Up? && r.state.m.imm.Some?
    ensures Sorted(r.state.m.imm.value) && |r.state.m.current.levels| == NUM_LEVELS
  {
    MirrorIsValid(r.state.m.current, r.acked[..r.flushed], r.cutoff);
  }

  /** An immutable memtable can be flushed when the background thread is free. */
  lemma {:induction false} FlushCompletes(rs: seq<Run>, size: seq<Entry> -> nat, limit: nat) returns (more: seq<Run>)
    requires IsRun(rs) && Last(rs).state.Up? && Last(rs).state.m.imm.Some?
    requires Last(rs).state.m.flush == NoFlush && !Last(rs).state.m.job.Installing?
    requires Last(rs).state.m.doomedTables == {}
    ensures rs <= more && IsRun(more)
    ensures |Last(rs).state.m.current.levels| == NUM_LEVELS && FlushDone(Last(rs), Last(more), limit)
  {
    hide Step, Init, Inv, FlushDone, Sorted;
    var r := Last(rs);
    RunInv(rs);
    FlushReady(r);
    var r1, r2, r3, r4 := FlushIt(r, size, limit);
    more := Then(rs, r1);
    more := Then(more, r2);
    more := Then(more, r3);
    more := Then(more, r4);
  }

  lemma {:induction false} FlushIt(r: Run, size: seq<Entry> -> nat, limit: nat)
    returns (r1: Run, r2: Run, r3: Run, r4: Run)
    requires r.state.Up? && r.state.m.imm.Some? && Sorted(r.state.m.imm.value)
    requires |r.state.m.current.levels| == NUM_LEVELS
    requires r.state.m.flush == NoFlush && !r.state.m.job.Installing? && r.state.m.doomedTables == {}
    ensures Step(r, r1) && Step(r1, r2) && Step(r2, r3) && Step(r3, r4) && FlushDone(r, r4, limit)
  {
    hide Step, LevelChosen, PickedLevel, TableOf, TableAt, FlushAfter;
    var disk, m := r.state.disk, r.state.m;
    var file := TableFor(m.imm.value, m.nextFile, size);
    var F := LevelFor(m.current, file, limit);
    var m1 := m.(flush := Reserved(m.nextFile), pending := m.pending + {m.nextFile}, nextFile := m.nextFile + 1);
    r1 := r.(state := Up(disk, m1));
    assert FlushReserve(r, r1);
    FlushSteps(r, r1, None, 0);
    var disk2 := disk.(tables := if file.Some? then disk.tables[m.nextFile := file.value.entries] else disk.tables);
    var m2 := m1.(flush := Built(m.nextFile, file), pending := m1.pending - {m.nextFile});
    r2 := r.(state := Up(disk2, m2));
    assert FlushBuild(r1, r2, file);
    FlushSteps(r1, r2, file, 0);
    var after := FlushAfter(m.current, F, file);
    var disk3 := disk2.(saved := Saved(after, m.logNumber, m2.nextFile, m.lastSequence));
    r3 := r2.(state := Up(disk3, m2.(flush := Recorded(after))), durable := r.rotated);
    assert FlushRecord(r2, r3, F);
    FlushSteps(r2, r3, None, F);
    r4 := r3.(state := Up(disk3, m2.(current := after, imm := None, flush := NoFlush)), flushed := r.rotated);
    assert FlushInstall(r3, r4);
    FlushSteps(r3, r4, None, 0);
  }

  /** With the background thread free, everything acknowledged can be brought into tables. */
  lemma {:induction false} DrainCompletes(rs: seq<Run>, size: seq<Entry> -> nat, limit: nat) returns (more: seq<Run>)
    requires IsRun(rs) && Last(rs).state.Up? && Last(rs).state.m.writer == Idle && Last(rs).state.m.imm.None?
    requires Last(rs).state.m.flush == NoFlush && !Last(rs).state.m.job.Installing?
    requires Last(rs).state.m.doomedTables == {}
    ensures rs <= more && IsRun(more)
    ensures var r, r' := Last(rs), Last(more);
            && r'.state.Up? && r'.acked == r.acked && r'.durable == |r.acked|
            && r'.state.m.mem == [] && r'.state.m.imm.None?
  {
    hide Step, Init, LevelChosen, TableAt, FlushAfter;
    var mid := RotateCompletes(rs);
    more := FlushCompletes(mid, size, limit);
  }

  // ----- compactions

  lemma {:induction false} JobSteps(r: Run, r': Run, es: seq<Entry>, L: nat, I0: seq<File>, I1: seq<File>,
                                    outs: seq<File>,
                                    f: File)
    requires || JobStart(r, r') || JobOutput(r, r', es) || JobRecord(r, r', L, I0, I1, outs) || JobMove(r, r', L, f)
             || JobInstall(r, r') || JobAbandon(r, r')
    ensures Step(r, r')
  {
    hide JobStart, JobOutput, JobRecord, JobMove, JobInstall, JobAbandon;
    assert CompactionStep(r, r');
    hide WriterStep, FlushStep, CompactionStep, RemovalStep, ReaderStep, RecoveryStep;
  }

  /** The background thread has nothing to do. */
  ghost predicate ThreadFree(m: Memory)
  {
    m.job == NoJob && m.flush == NoFlush && m.doomedTables == {}
  }

  /** The outputs of a compaction with one output table at most. */
  function OutputsFor(K: seq<Entry>, number: nat, size: seq<Entry> -> nat): seq<File>
  {
    if K == [] then [] else [Finish(number, size, K)]
  }

  lemma {:induction false} OutputsProduced(v: Version, snap: nat, L: nat, I0: seq<File>, I1: seq<File>, number: nat,
                                           size: seq<Entry> -> nat, outputs: set<nat>, tables: map<nat, seq<Entry>>)
    requires Valid(v) && L + 1 < NUM_LEVELS && Paired(v, L, I0, I1) && snap < MAX_SEQUENCE
    requires var input := MergeFiles(I0 + I1);
             var K := Kept(input, |input|, snap, BaseKeys(v, L));
             K != [] ==> number in outputs && number in tables && tables[number] == K
    ensures var input := MergeFiles(I0 + I1);
            var outs := OutputsFor(Kept(input, |input|, snap, BaseKeys(v, L)), number, size);
            Installable(Working(snap, v, outputs), v, L, I0, I1, outs, tables)
  {
    var input := MergeFiles(I0 + I1);
    var K := Kept(input, |input|, snap, BaseKeys(v, L));
    KeptIsSorted(v, snap, L, I0, I1);
    OneOutput(K, number, size);
    assert |v.levels| == NUM_LEVELS;
    NothingFlushed(v, L, OutputsFor(K, number, size));
    hide Valid, Paired, Kept, BaseKeys, Sorted, MergeFiles, FlushesClear, AllWellFormed, Flat;
    IsProduced(Working(snap, v, outputs), L, I0, I1, K, number, size, tables);
  }

  lemma {:induction false} KeptIsSorted(v: Version, snap: nat, L: nat, I0: seq<File>, I1: seq<File>)
    requires Valid(v) && L + 1 < NUM_LEVELS && Paired(v, L, I0, I1)
    ensures var input := MergeFiles(I0 + I1); Sorted(Kept(input, |input|, snap, BaseKeys(v, L)))
  {
    hide Kept, BaseKeys, Sorted, MergeFiles;
    PairedIsGood(v, L, I0, I1);
    MergedInput(v, L, I0, I1);
    var input := MergeFiles(I0 + I1);
    KeptSorted(input, |input|, snap, BaseKeys(v, L));
  }

  lemma {:induction false} IsProduced(job: Job, L: nat, I0: seq<File>, I1: seq<File>, K: seq<Entry>, number: nat,
                                      size: seq<Entry> -> nat, tables: map<nat, seq<Entry>>)
    requires job.Working? && L + 1 < NUM_LEVELS && |job.input.levels| == NUM_LEVELS
    requires var input := MergeFiles(I0 + I1); K == Kept(input, |input|, job.snap, BaseKeys(job.input, L))
    requires K != [] ==> number in job.outputs && number in tables && tables[number] == K
    requires AllWellFormed(OutputsFor(K, number, size)) && Flat(OutputsFor(K, number, size)) == K
    ensures Produced(job, L, I0, I1, OutputsFor(K, number, size), tables)
  {
    hide Kept, BaseKeys, MergeFiles, AllWellFormed, Flat;
  }

  lemma {:induction false} OneOutput(K: seq<Entry>, number: nat, size: seq<Entry> -> nat)
    requires Sorted(K)
    ensures var outs := OutputsFor(K, number, size); AllWellFormed(outs) && Flat(outs) == K
  {
    if K != [] {
      var outs := [Finish(number, size, K)];
      assert outs[..0] == [] && Flat([]) == [] && [] + K == K;
    }
  }

  lemma {:induction false} NothingFlushed(v: Version, L: nat, outs: seq<File>)
    requires |v.levels| == NUM_LEVELS && L + 1 < NUM_LEVELS
    ensures FlushesClear(v, v, L, outs)
  {
  }

  /** The compaction's edit is in place; nothing a snapshot needs is lost and nothing else is kept. */
  ghost predicate CompactionDone(r: Run, r': Run, L: nat, I0: seq<File>, I1: seq<File>, outs: seq<File>)
    requires r.state.Up? && Valid(r.state.m.current) && L + 1 < NUM_LEVELS
  {
    && r'.state.Up? && r'.acked == r.acked && ThreadFree(r'.state.m)
    && r'.state.m.pending == r.state.m.pending - {r.state.m.nextFile}
    && Installed(r.state.m.current, r'.state.m.current, L, I0, I1, outs)
    && r'.state.disk.saved.version == r'.state.m.current
    && Distilled(r.state.m.current, L, OldestSnapshot(r.state.m), MergeFiles(I0 + I1), Flat(outs))
  }

  /** Inputs that fit together can be compacted when the background thread is free. */
  lemma {:induction false} CompactionCompletes(rs: seq<Run>, L: nat, I0: seq<File>, I1: seq<File>,
                                               size: seq<Entry> -> nat)
    returns (more: seq<Run>, outs: seq<File>)
    requires IsRun(rs) && Last(rs).state.Up? && ThreadFree(Last(rs).state.m) && L + 1 < NUM_LEVELS
    requires Valid(Last(rs).state.m.current) && Paired(Last(rs).state.m.current, L, I0, I1)
    requires OldestSnapshot(Last(rs).state.m) < MAX_SEQUENCE
    ensures rs <= more && IsRun(more) && CompactionDone(Last(rs), Last(more), L, I0, I1, outs)
  {
    hide Step, Init, Inv, Valid, Paired, Kept, BaseKeys, MergeFiles, Distilled, Installed, Installable;
    var r := Last(rs);
    var disk, m, snap := r.state.disk, r.state.m, OldestSnapshot(r.state.m);
    var input := MergeFiles(I0 + I1);
    var K := Kept(input, |input|, snap, BaseKeys(m.current, L));
    var r1 := StartJob(r);
    more := Then(rs, r1);
    if K != [] {
      var r2 := WriteOutput(r1, K);
      more := Then(more, r2);
    }
    outs := OutputsFor(K, m.nextFile, size);
    var w := Last(more);
    OutputsProduced(m.current, snap, L, I0, I1, m.nextFile, size, w.state.m.job.outputs, w.state.disk.tables);
    more := InstallJob(more, L, I0, I1, outs);
    RunInv(rs);
    FreshNumber(r);
  }

  /** The next file number is not in use by anybody writing a table. */
  lemma {:induction false} FreshNumber(r: Run)
    requires Inv(r) && r.state.Up?
    ensures r.state.m.nextFile !in r.state.m.pending
  {
  }

  lemma {:induction false} StartJob(r: Run) returns (r1: Run)
    requires r.state.Up? && ThreadFree(r.state.m)
    ensures Step(r, r1)
    ensures r1 ==
            r.(state := Up(r.state.disk, r.state.m.(job := Working(OldestSnapshot(r.state.m), r.state.m.current, {}))))
  {
    hide Step;
    r1 := r.(state := Up(r.state.disk, r.state.m.(job := Working(OldestSnapshot(r.state.m), r.state.m.current, {}))));
    JobSteps(r, r1, [], 0, [], [], [], NoFile());
  }

  lemma {:induction false} WriteOutput(r: Run, K: seq<Entry>) returns (r': Run)
    requires r.state.Up? && r.state.m.job.Working? && r.state.m.flush == NoFlush && r.state.m.doomedTables == {}
    ensures Step(r, r') && JobOutput(r, r', K)
  {
    hide Step;
    var disk, m, n := r.state.disk, r.state.m, r.state.m.nextFile;
    r' := r.(state := Up(disk.(tables := disk.tables[n := K]),
                         m.(nextFile := n + 1, pending := m.pending + {n},
                            job := Working(m.job.snap, m.job.input, m.job.outputs + {n}))));
    JobSteps(r, r', K, 0, [], [], [], NoFile());
  }

  lemma {:induction false} InstallJob(rs: seq<Run>, L: nat, I0: seq<File>, I1: seq<File>, outs: seq<File>)
    returns (more: seq<Run>)
    requires IsRun(rs) && Last(rs).state.Up? && Last(rs).state.m.job.Working? && L + 1 < NUM_LEVELS
    requires Last(rs).state.m.flush == NoFlush && Last(rs).state.m.doomedTables == {}
    requires Last(rs).state.m.job.input == Last(rs).state.m.current
    requires Installable(Last(rs).state.m.job, Last(rs).state.m.current, L, I0, I1, outs, Last(rs).state.disk.tables)
    ensures rs <= more && IsRun(more)
    ensures var r, r' := Last(rs), Last(more);
            && r'.state.Up? && r'.acked == r.acked && ThreadFree(r'.state.m) && |r.state.m.current.levels| == NUM_LEVELS
            && r'.state.m.pending == r.state.m.pending - r.state.m.job.outputs
            && Installed(r.state.m.current, r'.state.m.current, L, I0, I1, outs)
            && r'.state.disk.saved.version == r'.state.m.current
            && Distilled(r.state.m.current, L, r.state.m.job.snap, MergeFiles(I0 + I1), Flat(outs))
  {
    hide Step, Init, Inv, Distilled, Installed, Installable, Next, EditOk, CompactionEdit, MergeFiles, Flat;
    var r := Last(rs);
    RunInv(rs);
    InstallFacts(r, L, I0, I1, outs);
    var r1, r2 := RecordAndInstall(r, L, I0, I1, outs);
    more := Then(rs, r1);
    more := Then(more, r2);
  }

  lemma {:induction false} InstallFacts(r: Run, L: nat, I0: seq<File>, I1: seq<File>, outs: seq<File>)
    requires Inv(r) && r.state.Up? && r.state.m.job.Working? && L + 1 < NUM_LEVELS
    requires Installable(r.state.m.job, r.state.m.current, L, I0, I1, outs, r.state.disk.tables)
    ensures var m := r.state.m;
            && |m.current.levels| == NUM_LEVELS && EditOk(CompactionEdit(L, I0, I1, outs))
            && Installed(m.current, Next(m.current, CompactionEdit(L, I0, I1, outs)), L, I0, I1, outs)
            && Distilled(m.job.input, L, m.job.snap, MergeFiles(I0 + I1), Flat(outs))
  {
    var disk, m := r.state.disk, r.state.m;
    JobSound(r);
    hide Inv, Distilled, Installed, Produced, FlushesClear, Paired, Valid, Grown, EditOk, Next;
    ProducedIsDistilled(m.job, L, I0, I1, outs, disk.tables);
    JobReadsLike(m.job, m.current, L, I0, I1, outs, disk.tables);
  }

  lemma {:induction false} RecordAndInstall(r: Run, L: nat, I0: seq<File>, I1: seq<File>, outs: seq<File>)
    returns (r1: Run, r2: Run)
    requires r.state.Up? && r.state.m.job.Working? && L + 1 < NUM_LEVELS && |r.state.m.current.levels| == NUM_LEVELS
    requires r.state.m.flush == NoFlush && r.state.m.doomedTables == {} && EditOk(CompactionEdit(L, I0, I1, outs))
    requires Installable(r.state.m.job, r.state.m.current, L, I0, I1, outs, r.state.disk.tables)
    ensures Step(r, r1) && Step(r1, r2) && r2.state.Up? && r2.acked == r.acked && ThreadFree(r2.state.m)
    ensures r2.state.m.pending == r.state.m.pending - r.state.m.job.outputs
    ensures r2.state.m.current == r2.state.disk.saved.version ==
            Next(r.state.m.current, CompactionEdit(L, I0, I1, outs))
  {
    hide Step, Installable, Next, EditOk, CompactionEdit;
    var disk, m := r.state.disk, r.state.m;
    var after := Next(m.current, CompactionEdit(L, I0, I1, outs));
    r1 := r.(state := Up(disk.(saved := Saved(after, disk.saved.logNumber, m.nextFile, m.lastSequence)),
                         m.(job := Installing(after, m.job.outputs))),
             cutoff := Max(r.cutoff, m.job.snap));
    assert JobRecord(r, r1, L, I0, I1, outs);
    JobSteps(r, r1, [], L, I0, I1, outs, NoFile());
    r2 := r1.(state := Up(r1.state.disk, m.(current := after, pending := m.pending - m.job.outputs, job := NoJob)));
    assert JobInstall(r1, r2);
    JobSteps(r1, r2, [], L, I0, I1, outs, NoFile());
  }

  function NoFile(): File
  {
    File(0, 0, InternalKey(0.0, 0, Value), InternalKey(0.0, 0, Value), [])
  }

  /** A lone file with nothing below it to merge with can be moved down. */
  lemma {:induction false} MoveCompletes(rs: seq<Run>, L: nat, f: File) returns (more: seq<Run>)
    requires IsRun(rs) && Last(rs).state.Up? && ThreadFree(Last(rs).state.m) && L + 1 < NUM_LEVELS
    requires Valid(Last(rs).state.m.current) && Paired(Last(rs).state.m.current, L, [f], [])
    ensures rs <= more && IsRun(more)
    ensures var r, r' := Last(rs), Last(more);
            && r'.state.Up? && r'.acked == r.acked && ThreadFree(r'.state.m)
            && Installed(r.state.m.current, r'.state.m.current, L, [f], [], [f])
            && Entries(r'.state.m.current) == Entries(r.state.m.current)
  {
    hide Step, Init, Valid, Paired, Installed, Entries;
    MoveFacts(Last(rs).state.m.current, L, f);
    var r1, r2 := MoveIt(Last(rs), L, f);
    more := Then(rs, r1);
    more := Then(more, r2);
  }

  lemma {:induction false} MoveFacts(v: Version, L: nat, f: File)
    requires Valid(v) && L + 1 < NUM_LEVELS && Paired(v, L, [f], [])
    ensures |v.levels| == NUM_LEVELS && EditOk(CompactionEdit(L, [f], [], [f]))
    ensures var after := Next(v, CompactionEdit(L, [f], [], [f]));
            Installed(v, after, L, [f], [], [f]) && Entries(after) == Entries(v)
  {
    hide Installed, Entries, Next;
    PairedIsGood(v, L, [f], []);
    MovedFileIsOutput(v, L, f);
    EditInstalls(v, L, [f], [], [f]);
    assert f in v.levels[L];
    MoveKeepsEntries(v, Next(v, CompactionEdit(L, [f], [], [f])), L, f);
  }

  lemma {:induction false} MoveIt(r: Run, L: nat, f: File) returns (r1: Run, r2: Run)
    requires r.state.Up? && ThreadFree(r.state.m) && L + 1 < NUM_LEVELS && Valid(r.state.m.current)
    requires |r.state.m.current.levels| == NUM_LEVELS && Paired(r.state.m.current, L, [f], [])
    requires EditOk(CompactionEdit(L, [f], [], [f]))
    ensures Step(r, r1) && Step(r1, r2) && r2.state.Up? && r2.acked == r.acked && ThreadFree(r2.state.m)
    ensures r2.state.m.current == Next(r.state.m.current, CompactionEdit(L, [f], [], [f]))
  {
    hide Step, Valid, Paired, Next, EditOk, CompactionEdit;
    var disk, m := r.state.disk, r.state.m;
    var after := Next(m.current, CompactionEdit(L, [f], [], [f]));
    r1 := r.(state := Up(disk.(saved := Saved(after, disk.saved.logNumber, m.nextFile, m.lastSequence)),
                         m.(job := Installing(after, {}))),
             cutoff := Max(r.cutoff, 0));
    assert JobMove(r, r1, L, f);
    JobSteps(r, r1, [], L, [], [], [], f);
    r2 := r1.(state := Up(r1.state.disk, m.(current := after, pending := m.pending - {}, job := NoJob)));
    assert JobInstall(r1, r2);
    JobSteps(r1, r2, [], L, [], [], [], f);
  }

  // ----- crash and recovery

  lemma {:induction false} RecoverySteps(r: Run, r': Run, files: seq<File>, next: nat)
    requires Crash(r, r') || Recover(r, r', files, next)
    ensures Step(r, r')
  {
    hide Crash, Recover;
    assert RecoveryStep(r, r');
    hide WriterStep, FlushStep, CompactionStep, RemovalStep, ReaderStep, RecoveryStep;
  }

  /** The batches from `k` on as one sorted run. */
  lemma {:induction false} RunExists(h: seq<Batch>, k: nat) returns (mem: seq<Entry>)
    requires Contiguous(h) && k <= |h|
    ensures MemOk(mem, h, k)
    decreases |h|
  {
    if k == |h| {
      mem := [];
      assert h[k..] == [] && Written([]) == {} && SetOf([]) == {};
    } else {
      var n := |h| - 1;
      ContiguousPrefix(h, n);
      var before := RunExists(h[..n], k);
      hide MemOk, InsertOps;
      assert h[..n] + [h[n]] == h && h[n].sequence == End(h[..n]) + 1;
      InsertExtends(before, h[..n], k, h[n]);
      mem := InsertOps(before, h[n], |h[n].ops|);
    }
  }

  lemma {:induction false} AboveLogs(logs: seq<Log>, n: nat, from: nat) returns (next: nat)
    ensures next >= from && LogsMarked(logs, n, next)
  {
    next := from;
    for i := 0 to |logs|
      invariant next >= from && forall j :: 0 <= j < i ==> logs[j].number < next
    {
      if next <= logs[i].number {
        next := logs[i].number + 1;
      }
    }
  }

  lemma {:induction false} ReplayExists(disk: Disk, h: seq<Batch>, k: nat, size: seq<Entry> -> nat)
    returns (files: seq<File>, next: nat)
    requires Contiguous(h) && k <= |h| && Pending(disk.logs, disk.saved.logNumber) == h[k..]
    ensures Replay(disk, files, next)
  {
    hide Replayed, Pending, Contiguous, Written, Sorted, LogsMarked, NumberedFrom, Finish;
    var mem := RunExists(h, k);
    var n := disk.saved.nextFile;
    next := AboveLogs(disk.logs, disk.saved.logNumber, n + 1);
    var g := h[k..];
    assert g[..0] == [] && g[0..] == g;
    EmptyReplay(disk.saved.logNumber, n);
    files := WriteLevel0([], n, size, mem);
    WriteLevel0Replays([], n, n, size, mem, g, 0);
    NumbersReach(files, n, n + 1, next);
  }

  lemma {:induction false} NumbersReach(files: seq<File>, lo: nat, hi: nat, hi': nat)
    requires NumberedFrom(files, lo, hi) && hi <= hi'
    ensures NumberedFrom(files, lo, hi')
  {
  }

  lemma {:induction false} DownFacts(r: Run)
    requires Inv(r) && r.state.Down?
    ensures Contiguous(r.acked) && DiskOk(r.state.disk, r.acked, r.durable, r.cutoff) && r.durable <= |r.acked|
    ensures Pending(r.state.disk.logs, r.state.disk.saved.logNumber) == r.acked[r.durable..]
  {
    hide Contiguous, Mirrors, Pending, OnDisk, NumbersBelow, End, Ascending;
  }

  /** A database that is down can be opened, and everything acknowledged is there. */
  lemma {:induction false} OpenCompletes(rs: seq<Run>, size: seq<Entry> -> nat) returns (more: seq<Run>)
    requires IsRun(rs) && Last(rs).state.Down?
    ensures rs <= more && IsRun(more) && Last(more).state.Up? && Last(more).acked == Last(rs).acked
    ensures Last(more).state.m.writer == Idle && ThreadFree(Last(more).state.m) && Last(more).state.m.imm.None?
  {
    hide Step, Init, Inv;
    var r := Last(rs);
    RunInv(rs);
    var r1 := OpenIt(r, size);
    more := Then(rs, r1);
  }

  lemma {:induction false} OpenIt(r: Run, size: seq<Entry> -> nat) returns (r1: Run)
    requires Inv(r) && r.state.Down?
    ensures Step(r, r1) && r1.state.Up? && r1.acked == r.acked && r1.state.m.writer == Idle
    ensures ThreadFree(r1.state.m) && r1.state.m.imm.None?
  {
    DownFacts(r);
    hide Step, Inv, Contiguous, DiskOk, Replay, Pending, EditOk, Next, WithTables, MaxSequence;
    var files, next := ReplayExists(r.state.disk, r.acked, r.durable, size);
    RecoveredVersion(r.state.disk, r.acked, r.durable, r.cutoff, files, next);
    var n := |r.acked|;
    r1 := Run(Opened(r.state.disk, files, next), r.acked, n, n, n, r.cutoff);
    assert Recover(r, r1, files, next);
    RecoverySteps(r, r1, files, next);
  }

  /** A crash can happen at any moment; opening brings back what was acknowledged, and at most the group being
      written on top. */
  lemma {:induction false} CrashAndOpen(rs: seq<Run>, size: seq<Entry> -> nat) returns (more: seq<Run>)
    requires IsRun(rs) && Last(rs).state.Up?
    ensures rs <= more && IsRun(more) && Last(more).state.Up? && Last(more).acked == LoggedHistory(Last(rs))
  {
    hide Step, Init;
    var r := Last(rs);
    var r1 := r.(state := Down(r.state.disk), acked := LoggedHistory(r));
    assert Crash(r, r1);
    RecoverySteps(r, r1, [], 0);
    more := Then(rs, r1);
    more := OpenCompletes(more, size);
  }

  // ----- readers

  lemma {:induction false} ReaderSteps(r: Run, r': Run, v: Version, i: nat)
    requires Pin(r, r') || Unpin(r, r', v) || TakeSnapshot(r, r') || ReleaseSnapshot(r, r', i)
    ensures Step(r, r')
  {
    hide Pin, Unpin, TakeSnapshot, ReleaseSnapshot;
    assert ReaderStep(r, r');
    hide WriterStep, FlushStep, CompactionStep, RemovalStep, ReaderStep, RecoveryStep;
  }

  /** A snapshot can be taken at any moment and is then held. */
  lemma {:induction false} SnapshotTaken(rs: seq<Run>) returns (more: seq<Run>)
    requires IsRun(rs) && Last(rs).state.Up?
    ensures rs <= more && IsRun(more) && Last(more).state.Up? && Last(more).acked == Last(rs).acked
    ensures Last(more).state.m.snapshots == Last(rs).state.m.snapshots + [Last(rs).state.m.lastSequence]
  {
    hide Step, Init;
    var r := Last(rs);
    var r1 := r.(state := Up(r.state.disk, r.state.m.(snapshots := r.state.m.snapshots + [r.state.m.lastSequence])));
    ReaderSteps(r, r1, r.state.m.current, 0);
    more := Then(rs, r1);
  }

  /** So can the current version be pinned: its files stay until it is let go. */
  lemma {:induction false} VersionPinned(rs: seq<Run>) returns (more: seq<Run>)
    requires IsRun(rs) && Last(rs).state.Up?
    ensures rs <= more && IsRun(more) && Last(more).state.Up? && Last(more).acked == Last(rs).acked
    ensures Last(more).state.m.pinned == Last(rs).state.m.pinned + {Last(rs).state.m.current}
  {
    hide Step, Init;
    var r := Last(rs);
    var r1 := r.(state := Up(r.state.disk, r.state.m.(pinned := r.state.m.pinned + {r.state.m.current})));
    ReaderSteps(r, r1, r.state.m.current, 0);
    more := Then(rs, r1);
  }

  /** Letting go of a snapshot or a version, and giving up a compaction. */
  lemma {:induction false} LetGo(rs: seq<Run>, v: Version, i: nat) returns (a: seq<Run>, b: seq<Run>, c: seq<Run>)
    requires IsRun(rs) && Last(rs).state.Up?
    ensures rs <= a && IsRun(a) && Last(a).state.Up? && Last(a).state.m.pinned == Last(rs).state.m.pinned - {v}
    ensures i < |Last(rs).state.m.snapshots| ==>
              && rs <= b && IsRun(b) && Last(b).state.Up?
              && Last(b).state.m.snapshots == Last(rs).state.m.snapshots[..i] + Last(rs).state.m.snapshots[i + 1..]
    ensures Last(rs).state.m.job.Working? && Last(rs).state.m.flush == NoFlush ==>
              && rs <= c && IsRun(c) && Last(c).state.Up? && Last(c).state.m.job == NoJob
              && Last(c).state.m.pending == Last(rs).state.m.pending - Last(rs).state.m.job.outputs
  {
    hide Step, Init;
    var r := Last(rs);
    var disk, m := r.state.disk, r.state.m;
    var r1 := r.(state := Up(disk, m.(pinned := m.pinned - {v})));
    assert Unpin(r, r1, v);
    ReaderSteps(r, r1, v, 0);
    a := Then(rs, r1);
    b, c := rs, rs;
    if i < |m.snapshots| {
      var r2 := r.(state := Up(disk, m.(snapshots := m.snapshots[..i] + m.snapshots[i + 1..])));
      assert ReleaseSnapshot(r, r2, i);
      ReaderSteps(r, r2, v, i);
      b := Then(rs, r2);
    }
    if m.job.Working? && m.flush == NoFlush {
      var r3 := r.(state := Up(disk, m.(pending := m.pending - m.job.outputs, job := NoJob)));
      assert JobAbandon(r, r3);
      JobSteps(r, r3, [], 0, [], [], [], NoFile());
      c := Then(rs, r3);
    }
  }
}
