/** Removing files nobody needs: which files of the directory are chosen, and that removing the chosen ones
    leaves exactly those in use. */
module Removal {
  import opened Ordering
  import opened Levels
  import opened History
  import opened Durability
  import opened Background
  import opened Runs

  // ----- choosing

  datatype FileType = LogFile | DescriptorFile | TableFile | TempFile | CurrentFile | DbLockFile | InfoLogFile

  datatype Name = Name(kind: FileType, number: nat)

  /** Some version has the table, or someone is writing it. */
  ghost predicate InUse(versions: set<Version>, pending: set<nat>, n: nat)
  {
    n in pending || exists v :: v in versions && Uses(v, n)
  }

  ghost function VersionSet(versions: seq<Version>): set<Version>
  {
    set v | v in versions
  }

  /** `VersionSet::AddLiveFiles`, over every level of every version in the list. */
  method AddLiveFiles(versions: seq<Version>, pending: set<nat>) returns (live: set<nat>)
    ensures forall n :: n in live <==> InUse(VersionSet(versions), pending, n)
  {
    live := pending;
    for i := 0 to |versions|
      invariant forall n :: n in live <==> InUse(VersionSet(versions[..i]), pending, n)
    {
      ghost var before := live;
      var v := versions[i];
      for l := 0 to |v.levels|
        invariant forall n :: n in live <==> n in before || UsesAbove(v, l, n)
      {
        var files := v.levels[l];
        ghost var shallower := live;
        for k := 0 to |files|
          invariant forall n :: n in live <==> n in shallower || HasNumber(files[..k], n)
        {
          assert files[..k + 1] == files[..k] + [files[k]];
          live := live + {files[k].number};
        }
        assert files[..|files|] == files;
      }
      forall n ensures n in live <==> InUse(VersionSet(versions[..i + 1]), pending, n) {
        assert UsesAbove(v, |v.levels|, n) <==> Uses(v, n);
        OneMoreVersion(versions, i, pending, n);
      }
    }
    assert versions[..|versions|] == versions;
  }

  ghost predicate HasNumber(files: seq<File>, n: nat)
  {
    exists f :: f in files && f.number == n
  }

  ghost predicate UsesAbove(v: Version, l: nat, n: nat)
    requires l <= |v.levels|
  {
    exists k :: 0 <= k < l && HasNumber(v.levels[k], n)
  }

  lemma {:induction false} OneMoreVersion(versions: seq<Version>, i: nat, pending: set<nat>, n: nat)
    requires i < |versions|
    ensures InUse(VersionSet(versions[..i + 1]), pending, n) <==>
            InUse(VersionSet(versions[..i]), pending, n) || Uses(versions[i], n)
  {
    hide Uses;
    assert versions[..i + 1] == versions[..i] + [versions[i]];
    assert VersionSet(versions[..i + 1]) == VersionSet(versions[..i]) + {versions[i]};
  }

  /** The files that go: tables and temporary files not in use, logs before the first one recovery needs, and old
      MANIFESTs. */
  ghost predicate Goes(f: Name, versions: set<Version>, pending: set<nat>, logNumber: nat, prevLogNumber: nat,
                       manifestNumber: nat)
  {
    match f.kind
    case LogFile => f.number < logNumber && f.number != prevLogNumber
    case DescriptorFile => f.number < manifestNumber
    case TableFile => !InUse(versions, pending, f.number)
    case TempFile => !InUse(versions, pending, f.number)
    case _ => false
  }

  /** The first half of `DBImpl::RemoveObsoleteFiles`, on the names that parse. */
  method ObsoleteFiles(names: seq<Name>, versions: seq<Version>, pending: set<nat>, logNumber: nat, prevLogNumber: nat,
                       manifestNumber: nat)
    returns (doomed: seq<Name>)
    ensures forall f :: f in doomed <==>
              f in names && Goes(f, VersionSet(versions), pending, logNumber, prevLogNumber, manifestNumber)
  {
    hide InUse;
    var live := AddLiveFiles(versions, pending);
    doomed := [];
    for i := 0 to |names|
      invariant forall f :: f in doomed <==>
                  f in names[..i] && Goes(f, VersionSet(versions), pending, logNumber, prevLogNumber, manifestNumber)
    {
      var f := names[i];
      var keep := true;
      match f.kind {
        case LogFile => keep := f.number >= logNumber || f.number == prevLogNumber;
        case DescriptorFile => keep := f.number >= manifestNumber;
        case TableFile => keep := f.number in live;
        case TempFile => keep := f.number in live;
        case CurrentFile =>
        case DbLockFile =>
        case InfoLogFile =>
      }
      assert names[..i + 1] == names[..i] + [f];
      if !keep {
        doomed := doomed + [f];
      }
    }
    assert names[..|names|] == names;
  }

  /** The directory listing of a state. */
  ghost predicate Lists(names: seq<Name>, disk: Disk)
  {
    && (forall n :: Name(TableFile, n) in names <==> n in disk.tables)
    && (forall n :: Name(LogFile, n) in names <==> exists log :: log in disk.logs && log.number == n)
  }

  /** Choosing files from the listing is the step that dooms them. */
  lemma {:induction false} ChoosingIsSweep(r: Run, names: seq<Name>, versions: seq<Version>, prevLogNumber: nat,
                                           manifestNumber: nat, doomed: seq<Name>)
    requires r.state.Up? && r.state.m.flush == NoFlush && !r.state.m.job.Installing?
    requires Lists(names, r.state.disk) && VersionSet(versions) == Live(r.state.disk, r.state.m)
    requires forall log :: log in r.state.disk.logs ==> log.number != prevLogNumber
    requires forall f :: f in doomed <==> f in names && Goes(f, VersionSet(versions), r.state.m.pending,
                                                             r.state.disk.saved.logNumber, prevLogNumber,
                                                                 manifestNumber)
    ensures var tables, logs := Numbers(doomed, TableFile), Numbers(doomed, LogFile);
            Sweep(r, r.(state := Up(r.state.disk, r.state.m.(doomedTables := tables, doomedLogs := logs))))
  {
    hide Uses;
    var disk, m := r.state.disk, r.state.m;
    var tables, logs := Numbers(doomed, TableFile), Numbers(doomed, LogFile);
    forall n ensures n in tables <==> n in ObsoleteTables(disk, m) {
      assert n in tables <==> Name(TableFile, n) in doomed;
    }
    forall n ensures n in logs <==> n in ObsoleteLogs(disk) {
      assert n in logs <==> Name(LogFile, n) in doomed;
    }
    assert tables == ObsoleteTables(disk, m) && logs == ObsoleteLogs(disk);
  }

  ghost function Numbers(names: seq<Name>, kind: FileType): set<nat>
  {
    set f | f in names && f.kind == kind :: f.number
  }

  // ----- removing

  /** The table belongs to a version that someone refers to, or someone is writing it. */
  ghost predicate Needed(r: Run, n: nat)
    requires r.state.Up?
  {
    n in r.state.m.pending || exists v :: RefersTo(r, v) && Uses(v, n)
  }

  lemma {:induction false} InUseIsNeeded(r: Run, n: nat)
    requires r.state.Up?
    ensures InUse(Live(r.state.disk, r.state.m), r.state.m.pending, n) <==> Needed(r, n)
  {
    hide Uses;
    assert forall v :: v in Live(r.state.disk, r.state.m) <==> RefersTo(r, v);
  }

  /** After the choice, a table that stays is needed and so is a log that stays. */
  lemma {:induction false} SweepMissesNothing(r: Run, r': Run)
    requires Sweep(r, r')
    ensures var disk, m := r.state.disk, r.state.m;
            && (forall n :: n in disk.tables && n !in r'.state.m.doomedTables ==> Needed(r, n))
            && (forall log :: log in disk.logs && log.number !in r'.state.m.doomedLogs ==>
                  log.number >= disk.saved.logNumber)
  {
    hide Uses;
    forall n | n in r.state.disk.tables && n !in r'.state.m.doomedTables ensures Needed(r, n) { InUseIsNeeded(r, n); }
  }

  ghost predicate Removes(r: Run, r': Run)
  {
    (exists n :: RemoveTable(r, r', n)) || (exists n :: RemoveLog(r, r', n))
  }

  /** Between the sweep of `a` and the end of the removals. */
  ghost predicate Halfway(a: Run, b: Run)
    requires a.state.Up?
  {
    && b.state.Up?
    && var disk, m, disk', m' := a.state.disk, a.state.m, b.state.disk, b.state.m;
       && b == a.(state := Up(Disk(disk'.tables, disk'.logs, disk.saved),
                              m.(doomedTables := m'.doomedTables, doomedLogs := m'.doomedLogs)))
       && m'.doomedTables <= ObsoleteTables(disk, m) && m'.doomedLogs <= ObsoleteLogs(disk)
       && (forall n :: n in disk'.tables <==>
             n in disk.tables && (n in ObsoleteTables(disk, m) ==> n in m'.doomedTables))
       && (forall n :: n in disk'.tables ==> disk'.tables[n] == disk.tables[n])
       && (forall log :: log in disk'.logs <==>
             log in disk.logs && (log.number in ObsoleteLogs(disk) ==> log.number in m'.doomedLogs))
  }

  lemma {:induction false} WithoutLogMembers(logs: seq<Log>, n: nat, log: Log)
    ensures log in WithoutLog(logs, n) <==> log in logs && log.number != n
  {
    if logs != [] {
      var j := |logs| - 1;
      WithoutLogMembers(logs[..j], n, log);
      assert logs == logs[..j] + [logs[j]];
    }
  }

  lemma {:induction false} RemovalAdvances(a: Run, b: Run, c: Run)
    requires a.state.Up? && Halfway(a, b) && Removes(b, c)
    ensures Halfway(a, c)
  {
    hide ObsoleteTables, ObsoleteLogs, WithoutLog;
    if n: nat :| RemoveTable(b, c, n) {
    } else {
      var n: nat :| RemoveLog(b, c, n);
      forall log ensures log in c.state.disk.logs <==> log in b.state.disk.logs && log.number != n {
        WithoutLogMembers(b.state.disk.logs, n, log);
      }
    }
  }

  /** All chosen files removed, with nothing else in between. */
  ghost predicate Swept(rs: seq<Run>, i: nat, j: nat)
  {
    && i < j < |rs| && Sweep(rs[i], rs[i + 1]) && (forall k :: i < k < j ==> Removes(rs[k], rs[k + 1]))
    && rs[j].state.Up? && rs[j].state.m.doomedTables == {} && rs[j].state.m.doomedLogs == {}
  }

  lemma {:induction false} SweptHalfway(rs: seq<Run>, i: nat, j: nat)
    requires i < j < |rs| && Sweep(rs[i], rs[i + 1]) && forall k :: i < k < j ==> Removes(rs[k], rs[k + 1])
    ensures Halfway(rs[i], rs[j])
    decreases j
  {
    if i + 1 < j {
      hide Sweep, Removes, Halfway;
      assert Removes(rs[j - 1], rs[j - 1 + 1]);
      SweptHalfway(rs, i, j - 1);
      assert rs[i].state.Up? by { SweepIsUp(rs[i], rs[i + 1]); }
      RemovalAdvances(rs[i], rs[j - 1], rs[j]);
    }
  }

  lemma {:induction false} SweepIsUp(r: Run, r': Run)
    requires Sweep(r, r')
    ensures r.state.Up?
  {
  }

  /** Then the tables on disk are exactly those of before that are in use, the logs exactly those that recovery
      needs, all with their contents; nothing else has changed. */
  lemma {:induction false} SweptIsClean(rs: seq<Run>, i: nat, j: nat)
    requires Swept(rs, i, j)
    ensures rs[i].state.Up? && rs[j].acked == rs[i].acked
    ensures var disk, disk', m' := rs[i].state.disk, rs[j].state.disk, rs[j].state.m;
            && (forall n :: n in disk'.tables <==> n in disk.tables && Needed(rs[j], n))
            && (forall n :: n in disk'.tables ==> disk'.tables[n] == disk.tables[n])
            && (forall log :: log in disk'.logs <==> log in disk.logs && log.number >= disk'.saved.logNumber)
            && disk'.saved == disk.saved
            && m' == rs[i].state.m.(doomedTables := {}, doomedLogs := {})
  {
    SweptHalfway(rs, i, j);
    hide Uses;
    var disk, m := rs[i].state.disk, rs[i].state.m;
    assert Live(rs[j].state.disk, rs[j].state.m) == Live(disk, m);
    forall n ensures n in ObsoleteTables(disk, m) <==> n in disk.tables && !InUse(Live(disk, m), m.pending, n) {}
    forall n ensures InUse(Live(disk, m), m.pending, n) <==> Needed(rs[j], n) { InUseIsNeeded(rs[j], n); }
    forall log | log in disk.logs ensures log.number in ObsoleteLogs(disk) <==> log.number < disk.saved.logNumber {}
  }

  /** The removals can always be carried through. */
  lemma {:induction false} RemoveAll(r: Run) returns (rs: seq<Run>)
    requires r.state.Up?
    ensures |rs| > 0 && rs[0] == r && forall k :: 0 <= k < |rs| - 1 ==> Removes(rs[k], rs[k + 1])
    ensures var last := rs[|rs| - 1].state; last.Up? && last.m.doomedTables == {} && last.m.doomedLogs == {}
    decreases |r.state.m.doomedTables| + |r.state.m.doomedLogs|
  {
    var disk, m := r.state.disk, r.state.m;
    if m.doomedTables != {} {
      var n :| n in m.doomedTables;
      var r' := r.(state := Up(disk.(tables := disk.tables - {n}), m.(doomedTables := m.doomedTables - {n})));
      assert RemoveTable(r, r', n);
      rs := Prepended(r, r');
    } else if m.doomedLogs != {} {
      var n :| n in m.doomedLogs;
      var r' := r.(state := Up(disk.(logs := WithoutLog(disk.logs, n)), m.(doomedLogs := m.doomedLogs - {n})));
      assert RemoveLog(r, r', n);
      rs := Prepended(r, r');
    } else {
      rs := [r];
    }
  }

  lemma {:induction false} Prepended(r: Run, r': Run) returns (rs: seq<Run>)
    requires r.state.Up? && r'.state.Up? && Removes(r, r')
    requires |r'.state.m.doomedTables| + |r'.state.m.doomedLogs| < |r.state.m.doomedTables| + |r.state.m.doomedLogs|
    ensures |rs| > 0 && rs[0] == r && forall k :: 0 <= k < |rs| - 1 ==> Removes(rs[k], rs[k + 1])
    ensures var last := rs[|rs| - 1].state; last.Up? && last.m.doomedTables == {} && last.m.doomedLogs == {}
    decreases |r.state.m.doomedTables| + |r.state.m.doomedLogs|, 0
  {
    hide Removes;
    var rest := RemoveAll(r');
    rs := [r] + rest;
    forall k | 0 <= k < |rs| - 1 ensures Removes(rs[k], rs[k + 1]) {
      assert k > 0 ==> rs[k] == rest[k - 1] && rs[k + 1] == rest[k - 1 + 1];
    }
  }

  /** From every reachable state with no edit under way the database can be swept clean. */
  lemma {:induction false} CleanUp(rs: seq<Run>) returns (more: seq<Run>)
    requires IsRun(rs) && rs[|rs| - 1].state.Up?
    requires rs[|rs| - 1].state.m.flush == NoFlush && !rs[|rs| - 1].state.m.job.Installing?
    ensures rs <= more && IsRun(more) && Swept(more, |rs| - 1, |more| - 1)
  {
    var r := rs[|rs| - 1];
    var disk, m := r.state.disk, r.state.m;
    var swept := r.(state := Up(disk, m.(doomedTables := ObsoleteTables(disk, m), doomedLogs := ObsoleteLogs(disk))));
    assert Sweep(r, swept);
    var rest := RemoveAll(swept);
    more := rs + rest;
    Continued(rs, rest);
  }

  lemma {:induction false} Continued(rs: seq<Run>, rest: seq<Run>)
    requires IsRun(rs) && |rest| > 0 && Sweep(rs[|rs| - 1], rest[0])
    requires forall k :: 0 <= k < |rest| - 1 ==> Removes(rest[k], rest[k + 1])
    ensures IsRun(rs + rest)
    ensures (forall k :: |rs| <= k < |rs + rest| - 1 ==> Removes((rs + rest)[k], (rs + rest)[k + 1]))
  {
    hide Step, Init, Removes, Sweep;
    var more, n := rs + rest, |rs|;
    forall k | n <= k < |more| - 1 ensures Removes(more[k], more[k + 1]) {
      assert more[k] == rest[k - n] && more[k + 1] == rest[k - n + 1];
    }
    forall k | 0 <= k < |more| - 1 ensures Step(more[k], more[k + 1]) {
      if k < n - 1 {
        assert Step(rs[k], rs[k + 1]);
      } else {
        RemovalIsStep(more[k], more[k + 1]);
      }
    }
  }

  lemma {:induction false} RemovalIsStep(r: Run, r': Run)
    requires Sweep(r, r') || Removes(r, r')
    ensures Step(r, r')
  {
    hide Sweep, RemoveTable, RemoveLog, WriterStep, FlushStep, CompactionStep, ReaderStep, RecoveryStep;
    assert RemovalStep(r, r');
  }
}
