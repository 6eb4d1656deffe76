/** Crashes and recovery: the live logs are replayed into level-0 tables, and one edit
    records those tables together with a fresh log. */
module Recovery {
  import opened Ordering
  import opened Levels
  import opened VersionBuilder
  import opened Install
  import opened Flush
  import opened CompactionWork
  import opened History
  import opened Durability
  import opened Background
  import opened Wrappers

  // ----- replaying logs

  /** The tables hold, one after the other, consecutive runs of the batches. */
  ghost predicate Replayed(files: seq<File>, g: seq<Batch>)
  {
    if files == [] then Written(g) == {}
    else
      var f := files[|files| - 1];
      && WellFormed(f)
      && exists k :: 0 <= k <= |g| && Contents(f) == Written(g[k..]) && Replayed(files[..|files| - 1], g[..k])
  }

  /** Numbers are handed out in ascending order from `lo` up to `hi`. */
  ghost predicate NumberedFrom(files: seq<File>, lo: nat, hi: nat)
  {
    && lo <= hi
    && (forall i :: 0 <= i < |files| ==> lo <= files[i].number < hi)
    && (forall i, j :: 0 <= i < j < |files| ==> files[i].number < files[j].number)
  }

  lemma {:induction false} ReplayedMore(files: seq<File>, g: seq<Batch>, e: seq<Batch>)
    requires Replayed(files, g) && Written(e) == {}
    ensures Replayed(files, g + e)
  {
    WrittenConcat(g, e);
    if files != [] {
      var f := files[|files| - 1];
      var k :| 0 <= k <= |g| && Contents(f) == Written(g[k..]) && Replayed(files[..|files| - 1], g[..k]);
      assert (g + e)[k..] == g[k..] + e && (g + e)[..k] == g[..k];
      WrittenConcat(g[k..], e);
    }
  }

  lemma {:induction false} ReplayedFile(files: seq<File>, g: seq<Batch>, k: nat, f: File)
    requires k <= |g| && Replayed(files, g[..k]) && WellFormed(f) && Contents(f) == Written(g[k..])
    ensures Replayed(files + [f], g)
  {
    assert (files + [f])[..|files|] == files;
  }

  /** The largest sequence number of the batches, as recovery computes it. */
  function MaxSequence(g: seq<Batch>): nat
  {
    if g == [] then 0
    else
      var b := g[|g| - 1];
      Max(MaxSequence(g[..|g| - 1]), if b.sequence + |b.ops| > 0 then b.sequence + |b.ops| - 1 else 0)
  }

  /** The counter ends where the history ends. */
  lemma {:induction false} MaxSequenceIsEnd(h: seq<Batch>, k: nat)
    requires Contiguous(h) && k <= |h|
    ensures MaxSequence(h[k..]) == if k < |h| then End(h) else 0
    decreases |h|
  {
    if k < |h| {
      var j := |h| - 1;
      ContiguousPrefix(h, j);
      MaxSequenceIsEnd(h[..j], k);
      assert h[k..][..|h[k..]| - 1] == h[..j][k..];
      assert h[k..][|h[k..]| - 1] == h[j];
    }
  }

  // ----- the version that recovery installs

  /** Level-0 tables added one at a time. */
  ghost function Stack(v: Version, files: seq<File>): (r: Version)
    requires |v.levels| == NUM_LEVELS
    ensures |r.levels| == NUM_LEVELS
  {
    if files == [] then v
    else Next(Stack(v, files[..|files| - 1]), Edit({}, [(0, files[|files| - 1])]))
  }

  /** `r` is `v` with these files at level 0. */
  ghost predicate Gains(v: Version, r: Version, files: seq<File>)
    requires |v.levels| == NUM_LEVELS
  {
    LevelsOrdered(r) && forall l, g :: 0 <= l < NUM_LEVELS ==> (g in r.levels[l] <==> InGain(v, files, l, g))
  }

  ghost predicate InGain(v: Version, files: seq<File>, l: nat, g: File)
    requires l < |v.levels|
  {
    g in v.levels[l] || (l == 0 && g in files)
  }

  lemma {:induction false} GainsBelow(v: Version, r: Version, files: seq<File>, lo: nat, n: nat)
    requires |v.levels| == NUM_LEVELS && Gains(v, r, files) && NumbersBelow(v, lo) && lo <= n
    requires forall g :: g in files ==> g.number < n
    ensures NumbersBelow(r, n)
  {
    forall l, g | 0 <= l < |r.levels| && g in r.levels[l] ensures g.number < n {
      assert InGain(v, files, l, g);
    }
  }

  lemma {:induction false} GainsOne(v: Version, r: Version, files: seq<File>, f: File)
    requires |v.levels| == NUM_LEVELS && Gains(v, r, files) && Shaped(r) && Flushable(r, 0, f)
    ensures Gains(v, Next(r, Edit({}, [(0, f)])), files + [f])
  {
    hide Shaped, Flushable;
    FlushEdit(r, 0, f);
    var after := Next(r, Edit({}, [(0, f)]));
    forall l, g | 0 <= l < NUM_LEVELS
      ensures g in after.levels[l] <==> InGain(v, files + [f], l, g)
    {
      assert g in r.levels[l] <==> InGain(v, files, l, g);
      assert g in after.levels[l] <==> g in r.levels[l] || (l == 0 && g == f);
    }
  }

  lemma {:induction false} LastRun(files: seq<File>, h: seq<Batch>, k: nat) returns (x: nat)
    requires files != [] && k <= |h| && Replayed(files, h[k..])
    ensures k <= x <= |h| && WellFormed(files[|files| - 1]) && Contents(files[|files| - 1]) == Written(h[x..])
    ensures h[..x][k..] == h[k..x] && h[..x][..k] == h[..k] && Replayed(files[..|files| - 1], h[..x][k..])
  {
    var f, g := files[|files| - 1], h[k..];
    var y :| 0 <= y <= |g| && Contents(f) == Written(g[y..]) && Replayed(files[..|files| - 1], g[..y]);
    x := k + y;
    assert h[..x][k..] == g[..y] && h[x..] == g[y..];
  }

  lemma {:induction false} StackNone(v: Version, h: seq<Batch>, k: nat, cutoff: nat)
    requires Contiguous(h) && k <= |h| && Mirrors(v, h[..k], cutoff) && Replayed([], h[k..])
    ensures Mirrors(v, h, cutoff) && |v.levels| == NUM_LEVELS && Gains(v, v, [])
  {
    MirrorExtends(v, v, h, k, {}, cutoff);
  }

  /** Stacking the replayed tables carries the saved version over the whole history. */
  lemma {:induction false} StackMirrors(v: Version, files: seq<File>, h: seq<Batch>, k: nat, lo: nat, hi: nat,
                                        cutoff: nat)
    requires Contiguous(h) && k <= |h| && Mirrors(v, h[..k], cutoff) && NumbersBelow(v, lo)
    requires Replayed(files, h[k..]) && NumberedFrom(files, lo, hi)
    ensures |v.levels| == NUM_LEVELS && Mirrors(Stack(v, files), h, cutoff) && Gains(v, Stack(v, files), files)
    decreases |files|
  {
    hide Replayed, Mirrors, NumbersBelow, Contiguous, Written, Valid, WellFormed, Flushable, Gains, Next, Shaped;
    MirrorIsValid(v, h[..k], cutoff);
    if files == [] {
      StackNone(v, h, k, cutoff);
    } else {
      var n := |files| - 1;
      var f, rest := files[n], files[..n];
      var x := LastRun(files, h, k);
      ContiguousPrefix(h, x);
      StackMirrors(v, rest, h[..x], k, lo, hi, cutoff);
      var w := Stack(v, rest);
      GainsBelow(v, w, rest, lo, f.number);
      StackFile(w, h, x, f, cutoff);
      GainsOne(v, w, rest, f);
      assert rest + [f] == files;
    }
  }

  lemma {:induction false} StackFile(w: Version, h: seq<Batch>, k: nat, f: File, cutoff: nat)
    requires Contiguous(h) && k <= |h| && Mirrors(w, h[..k], cutoff) && NumbersBelow(w, f.number)
    requires WellFormed(f) && Contents(f) == Written(h[k..])
    ensures Shaped(w) && Flushable(w, 0, f) && Mirrors(Next(w, Edit({}, [(0, f)])), h, cutoff)
  {
    MirrorIsValid(w, h[..k], cutoff);
    hide Mirrors, NumbersBelow, Contiguous, Written, WellFormed, Flushable;
    MemtableFlushable(w, h, k, 0, f, cutoff);
    FlushKeepsValid(w, 0, f);
    MirrorExtends(w, Next(w, Edit({}, [(0, f)])), h, k, Contents(f), cutoff);
  }

  /** One edit with all the tables gives the same version. */
  lemma {:induction false} AllAtOnce(v: Version, r: Version, files: seq<File>, lo: nat, hi: nat)
    requires LevelsOrdered(v) && Gains(v, r, files) && NumbersBelow(v, lo) && NumberedFrom(files, lo, hi)
    ensures Applicable(v, Edit({}, Additions(0, files))) && Next(v, Edit({}, Additions(0, files))) == r
  {
    var edit := Edit({}, Additions(0, files));
    NextEffect(v, edit);
    var after := Next(v, edit);
    forall l | 0 <= l < NUM_LEVELS
      ensures after.levels[l] == r.levels[l]
    {
      forall f ensures f in after.levels[l] <==> f in r.levels[l] {
        assert f in after.levels[l] <==> InNext(f, v, edit, l);
        assert f in r.levels[l] <==> InGain(v, files, l, f);
        AddedOutputs(0, files, l, f);
      }
      OrderedUnique(after.levels[l], r.levels[l]);
    }
    assert after.levels == r.levels;
  }

  // ----- reading the logs

  /** `WriteLevel0Table` without a base version: a table at level 0, or none if there is
      nothing to write. */
  function WriteLevel0(files: seq<File>, next: nat, size: seq<Entry> -> nat, es: seq<Entry>): seq<File>
  {
    if es == [] then files else files + [Finish(next, size, es)]
  }

  lemma {:induction false} WriteLevel0Replays(files: seq<File>, lo: nat, next: nat, size: seq<Entry> -> nat,
                                              es: seq<Entry>, g: seq<Batch>, c: nat)
    requires c <= |g| && Replayed(files, g[..c]) && NumberedFrom(files, lo, next)
    requires Sorted(es) && SetOf(es) == Written(g[c..])
    ensures Replayed(WriteLevel0(files, next, size, es), g)
    ensures NumberedFrom(WriteLevel0(files, next, size, es), lo, next + 1)
  {
    if es == [] {
      ReplayedMore(files, g[..c], g[c..]);
      assert g[..c] + g[c..] == g;
    } else {
      ReplayedFile(files, g, c, Finish(next, size, es));
    }
  }

  /** The memtable being filled, if any, holds the batches since the last table. */
  ghost predicate Filling(mem: Option<seq<Entry>>, g: seq<Batch>, c: nat)
  {
    && c <= |g|
    && (mem.None? ==> c == |g|)
    && (mem.Some? ==> Sorted(mem.value) && SetOf(mem.value) == Written(g[c..]))
  }

  /** Reading one more batch of the history into the memtable. */
  lemma {:induction false} FillOne(mem: Option<seq<Entry>>, h: seq<Batch>, k: nat, d: nat, c: nat)
    requires Contiguous(h) && k <= d < |h| && Filling(mem, h[k..d], c)
    ensures Filling(Some(InsertOps(mem.GetOr([]), h[d], |h[d].ops|)), h[k..d + 1], c)
  {
    var g := h[..d];
    assert h[d].sequence == End(g) + 1;
    FillingIsMem(mem, h, k, d, c);
    hide Contiguous, MemOk, InsertOps, End;
    ContiguousPrefix(h, d);
    InsertExtends(mem.GetOr([]), g, k + c, h[d]);
    FilledIsMem(InsertOps(mem.GetOr([]), h[d], |h[d].ops|), h, k, d, c);
  }

  lemma {:induction false} FillingIsMem(mem: Option<seq<Entry>>, h: seq<Batch>, k: nat, d: nat, c: nat)
    requires k <= d < |h| && Filling(mem, h[k..d], c)
    ensures MemOk(mem.GetOr([]), h[..d], k + c)
  {
    assert h[..d][k + c..] == h[k..d][c..];
    assert Written([]) == {} && SetOf([]) == {};
  }

  lemma {:induction false} FilledIsMem(es: seq<Entry>, h: seq<Batch>, k: nat, d: nat, c: nat)
    requires k <= d < |h| && c <= d - k && MemOk(es, h[..d] + [h[d]], k + c)
    ensures Filling(Some(es), h[k..d + 1], c)
  {
    assert (h[..d] + [h[d]])[k + c..] == h[k..d + 1][c..];
  }

  lemma {:induction false} MaxSequenceSnoc(g: seq<Batch>, b: Batch)
    ensures MaxSequence(g + [b]) ==
            Max(MaxSequence(g), if b.sequence + |b.ops| > 0 then b.sequence + |b.ops| - 1 else 0)
  {
    assert (g + [b])[..|g|] == g;
  }

  /** The last batch put into this memtable found it empty or not yet full. */
  ghost predicate FilledByOne(full: seq<Entry> -> bool, es: seq<Entry>)
  {
    exists before, b :: InsertGives(before, b, es) && (before == [] || !full(before))
  }

  ghost predicate InsertGives(before: seq<Entry>, b: Batch, es: seq<Entry>)
  {
    es == InsertOps(before, b, |b.ops|)
  }

  /** All tables so far were written because the memtable was full. */
  ghost predicate AllFull(full: seq<Entry> -> bool, edit: seq<File>, files: seq<File>)
  {
    edit <= files && forall k :: |edit| <= k < |files| ==> FilledByOne(full, files[k].entries) && full(files[k].entries)
  }

  lemma {:induction false} OneMoreTable(full: seq<Entry> -> bool, edit: seq<File>, files: seq<File>, next: nat,
                                        size: seq<Entry> -> nat, es: seq<Entry>)
    requires AllFull(full, edit, files) && FilledByOne(full, es)
    ensures CutWhenFull(full, edit, WriteLevel0(files, next, size, es))
    ensures full(es) ==> AllFull(full, edit, WriteLevel0(files, next, size, es))
  {
    hide FilledByOne;
  }

  /** Tables written as soon as the memtable was full; only the last may be written because the log ended. */
  ghost predicate CutWhenFull(full: seq<Entry> -> bool, edit: seq<File>, files: seq<File>)
  {
    && edit <= files
    && (forall k :: |edit| <= k < |files| ==> FilledByOne(full, files[k].entries))
    && (forall k :: |edit| <= k < |files| - 1 ==> full(files[k].entries))
  }

  /** `RecoverLogFile`: the records of one log, cut into tables whenever the memtable is full. */
  method RecoverLogFile(batches: seq<Batch>, edit: seq<File>, nextFile: nat, maxSequence: nat,
                        full: seq<Entry> -> bool, size: seq<Entry> -> nat, ghost h: seq<Batch>, ghost k: nat,
                            ghost d: nat, ghost lo: nat)
    returns (files: seq<File>, next: nat, max: nat)
    requires Contiguous(h) && k <= d && d + |batches| <= |h| && batches == h[d..d + |batches|]
    requires Replayed(edit, h[k..d]) && NumberedFrom(edit, lo, nextFile) && maxSequence == MaxSequence(h[k..d])
    ensures Replayed(files, h[k..d + |batches|]) && NumberedFrom(files, lo, next) && nextFile <= next
    ensures max == MaxSequence(h[k..d + |batches|]) && CutWhenFull(full, edit, files)
  {
    hide Contiguous, Replayed, Written, Sorted, MaxSequence, NumberedFrom, FilledByOne, AllFull, CutWhenFull, InsertOps,
         SetOf, WriteLevel0;
    files, next, max := edit, nextFile, maxSequence;
    NoneWritten(full, edit);
    var mem: Option<seq<Entry>> := None;
    ghost var c := d - k;
    assert h[k..d][..c] == h[k..d];
    for i := 0 to |batches|
      invariant Filling(mem, h[k..d + i], c) && Replayed(files, h[k..d + i][..c])
      invariant NumberedFrom(files, lo, next) && nextFile <= next && max == MaxSequence(h[k..d + i])
      invariant AllFull(full, edit, files)
      invariant mem.Some? ==> !full(mem.value) && FilledByOne(full, mem.value)
    {
      var b := batches[i];
      assert b == h[d + i] && h[k..d + i + 1] == h[k..d + i] + [b];
      FillOne(mem, h, k, d + i, c);
      assert h[k..d + i + 1][..c] == h[k..d + i][..c];
      MaxSequenceSnoc(h[k..d + i], b);
      var es := InsertInto(mem.GetOr([]), b);
      FilledNow(full, mem, b, es);
      mem := Some(es);
      var last := b.sequence + |b.ops| - 1;
      if last > max {
        max := last;
      }
      if full(es) {
        WriteLevel0Replays(files, lo, next, size, es, h[k..d + i + 1], c);
        OneMoreTable(full, edit, files, next, size, es);
        files, next, mem := WriteLevel0(files, next, size, es), next + 1, None;
        c := d + i + 1 - k;
        assert h[k..d + i + 1][..c] == h[k..d + i + 1];
      }
    }
    ghost var g := h[k..d + |batches|];
    if mem.Some? {
      WriteLevel0Replays(files, lo, next, size, mem.value, g, c);
      OneMoreTable(full, edit, files, next, size, mem.value);
      files, next := WriteLevel0(files, next, size, mem.value), next + 1;
    } else {
      assert g[..c] == g;
      AllFullIsCut(full, edit, files);
    }
  }

  lemma {:induction false} NoneWritten(full: seq<Entry> -> bool, edit: seq<File>)
    ensures AllFull(full, edit, edit)
  {
  }

  lemma {:induction false} AllFullIsCut(full: seq<Entry> -> bool, edit: seq<File>, files: seq<File>)
    requires AllFull(full, edit, files)
    ensures CutWhenFull(full, edit, files)
  {
    hide FilledByOne;
  }

  lemma {:induction false} FilledNow(full: seq<Entry> -> bool, mem: Option<seq<Entry>>, b: Batch, es: seq<Entry>)
    requires es == InsertOps(mem.GetOr([]), b, |b.ops|) && (mem.Some? ==> !full(mem.value))
    ensures FilledByOne(full, es)
  {
    assert InsertGives(mem.GetOr([]), b, es);
  }

  lemma {:induction false} PendingStep(logs: seq<Log>, n: nat, i: nat)
    requires i < |logs|
    ensures Pending(logs[..i + 1], n) == Pending(logs[..i], n) + (if logs[i].number >= n then logs[i].batches else [])
  {
    assert logs[..i + 1][..i] == logs[..i];
  }

  lemma {:induction false} PendingPrefix(logs: seq<Log>, n: nat, i: nat)
    requires i <= |logs|
    ensures Pending(logs[..i], n) <= Pending(logs, n)
    decreases |logs| - i
  {
    if i < |logs| {
      PendingStep(logs, n, i);
      PendingPrefix(logs, n, i + 1);
    } else {
      assert logs[..i] == logs;
    }
  }

  ghost predicate LogsMarked(logs: seq<Log>, n: nat, next: nat)
  {
    forall i :: 0 <= i < |logs| && logs[i].number >= n ==> logs[i].number < next
  }

  /** The first `i` logs hold the batches from `k` to `d`. */
  ghost predicate ReadUpTo(logs: seq<Log>, n: nat, i: nat, h: seq<Batch>, k: nat, d: nat)
  {
    i <= |logs| && k <= d <= |h| && Pending(logs, n) == h[k..] && Pending(logs[..i], n) == h[k..d]
  }

  lemma {:induction false} ReadNone(logs: seq<Log>, n: nat, h: seq<Batch>, k: nat)
    requires k <= |h| && Pending(logs, n) == h[k..]
    ensures ReadUpTo(logs, n, 0, h, k, k)
  {
    assert logs[..0] == [];
  }

  lemma {:induction false} ReadAll(logs: seq<Log>, n: nat, h: seq<Batch>, k: nat, d: nat)
    requires ReadUpTo(logs, n, |logs|, h, k, d)
    ensures h[k..d] == h[k..]
  {
    assert logs[..|logs|] == logs;
  }

  lemma {:induction false} ReadOne(logs: seq<Log>, n: nat, i: nat, h: seq<Batch>, k: nat, d: nat)
    requires i < |logs| && ReadUpTo(logs, n, i, h, k, d)
    ensures logs[i].number < n ==> ReadUpTo(logs, n, i + 1, h, k, d)
    ensures logs[i].number >= n ==>
            var e := d + |logs[i].batches|; e <= |h| && logs[i].batches == h[d..e] && ReadUpTo(logs, n, i + 1, h, k, e)
  {
    PendingStep(logs, n, i);
    PendingPrefix(logs, n, i + 1);
    if logs[i].number >= n {
      RunWithin(h, k, d, logs[i].batches);
    }
  }

  lemma {:induction false} MarkUsed(files: seq<File>, lo: nat, logs: seq<Log>, i: nat, n: nat, next: nat, next': nat)
    requires i < |logs| && NumberedFrom(files, lo, next) && LogsMarked(logs[..i], n, next) && next <= next'
    requires logs[i].number >= n ==> logs[i].number < next'
    ensures NumberedFrom(files, lo, next') && LogsMarked(logs[..i + 1], n, next')
  {
    var more := logs[..i + 1];
    forall j | 0 <= j < |more| && more[j].number >= n
      ensures more[j].number < next'
    {
      if j < i { assert more[j] == logs[..i][j]; }
    }
  }

  /** `Recover`: every log that may hold unflushed batches, oldest first. */
  method RecoverLogs(logs: seq<Log>, logNumber: nat, nextFile: nat, full: seq<Entry> -> bool, size: seq<Entry> -> nat,
                     ghost h: seq<Batch>, ghost k: nat)
    returns (files: seq<File>, next: nat, max: nat)
    requires Contiguous(h) && k <= |h| && Pending(logs, logNumber) == h[k..]
    ensures Replayed(files, h[k..]) && NumberedFrom(files, nextFile, next) && LogsMarked(logs, logNumber, next)
    ensures max == MaxSequence(h[k..])
  {
    hide Contiguous, Pending, Written, Replayed, MaxSequence, ReadUpTo, NumberedFrom, LogsMarked;
    files, next, max := [], nextFile, 0;
    ghost var d := k;
    assert h[k..k] == [] && logs[..0] == [];
    EmptyReplay(logNumber, nextFile);
    ReadNone(logs, logNumber, h, k);
    for i := 0 to |logs|
      invariant k <= d <= |h| && ReadUpTo(logs, logNumber, i, h, k, d)
      invariant Replayed(files, h[k..d]) && max == MaxSequence(h[k..d])
      invariant NumberedFrom(files, nextFile, next) && LogsMarked(logs[..i], logNumber, next)
    {
      ghost var before := next;
      ReadOne(logs, logNumber, i, h, k, d);
      if logs[i].number >= logNumber {
        files, next, max := RecoverLogFile(logs[i].batches, files, next, max, full, size, h, k, d, nextFile);
        LogsMarkedGrows(logs[..i], logNumber, before, next);
        before := next;
        if next <= logs[i].number {
          next := logs[i].number + 1;
        }
        d := d + |logs[i].batches|;
      }
      MarkUsed(files, nextFile, logs, i, logNumber, before, next);
    }
    ReadAll(logs, logNumber, h, k, d);
    assert logs[..|logs|] == logs;
  }

  lemma {:induction false} LogsMarkedGrows(logs: seq<Log>, n: nat, next: nat, next': nat)
    requires LogsMarked(logs, n, next) && next <= next'
    ensures LogsMarked(logs, n, next')
  {
  }

  lemma {:induction false} EmptyReplay(n: nat, lo: nat)
    ensures Replayed([], []) && MaxSequence([]) == 0 && NumberedFrom([], lo, lo) && LogsMarked([], n, lo)
  {
  }

  lemma {:induction false} RunWithin(h: seq<Batch>, k: nat, d: nat, g: seq<Batch>)
    requires k <= d <= |h| && h[k..d] + g <= h[k..]
    ensures d + |g| <= |h| && g == h[d..d + |g|] && h[k..d + |g|] == h[k..d] + g
  {
    var a, b := h[k..d] + g, h[k..];
    forall i | 0 <= i < |g|
      ensures g[i] == h[d + i]
    {
      assert a[d - k + i] == b[d - k + i];
    }
  }

  // ----- crash and recovery steps

  /** Memory is lost. The batches in the log are the history from here on: those that were
      acknowledged and, at most, the one being written. */
  ghost predicate Crash(r: Run, r': Run)
  {
    r.state.Up? && r' == r.(state := Down(r.state.disk), acked := LoggedHistory(r))
  }

  lemma {:induction false} CrashInv(r: Run, r': Run)
    requires Inv(r) && Crash(r, r')
    ensures Inv(r')
  {
    hide Contiguous, DiskOk, MemOk, LogsOk, ImmOk, Mirrors, End, FilesOk, PendingOk, DoomedOk, DoomedLogsOk, PhaseOk,
         FlushOk, JobOk;
    if LoggedHistory(r) != r.acked {
      EndSnoc(r.acked, r.state.m.writer.batch);
    }
  }

  /** A recovery that dies before its edit is recorded leaves tables under numbers the
      MANIFEST has not handed out, and an empty log. */
  ghost predicate Leftover(r: Run, r': Run, n: nat, es: seq<Entry>)
  {
    && r.state.Down? && n >= r.state.disk.saved.nextFile
    && r' == r.(state := Down(r.state.disk.(tables := r.state.disk.tables[n := es])))
  }

  lemma {:induction false} LeftoverInv(r: Run, r': Run, n: nat, es: seq<Entry>)
    requires Inv(r) && Leftover(r, r', n, es)
    ensures Inv(r')
  {
    hide Contiguous, Mirrors, End, Pending, Ascending;
  }

  /** The new log's number is above those handed out and above every log replayed. */
  ghost predicate NewLogNumber(disk: Disk, n: nat)
  {
    disk.saved.nextFile <= n && LogsMarked(disk.logs, disk.saved.logNumber, n)
  }

  ghost predicate LeftoverLog(r: Run, r': Run, n: nat)
  {
    && r.state.Down? && NewLogNumber(r.state.disk, n)
    && r' == r.(state := Down(r.state.disk.(logs := r.state.disk.logs + [Log(n, [])])))
  }

  lemma {:induction false} NewLog(disk: Disk, n: nat)
    requires Ascending(disk.logs) && disk.saved.logNumber < disk.saved.nextFile && NewLogNumber(disk, n)
    ensures Ascending(disk.logs + [Log(n, [])])
    ensures Pending(disk.logs + [Log(n, [])], disk.saved.logNumber) == Pending(disk.logs, disk.saved.logNumber)
  {
    NewLogPending(disk.logs, n, disk.saved.logNumber);
  }

  lemma {:induction false} LeftoverLogInv(r: Run, r': Run, n: nat)
    requires Inv(r) && LeftoverLog(r, r', n)
    ensures Inv(r')
  {
    hide Contiguous, Mirrors, End, Pending, Ascending, NewLogNumber, OnDisk, NumbersBelow;
    NewLog(r.state.disk, n);
  }

  function WithTables(tables: map<nat, seq<Entry>>, files: seq<File>): map<nat, seq<Entry>>
  {
    if files == [] then tables
    else WithTables(tables, files[..|files| - 1])[files[|files| - 1].number := files[|files| - 1].entries]
  }

  lemma {:induction false} TablesWritten(tables: map<nat, seq<Entry>>, files: seq<File>, lo: nat, hi: nat)
    requires NumberedFrom(files, lo, hi)
    ensures forall n :: n < lo && n in tables ==>
            n in WithTables(tables, files) && WithTables(tables, files)[n] == tables[n]
    ensures forall f :: f in files ==>
            f.number in WithTables(tables, files) && WithTables(tables, files)[f.number] == f.entries
  {
    if files != [] {
      var j := |files| - 1;
      TablesWritten(tables, files[..j], lo, hi);
      forall f | f in files
        ensures f.number in WithTables(tables, files) && WithTables(tables, files)[f.number] == f.entries
      {
        var i :| 0 <= i < |files| && files[i] == f;
        if i < j {
          assert files[..j][i] == f;
        }
      }
    }
  }

  /** The disk and the memory after `Open`. */
  function Opened(disk: Disk, files: seq<File>, next: nat): Durability.State
    requires |disk.saved.version.levels| == NUM_LEVELS && EditOk(Edit({}, Additions(0, files)))
  {
    var after := Next(disk.saved.version, Edit({}, Additions(0, files)));
    var last := Max(disk.saved.lastSequence, MaxSequence(Pending(disk.logs, disk.saved.logNumber)));
    Up(Disk(WithTables(disk.tables, files), disk.logs + [Log(next, [])], Saved(after, next, next + 1, last)),
       Memory([], None, next, after, {}, next + 1, last, [], {}, Idle, NoFlush, NoJob, {}, {}))
  }

  /** What recovery makes of the logs. */
  ghost predicate Replay(disk: Disk, files: seq<File>, next: nat)
  {
    && Replayed(files, Pending(disk.logs, disk.saved.logNumber))
    && NumberedFrom(files, disk.saved.nextFile, next)
    && NewLogNumber(disk, next)
  }

  ghost predicate Recover(r: Run, r': Run, files: seq<File>, next: nat)
  {
    && r.state.Down? && |r.state.disk.saved.version.levels| == NUM_LEVELS && EditOk(Edit({}, Additions(0, files)))
    && Replay(r.state.disk, files, next)
    && r' == Run(Opened(r.state.disk, files, next), r.acked, |r.acked|, |r.acked|, |r.acked|, r.cutoff)
  }

  lemma {:induction false} RecoveredVersion(disk: Disk, h: seq<Batch>, k: nat, cutoff: nat, files: seq<File>, next: nat)
    requires Contiguous(h) && DiskOk(disk, h, k, cutoff) && Replay(disk, files, next)
    ensures |disk.saved.version.levels| == NUM_LEVELS && EditOk(Edit({}, Additions(0, files)))
    ensures var after := Next(disk.saved.version, Edit({}, Additions(0, files)));
            Mirrors(after, h, cutoff) && OnDisk(WithTables(disk.tables, files), after) && NumbersBelow(after, next)
  {
    hide Contiguous, Mirrors, End, Pending, Replayed, OnDisk, NumbersBelow, Ascending, NewLogNumber, Gains;
    var v, lo := disk.saved.version, disk.saved.nextFile;
    StackMirrors(v, files, h, k, lo, next, cutoff);
    GainsLevels(v, h[..k], cutoff);
    AllAtOnce(v, Stack(v, files), files, lo, next);
    GainsBelow(v, Stack(v, files), files, lo, next);
    GainsOnDisk(v, Stack(v, files), files, disk.tables, lo, next);
  }

  lemma {:induction false} GainsLevels(v: Version, h: seq<Batch>, cutoff: nat)
    requires Mirrors(v, h, cutoff)
    ensures LevelsOrdered(v)
  {
  }

  lemma {:induction false} GainsOnDisk(v: Version, r: Version, files: seq<File>, tables: map<nat, seq<Entry>>, lo: nat,
                                       hi: nat)
    requires |v.levels| == NUM_LEVELS && Gains(v, r, files) && OnDisk(tables, v) && NumbersBelow(v, lo)
    requires NumberedFrom(files, lo, hi)
    ensures OnDisk(WithTables(tables, files), r)
  {
    TablesWritten(tables, files, lo, hi);
    forall l, g | 0 <= l < |r.levels| && g in r.levels[l]
      ensures g.number in WithTables(tables, files) && WithTables(tables, files)[g.number] == g.entries
    {
      assert InGain(v, files, l, g);
    }
  }

  /** The recovered sequence counter is the end of the history. */
  lemma {:induction false} RecoveredSequence(disk: Disk, h: seq<Batch>, k: nat, cutoff: nat)
    requires Contiguous(h) && DiskOk(disk, h, k, cutoff)
    ensures Max(disk.saved.lastSequence, MaxSequence(Pending(disk.logs, disk.saved.logNumber))) == End(h)
  {
    hide Contiguous, Mirrors, Pending, OnDisk, NumbersBelow, Ascending;
    MaxSequenceIsEnd(h, k);
    if k == |h| {
      assert h[..k] == h;
    }
  }

  lemma {:induction false} RecoveredDisk(disk: Disk, h: seq<Batch>, k: nat, cutoff: nat, files: seq<File>, next: nat)
    requires Contiguous(h) && DiskOk(disk, h, k, cutoff) && Replay(disk, files, next)
    requires |disk.saved.version.levels| == NUM_LEVELS && EditOk(Edit({}, Additions(0, files)))
    ensures DiskOk(Opened(disk, files, next).disk, h, |h|, cutoff)
    ensures Mirrors(Opened(disk, files, next).disk.saved.version, h, cutoff)
    ensures Opened(disk, files, next).disk.saved.lastSequence == End(h)
    ensures Opened(disk, files, next).disk.saved.nextFile == next + 1
  {
    hide Contiguous, Mirrors, End, Pending, Replayed, OnDisk, Ascending, NewLogNumber, WithTables, MaxSequence,
         NumberedFrom, Next;
    RecoveredVersion(disk, h, k, cutoff, files, next);
    RecoveredSequence(disk, h, k, cutoff);
    RecoveredLogs(disk, h, k, cutoff, next);
    assert h[|h|..] == [] && h[..|h|] == h;
  }

  lemma {:induction false} RecoveredLogs(disk: Disk, h: seq<Batch>, k: nat, cutoff: nat, next: nat)
    requires DiskOk(disk, h, k, cutoff) && NewLogNumber(disk, next)
    ensures Ascending(disk.logs + [Log(next, [])]) && Pending(disk.logs + [Log(next, [])], next) == []
  {
    hide Mirrors, End, Pending, OnDisk, NumbersBelow, Ascending, NewLogNumber;
    NewLog(disk, next);
    PendingLast(disk.logs + [Log(next, [])], next);
  }

  lemma {:induction false} RecoverInv(r: Run, r': Run, files: seq<File>, next: nat)
    requires Inv(r) && Recover(r, r', files, next)
    ensures Inv(r')
  {
    hide Contiguous, DiskOk, Mirrors, End, Replay, NumbersBelow, OnDisk, WithTables, MaxSequence, Next;
    var h, disk, disk', m' := r.acked, r.state.disk, r'.state.disk, r'.state.m;
    RecoveredDisk(disk, h, r.durable, r.cutoff, files, next);
    assert h[|h|..] == [] && h[..|h|] == h;
    assert Written([]) == {} && SetOf([]) == {};
    RecoveredFiles(disk', h, r.cutoff);
    assert Live(disk', m') == {disk'.saved.version};
  }

  lemma {:induction false} RecoveredFiles(disk: Disk, h: seq<Batch>, cutoff: nat)
    requires DiskOk(disk, h, |h|, cutoff)
    ensures FilesOk(disk.tables, {disk.saved.version}, disk.saved.nextFile)
  {
  }

  /** `Open`: recover, start a new log, record the edit. */
  method Open(disk: Disk, full: seq<Entry> -> bool, size: seq<Entry> -> nat, ghost r: Run)
    returns (up: Durability.State, ghost files: seq<File>, ghost next: nat)
    requires Inv(r) && r.state == Down(disk)
    ensures Recover(r, Run(up, r.acked, |r.acked|, |r.acked|, |r.acked|, r.cutoff), files, next)
  {
    ghost var h, k := r.acked, r.durable;
    var edit, number, max := RecoverLogs(disk.logs, disk.saved.logNumber, disk.saved.nextFile, full, size, h, k);
    files, next := edit, number;
    RecoveredVersion(disk, h, k, r.cutoff, edit, number);
    hide Contiguous, DiskOk, Mirrors, End, NumbersBelow, OnDisk, WithTables, MaxSequence, Next, Replayed, Pending;
    var after := Next(disk.saved.version, Edit({}, Additions(0, edit)));
    var last := disk.saved.lastSequence;
    if last < max {
      last := max;
    }
    up := Up(Disk(WithTables(disk.tables, edit), disk.logs + [Log(number, [])], Saved(after, number, number + 1, last)),
             Memory([], None, number, after, {}, number + 1, last, [], {}, Idle, NoFlush, NoJob, {}, {}));
  }
}
