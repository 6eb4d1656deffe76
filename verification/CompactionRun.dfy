/** A whole background compaction, from the version it was picked on to the version it
    installs: every reading at or above the cutoff is the same before and after. */
module CompactionRun {
  import opened Ordering
  import opened Levels
  import opened CompactionInputs
  import opened CompactionWork
  import opened VersionBuilder
  import opened Install

  // ----- the merged input

  function Merge2(a: seq<Entry>, b: seq<Entry>): seq<Entry>
    decreases |a| + |b|
  {
    if a == [] then b
    else if b == [] then a
    else if Less(b[0].key, a[0].key) then [b[0]] + Merge2(a, b[1..])
    else [a[0]] + Merge2(a[1..], b)
  }

  /** All entries of the files in key order: what the merging iterator over them yields. */
  function MergeFiles(files: seq<File>): seq<Entry>
  {
    if files == [] then [] else Merge2(files[0].entries, MergeFiles(files[1..]))
  }

  lemma {:induction false} Merge2Sorts(a: seq<Entry>, b: seq<Entry>)
    requires Sorted(a) && Sorted(b)
    requires forall d, e :: d in a && e in b ==> d.key != e.key
    ensures Sorted(Merge2(a, b))
    ensures forall e :: e in Merge2(a, b) <==> e in a || e in b
    decreases |a| + |b|
  {
    if a != [] && b != [] {
      assert a == [a[0]] + a[1..] && b == [b[0]] + b[1..];
      if Less(b[0].key, a[0].key) {
        Merge2Sorts(a, b[1..]);
        ConsSorted(b[0], Merge2(a, b[1..]), a, b[1..]);
      } else {
        assert a[0] in a && b[0] in b;
        Merge2Sorts(a[1..], b);
        ConsSorted(a[0], Merge2(a[1..], b), b, a[1..]);
      }
    }
  }

  lemma {:induction false} MergeSets(a: seq<Entry>, b: seq<Entry>)
    requires Sorted(a) && Sorted(b)
    requires forall d, e :: d in a && e in b ==> d.key != e.key
    ensures Sorted(Merge2(a, b)) && SetOf(Merge2(a, b)) == SetOf(a) + SetOf(b)
  {
    Merge2Sorts(a, b);
  }

  lemma {:induction false} ConsSorted(h: Entry, tail: seq<Entry>, a: seq<Entry>, b: seq<Entry>)
    requires Sorted(tail) && Sorted(a) && Sorted([h] + b) && a != [] && Less(h.key, a[0].key)
    requires forall e :: e in tail ==> e in a || e in b
    ensures Sorted([h] + tail)
  {
    forall i | 0 <= i < |tail|
      ensures Less(h.key, tail[i].key)
    {
      assert tail[i] in tail;
      if tail[i] in a {
        var j :| 0 <= j < |a| && a[j] == tail[i];
      } else {
        var j :| 0 <= j < |b| && b[j] == tail[i];
        assert ([h] + b)[0] == h && ([h] + b)[j + 1] == b[j];
      }
    }
  }

  /** No two of the files hold the same key. */
  ghost predicate KeysDistinct(files: seq<File>)
  {
    forall i, j, d, e :: 0 <= i < j < |files| && d in files[i].entries && e in files[j].entries ==> d.key != e.key
  }

  lemma {:induction false} HeadSharesNoKey(files: seq<File>)
    requires |files| > 0 && KeysDistinct(files)
    ensures KeysDistinct(files[1..])
    ensures forall d, e :: d in files[0].entries && e in LevelEntries(files[1..]) ==> d.key != e.key
    ensures LevelEntries(files) == Contents(files[0]) + LevelEntries(files[1..])
  {
    var rest := files[1..];
    assert files == [files[0]] + rest;
    forall d, e | d in files[0].entries && e in LevelEntries(rest)
      ensures d.key != e.key
    {
      var j := FileOf(rest, e);
      assert files[j + 1] == rest[j];
    }
  }

  lemma {:induction false} MergeFilesSorts(files: seq<File>)
    requires AllWellFormed(files) && KeysDistinct(files)
    ensures Sorted(MergeFiles(files))
    ensures SetOf(MergeFiles(files)) == LevelEntries(files)
  {
    if files != [] {
      var a, b := files[0].entries, MergeFiles(files[1..]);
      assert files[0] in files;
      HeadSharesNoKey(files);
      MergeFilesSorts(files[1..]);
      assert forall e :: e in b ==> e in SetOf(b);
      MergeSets(a, b);
    }
  }

  /** Distinct files of a valid version have no key in common. */
  lemma {:induction false} FilesShareNoKey(v: Version, l: nat, f: File, m: nat, g: File, d: Entry, e: Entry)
    requires Shaped(v) && NewerByNumber(v.levels[0]) && Recency(v)
    requires l <= m < NUM_LEVELS && f in v.levels[l] && g in v.levels[m] && (l == m ==> f != g)
    requires d in f.entries && e in g.entries
    ensures d.key != e.key
  {
    if l < m {
      assert d in LevelEntries(v.levels[l]) && e in LevelEntries(v.levels[m]);
      assert Above(LevelEntries(v.levels[l]), LevelEntries(v.levels[m]));
    } else if l == 0 {
      assert f.number != g.number;
      assert d in Contents(f) && e in Contents(g);
    } else {
      SortedIsApart(v.levels[l]);
      InRange(f, d);
      InRange(g, e);
    }
  }

  lemma {:induction false} InputsShareNoKey(v: Version, L: nat, I0: seq<File>, I1: seq<File>)
    requires Shaped(v) && NewerByNumber(v.levels[0]) && Recency(v) && L + 1 < NUM_LEVELS
    requires Subset(I0, v.levels[L]) && Subset(I1, v.levels[L + 1]) && NoRepeats(I0) && NoRepeats(I1)
    ensures KeysDistinct(I0 + I1)
  {
    var files := I0 + I1;
    forall i, j, d, e | 0 <= i < j < |files| && d in files[i].entries && e in files[j].entries
      ensures d.key != e.key
    {
      if j < |I0| {
        FilesShareNoKey(v, L, I0[i], L, I0[j], d, e);
      } else if i < |I0| {
        FilesShareNoKey(v, L, I0[i], L + 1, I1[j - |I0|], d, e);
      } else {
        FilesShareNoKey(v, L + 1, I1[i - |I0|], L + 1, I1[j - |I0|], d, e);
      }
    }
  }

  // ----- the compaction as a whole

  /** `after` is valid and reads like `v` at every snapshot from `snap` on. */
  ghost predicate ReadsLike(v: Version, after: Version, snap: nat)
  {
    && Valid(after)
    && forall u, s :: snap <= s ==> View(Entries(after), u, s) == View(Entries(v), u, s)
  }

  /** The outputs of the merge loop are ordered files holding exactly the survivors. */
  lemma {:induction false} OutputsOfLoop(v: Version, L: nat, I0: seq<File>, I1: seq<File>, outs: seq<File>,
                                         number: nat -> nat, snap: nat)
    requires Valid(v) && L + 1 < NUM_LEVELS && GoodInputs(v, L, I0, I1) && snap < MAX_SEQUENCE
    requires var input := MergeFiles(I0 + I1); Holding(outs, [], number, Kept(input, |input|, snap, BaseKeys(v, L)))
    ensures GoodOutputs(I0, I1, outs)
    ensures LevelEntries(outs) == Survivors(InputEntries(I0, I1), snap, BaseKeys(v, L))
  {
    var input := MergeFiles(I0 + I1);
    MergedInput(v, L, I0, I1);
    KeptSorted(input, |input|, snap, BaseKeys(v, L));
    KeptAreSurvivors(input, snap, BaseKeys(v, L));
    assert Flat(outs) == Kept(input, |input|, snap, BaseKeys(v, L));
    PiecesSorted(outs);
  }

  lemma {:induction false} MergedInput(v: Version, L: nat, I0: seq<File>, I1: seq<File>)
    requires Valid(v) && L + 1 < NUM_LEVELS && GoodInputs(v, L, I0, I1)
    ensures Sorted(MergeFiles(I0 + I1)) && SetOf(MergeFiles(I0 + I1)) == InputEntries(I0, I1)
    ensures UniqueSeqs(SetOf(MergeFiles(I0 + I1)))
  {
    InputsShareNoKey(v, L, I0, I1);
    InputsWellFormed(v, L, I0, I1);
    MergeFilesSorts(I0 + I1);
    assert LevelEntries(I0 + I1) == InputEntries(I0, I1);
    SplitEntries(v, L, I0, I1);
  }

  lemma {:induction false} InputsWellFormed(v: Version, L: nat, I0: seq<File>, I1: seq<File>)
    requires Shaped(v) && L + 1 < NUM_LEVELS && Subset(I0, v.levels[L]) && Subset(I1, v.levels[L + 1])
    ensures AllWellFormed(I0 + I1)
  {
    assert AllWellFormed(v.levels[L]) && AllWellFormed(v.levels[L + 1]);
  }

  ghost predicate NumbersUnused(v: Version, number: nat -> nat)
  {
    && (forall l, f, i: nat :: 0 <= l < |v.levels| && f in v.levels[l] ==> f.number != number(i))
    && (forall i: nat, j: nat :: i != j ==> number(i) != number(j))
  }

  /** Compaction preserves every live reading. */
  lemma {:induction false} CompactionPreservesReads(v: Version, L: nat, I0: seq<File>, I1: seq<File>, outs: seq<File>,
                                                    number: nat -> nat, snap: nat)
    requires Valid(v) && L + 1 < NUM_LEVELS && Paired(v, L, I0, I1) && snap < MAX_SEQUENCE && NumbersUnused(v, number)
    requires var input := MergeFiles(I0 + I1); Holding(outs, [], number, Kept(input, |input|, snap, BaseKeys(v, L)))
    ensures EditOk(CompactionEdit(L, I0, I1, outs))
    ensures Installed(v, Next(v, CompactionEdit(L, I0, I1, outs)), L, I0, I1, outs)
    ensures ReadsLike(v, Next(v, CompactionEdit(L, I0, I1, outs)), snap)
  {
    PairedIsGood(v, L, I0, I1);
    OutputsOfLoop(v, L, I0, I1, outs, number, snap);
    OutputNumbersFree(v, L, I0, outs, number);
    EditInstalls(v, L, I0, I1, outs);
    var after := Next(v, CompactionEdit(L, I0, I1, outs));
    GoodIsClear(v, L, I0, I1, outs);
    InstallKeepsValid(v, after, L, I0, I1, outs);
    forall u, s | snap <= s
      ensures View(Entries(after), u, s) == View(Entries(v), u, s)
    {
      CompactionKeepsView(v, after, L, I0, I1, outs, snap, u, s);
    }
  }

  lemma {:induction false} OutputNumbersFree(v: Version, L: nat, I0: seq<File>, outs: seq<File>, number: nat -> nat)
    requires NumbersUnused(v, number) && forall k :: 0 <= k < |outs| ==> outs[k].number == number(k)
    ensures NumbersFree(v, L, I0, outs)
  {
    forall l, f, o | 0 <= l < |v.levels| && f in v.levels[l] && o in outs
      ensures f.number != o.number
    {
      var k :| 0 <= k < |outs| && outs[k] == o;
    }
  }

  /** Compaction from picked inputs to installed version. */
  method Compact(c: Compaction, lim: Limits, snap: nat, number: nat -> nat)
    returns (outputs: seq<File>, after: Version)
    requires c.Valid() && Valid(c.version) && Paired(c.version, c.level, c.inputs0, c.inputs1)
    requires (forall u :: c.Behind(u)) && snap < MAX_SEQUENCE && NumbersUnused(c.version, number)
    requires c.Unstarted() && c.GrandparentsOk() && lim.grandparents == c.grandparents
    modifies c`grandparentIndex, c`seenKey, c`overlappedBytes, c`overlapFrom, c.levelPtrs
    ensures ReadsLike(c.version, after, snap)
    ensures var input := MergeFiles(c.inputs0 + c.inputs1);
            Distilled(c.version, c.level, snap, input, Flat(outputs)) && WellCut(lim, input, outputs)
    ensures Installed(c.version, after, c.level, c.inputs0, c.inputs1, outputs)
  {
    hide Kept, BaseKeys, Distilled, WellCut, Holding, Paired, MergeFiles;
    var input := MergeFiles(c.inputs0 + c.inputs1);
    ghost var I0, I1 := c.inputs0, c.inputs1;
    PairedIsGood(c.version, c.level, I0, I1);
    MergedInput(c.version, c.level, I0, I1);
    outputs := DoCompactionWork(c, lim, input, snap, number);
    after := InstallCompactionResults(c.version, c.level, c.inputs0, c.inputs1, outputs);
    CompactionPreservesReads(c.version, c.level, I0, I1, outputs, number, snap);
  }

  // ----- trivial moves

  /** Moving a file one level down, when nothing in that level meets its range, changes no
      reading at all. */
  lemma {:induction false} TrivialMovePreservesReads(v: Version, L: nat, f: File)
    requires Valid(v) && L + 1 < NUM_LEVELS && Paired(v, L, [f], [])
    ensures ReadsLike(v, Next(v, CompactionEdit(L, [f], [], [f])), 0)
  {
    PairedIsGood(v, L, [f], []);
    MovedFileIsOutput(v, L, f);
    EditInstalls(v, L, [f], [], [f]);
    var after := Next(v, CompactionEdit(L, [f], [], [f]));
    GoodIsClear(v, L, [f], [], [f]);
    InstallKeepsValid(v, after, L, [f], [], [f]);
    MoveKeepsEntries(v, after, L, f);
  }

  lemma {:induction false} MoveKeepsEntries(v: Version, after: Version, L: nat, f: File)
    requires |v.levels| == NUM_LEVELS && L + 1 < NUM_LEVELS && f in v.levels[L] && Installed(v, after, L, [f], [], [f])
    ensures Entries(after) == Entries(v)
  {
    SplitEntries(v, L, [f], []);
    AfterEntries(v, after, L, [f], [], [f]);
    assert InputEntries([f], []) == LevelEntries([f]);
  }

  lemma {:induction false} MovedFileIsOutput(v: Version, L: nat, f: File)
    requires Shaped(v) && L < NUM_LEVELS && f in v.levels[L]
    ensures GoodOutputs([f], [], [f]) && NumbersFree(v, L, [f], [f])
  {
    assert AllWellFormed(v.levels[L]);
  }
}
