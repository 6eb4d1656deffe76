/** What the iterators are put together from: tables, whole sorted levels and memtables as
    children of one merging iterator, for compactions and for reads. */
module InputIterators {
  import opened CompactionInputs
  import opened CompactionRun
  import opened Install
  import opened Levels
  import opened Merging
  import opened Ordering
  import opened Tables
  import opened TwoLevelIterators
  import opened Wrappers

  // ----- a sorted level as one run

  function EntryLists(files: seq<File>): (r: seq<seq<Entry>>)
    ensures |r| == |files| && forall i :: 0 <= i < |files| ==> r[i] == files[i].entries
  {
    seq(|files|, i requires 0 <= i < |files| => files[i].entries)
  }

  function LargestKeys(files: seq<File>): (r: seq<InternalKey>)
    ensures |r| == |files| && forall i :: 0 <= i < |files| ==> r[i] == files[i].largest
  {
    seq(|files|, i requires 0 <= i < |files| => files[i].largest)
  }

  function Concatenated(files: seq<File>): seq<Entry>
  {
    Flatten(EntryLists(files))
  }

  lemma {:induction false} ConcatenatedSnoc(files: seq<File>, n: nat)
    requires n + 1 == |files|
    ensures Concatenated(files) == Concatenated(files[..n]) + files[n].entries && Concatenated([]) == []
  {
    assert EntryLists(files)[..n] == EntryLists(files[..n]);
  }

  lemma {:induction false} ConcatenatedMembers(files: seq<File>)
    ensures SetOf(Concatenated(files)) == LevelEntries(files)
  {
    if files == [] {
      assert EntryLists(files) == [];
    } else {
      var n := |files| - 1;
      ConcatenatedSnoc(files, n);
      ConcatenatedMembers(files[..n]);
      hide Concatenated;
      assert files == files[..n] + [files[n]];
      assert LevelEntries(files) == LevelEntries(files[..n]) + Contents(files[n]);
    }
  }

  lemma {:induction false} ConcatenatedSorted(files: seq<File>)
    requires AllWellFormed(files) && SortedLevel(files)
    ensures Sorted(Concatenated(files))
  {
    if files == [] {
      assert EntryLists(files) == [];
    } else {
      var n := |files| - 1;
      ConcatenatedSnoc(files, n);
      ConcatenatedSorted(files[..n]);
      ConcatenatedMembers(files[..n]);
      hide Concatenated;
      var a, b := Concatenated(files[..n]), files[n].entries;
      forall x, y | 0 <= x < |a| && 0 <= y < |b| ensures Less(a[x].key, b[y].key) {
        assert a[x] in SetOf(a);
        var f :| f in files[..n] && a[x] in f.entries;
        var i :| 0 <= i < n && files[..n][i] == f;
        BeforeLast(files, i, n, a[x], b[y]);
      }
      assert files[n] in files;
      SortedConcat(a, b);
    }
  }

  lemma {:induction false} BeforeLast(files: seq<File>, i: nat, j: nat, d: Entry, e: Entry)
    requires AllWellFormed(files) && SortedLevel(files) && i < j < |files| && d in files[i].entries
    requires e in files[j].entries
    ensures Less(d.key, files[i].largest) || d.key == files[i].largest
    ensures Less(files[i].largest, e.key) && Less(d.key, e.key)
  {
    InRange(files[i], d);
    InRange(files[j], e);
  }

  lemma {:induction false} SortedConcat(a: seq<Entry>, b: seq<Entry>)
    requires Sorted(a) && Sorted(b) && forall x, y :: 0 <= x < |a| && 0 <= y < |b| ==> Less(a[x].key, b[y].key)
    ensures Sorted(a + b)
  {
  }

  /** The files of a sorted level, found by their largest keys, are blocks of a two-level iterator
      over all the entries of the level. */
  lemma {:induction false} LevelIterates(files: seq<File>)
    requires AllWellFormed(files) && SortedLevel(files)
    ensures IndexOk(EntryLists(files), LargestKeys(files))
    ensures SetOf(Flatten(EntryLists(files))) == LevelEntries(files)
  {
    ConcatenatedSorted(files);
    ConcatenatedMembers(files);
    var lists, index := EntryLists(files), LargestKeys(files);
    hide Flatten, Sorted, SortedLevel, AllWellFormed, LevelEntries;
    forall i, e: Entry | 0 <= i < |lists| && e in lists[i] ensures AtMost(e.key, index[i]) {
      UpToLargest(files, i, e);
    }
    forall i, j, e: Entry | 0 <= i < j < |lists| && e in lists[j] ensures Less(index[i], e.key) {
      AboveLargest(files, i, j, e);
    }
  }

  lemma {:induction false} UpToLargest(files: seq<File>, i: nat, e: Entry)
    requires AllWellFormed(files) && i < |files| && e in files[i].entries
    ensures AtMost(e.key, files[i].largest)
  {
    InRange(files[i], e);
  }

  lemma {:induction false} AboveLargest(files: seq<File>, i: nat, j: nat, e: Entry)
    requires AllWellFormed(files) && SortedLevel(files) && i < j < |files| && e in files[j].entries
    ensures Less(files[i].largest, e.key)
  {
    InRange(files[j], e);
  }

  // ----- children of a merging iterator

  ghost function Members(lists: seq<seq<Entry>>): set<Entry>
  {
    set i, e | 0 <= i < |lists| && e in lists[i] :: e
  }

  ghost predicate ShareNoKey(A: set<Entry>, B: set<Entry>)
  {
    forall d, e :: d in A && e in B ==> d.key != e.key
  }

  ghost predicate ChildrenOk(lists: seq<seq<Entry>>)
  {
    && (forall i :: 0 <= i < |lists| ==> Sorted(lists[i]))
    && (forall i, j :: 0 <= i < j < |lists| ==> ShareNoKey(SetOf(lists[i]), SetOf(lists[j])))
  }

  lemma {:induction false} AboveSharesNoKey(A: set<Entry>, B: set<Entry>)
    requires Above(A, B)
    ensures ShareNoKey(A, B)
  {
  }

  lemma {:induction false} MembersConcat(a: seq<seq<Entry>>, b: seq<seq<Entry>>)
    ensures Members(a + b) == Members(a) + Members(b)
  {
    var c := a + b;
    forall e ensures e in Members(c) <==> e in Members(a) + Members(b) {
      if e in Members(a) {
        var i :| 0 <= i < |a| && e in a[i];
        assert c[i] == a[i];
      }
      if e in Members(b) {
        var i :| 0 <= i < |b| && e in b[i];
        assert c[|a| + i] == b[i];
      }
      if e in Members(c) {
        var i :| 0 <= i < |c| && e in c[i];
        assert if i < |a| then c[i] == a[i] else c[i] == b[i - |a|];
      }
    }
  }

  lemma {:induction false} ChildrenConcat(a: seq<seq<Entry>>, b: seq<seq<Entry>>)
    requires ChildrenOk(a) && ChildrenOk(b) && ShareNoKey(Members(a), Members(b))
    ensures ChildrenOk(a + b) && Members(a + b) == Members(a) + Members(b)
  {
    MembersConcat(a, b);
    hide Sorted;
    var c := a + b;
    forall i, j | 0 <= i < j < |c| ensures ShareNoKey(SetOf(c[i]), SetOf(c[j])) {
      if i < |a| <= j {
        forall d: Entry, e: Entry | d in c[i] && e in c[j] ensures d.key != e.key {
          assert c[i] == a[i] && c[j] == b[j - |a|];
          assert d in Members(a) && e in Members(b);
        }
      }
    }
  }

  lemma {:induction false} OneChild(list: seq<Entry>)
    requires Sorted(list)
    ensures ChildrenOk([list]) && Members([list]) == SetOf(list)
  {
    assert forall e :: e in list ==> e in [list][0];
  }

  /** Children that share no key, and the sorted run of what they hold, are what the merging
      iterator is about. */
  lemma {:induction false} ChildrenMerge(lists: seq<seq<Entry>>, all: seq<Entry>)
    requires ChildrenOk(lists) && Sorted(all) && SetOf(all) == Members(lists)
    ensures Merged(lists, all)
  {
    forall i, j | 0 <= i < |lists| && 0 <= j < |lists[i]| ensures lists[i][j] in all {
      var e := lists[i][j];
      assert e in lists[i];
      assert e in Members(lists);
      assert e in SetOf(all);
    }
    forall k | 0 <= k < |all| ensures InSome(lists, all[k]) {
      assert all[k] in SetOf(all);
    }
    forall i, j, x, y | 0 <= i < |lists| && 0 <= j < |lists| && 0 <= x < |lists[i]| && 0 <= y < |lists[j]|
                        && lists[i][x].key == lists[j][y].key
      ensures i == j && x == y
    {
      OnePlace(lists, i, j, x, y);
    }
  }

  lemma {:induction false} OnePlace(lists: seq<seq<Entry>>, i: nat, j: nat, x: nat, y: nat)
    requires ChildrenOk(lists) && i < |lists| && j < |lists| && x < |lists[i]| && y < |lists[j]|
    requires lists[i][x].key == lists[j][y].key
    ensures i == j && x == y
  {
    assert lists[i][x] in SetOf(lists[i]) && lists[j][y] in SetOf(lists[j]);
    assert i < j ==> ShareNoKey(SetOf(lists[i]), SetOf(lists[j]));
    assert j < i ==> ShareNoKey(SetOf(lists[j]), SetOf(lists[i]));
    assert Sorted(lists[i]);
  }

  // ----- the runs of a level

  /** The tables of level 0 one by one; a sorted level, if not empty, as one run. */
  function RunsOf(sorted: bool, files: seq<File>): seq<seq<Entry>>
  {
    if files == [] then [] else if sorted then [Concatenated(files)] else EntryLists(files)
  }

  lemma {:induction false} RunsOfOk(sorted: bool, files: seq<File>)
    requires AllWellFormed(files) && if sorted then SortedLevel(files) else KeysDistinct(files)
    ensures ChildrenOk(RunsOf(sorted, files)) && Members(RunsOf(sorted, files)) == LevelEntries(files)
  {
    if files != [] {
      if sorted {
        ConcatenatedSorted(files);
        ConcatenatedMembers(files);
        hide Concatenated;
        OneChild(Concatenated(files));
      } else {
        ListsOk(files);
      }
    }
  }

  lemma {:induction false} ListsOk(files: seq<File>)
    requires AllWellFormed(files) && KeysDistinct(files)
    ensures ChildrenOk(EntryLists(files)) && Members(EntryLists(files)) == LevelEntries(files)
  {
    var lists := EntryLists(files);
    forall i | 0 <= i < |lists| ensures Sorted(lists[i]) { assert files[i] in files && WellFormed(files[i]); }
    hide AllWellFormed, Sorted;
    forall i, j | 0 <= i < j < |lists| ensures ShareNoKey(SetOf(lists[i]), SetOf(lists[j])) {
      forall d, e | d in SetOf(lists[i]) && e in SetOf(lists[j]) ensures d.key != e.key {
        assert d in files[i].entries && e in files[j].entries;
      }
    }
    ListsMembers(files);
  }

  lemma {:induction false} ListsMembers(files: seq<File>)
    ensures Members(EntryLists(files)) == LevelEntries(files)
  {
    var lists := EntryLists(files);
    forall e ensures e in Members(lists) <==> e in LevelEntries(files) {
      if e in Members(lists) {
        var i :| 0 <= i < |lists| && e in lists[i];
        assert files[i] in files && e in files[i].entries;
      }
      if e in LevelEntries(files) {
        var f :| f in files && e in f.entries;
        var i :| 0 <= i < |files| && files[i] == f;
        assert lists[i] == f.entries;
      }
    }
  }

  // ----- the input of a compaction

  /** `MakeInputIterator`: level-0 inputs one child each, other inputs one child a level. */
  function InputLists(L: nat, I0: seq<File>, I1: seq<File>): seq<seq<Entry>>
  {
    RunsOf(L > 0, I0) + RunsOf(true, I1)
  }

  /** The merging iterator over a compaction's inputs walks the run that the drop rule is applied
      to. */
  lemma {:induction false} InputsMerge(v: Version, L: nat, I0: seq<File>, I1: seq<File>)
    requires Valid(v) && L + 1 < NUM_LEVELS && GoodInputs(v, L, I0, I1) && InOrder(L, I0, I1)
    ensures Merged(InputLists(L, I0, I1), MergeFiles(I0 + I1))
  {
    MergedInput(v, L, I0, I1);
    InputsDistinct(v, L, I0, I1);
    hide Valid, GoodInputs, MergeFiles, RunsOf, KeysDistinct, AllWellFormed, SortedLevel;
    RunsOfOk(L > 0, I0);
    RunsOfOk(true, I1);
    ChildrenConcat(RunsOf(L > 0, I0), RunsOf(true, I1));
    ChildrenMerge(InputLists(L, I0, I1), MergeFiles(I0 + I1));
  }

  lemma {:induction false} InputsDistinct(v: Version, L: nat, I0: seq<File>, I1: seq<File>)
    requires Valid(v) && L + 1 < NUM_LEVELS && GoodInputs(v, L, I0, I1)
    ensures AllWellFormed(I0) && AllWellFormed(I1) && KeysDistinct(I0)
    ensures ShareNoKey(LevelEntries(I0), LevelEntries(I1))
    ensures InputEntries(I0, I1) == LevelEntries(I0) + LevelEntries(I1)
  {
    assert NewerByNumber(v.levels[0]) && Recency(v) && Shaped(v);
    InputsShareNoKey(v, L, I0, I1);
    InputsWellFormed(v, L, I0, I1);
    assert AllWellFormed(I0) && AllWellFormed(I1) by { AllOf(I0, I1); }
    hide Valid, Shaped, NewerByNumber, Recency, GoodInputs, AllWellFormed;
    DistinctParts(I0, I1);
    assert InputEntries(I0, I1) == LevelEntries(I0) + LevelEntries(I1);
  }

  lemma {:induction false} AllOf(I0: seq<File>, I1: seq<File>)
    requires AllWellFormed(I0 + I1)
    ensures AllWellFormed(I0) && AllWellFormed(I1)
  {
    assert forall f :: f in I0 || f in I1 ==> f in I0 + I1;
  }

  lemma {:induction false} DistinctParts(I0: seq<File>, I1: seq<File>)
    requires KeysDistinct(I0 + I1)
    ensures KeysDistinct(I0) && ShareNoKey(LevelEntries(I0), LevelEntries(I1))
  {
    var files := I0 + I1;
    forall i, j, d, e | 0 <= i < j < |I0| && d in I0[i].entries && e in I0[j].entries ensures d.key != e.key {
      assert files[i] == I0[i] && files[j] == I0[j];
    }
    forall d, e | d in LevelEntries(I0) && e in LevelEntries(I1) ensures d.key != e.key {
      var f :| f in I0 && d in f.entries;
      var g :| g in I1 && e in g.entries;
      var i :| 0 <= i < |I0| && I0[i] == f;
      var j :| 0 <= j < |I1| && I1[j] == g;
      assert files[i] == f && files[|I0| + j] == g;
    }
  }

  // ----- the input of a read

  /** The runs of levels `l` and deeper. */
  function DeepRuns(v: Version, l: nat): seq<seq<Entry>>
    decreases |v.levels| - l
  {
    if l >= |v.levels| then [] else RunsOf(l > 0, v.levels[l]) + DeepRuns(v, l + 1)
  }

  /** `NewInternalIterator`: memtable, immutable memtable if there is one, tables of level 0, one run
      for each deeper level. */
  function InternalRuns(mem: seq<Entry>, imm: Option<seq<Entry>>, v: Version): seq<seq<Entry>>
  {
    [mem] + ((if imm.Some? then [imm.value] else []) + DeepRuns(v, 0))
  }

  lemma {:induction false} LevelRunsOk(v: Version, l: nat)
    requires Valid(v) && l < |v.levels|
    ensures ChildrenOk(RunsOf(l > 0, v.levels[l])) && Members(RunsOf(l > 0, v.levels[l])) == LevelEntries(v.levels[l])
  {
    if l == 0 { LevelZeroDistinct(v); }
    hide RunsOf, KeysDistinct, Recency;
    RunsOfOk(l > 0, v.levels[l]);
  }

  lemma {:induction false} LevelZeroDistinct(v: Version)
    requires Valid(v)
    ensures KeysDistinct(v.levels[0])
  {
    var files := v.levels[0];
    assert Shaped(v) && NewerByNumber(files) && Recency(v);
    LevelNumbersDistinct(v, 0);
    hide Valid, Recency, NewerByNumber, Shaped;
    forall i, j, d, e | 0 <= i < j < |files| && d in files[i].entries && e in files[j].entries ensures d.key != e.key {
      assert files[i] in files && files[j] in files && files[i] != files[j];
      FilesShareNoKey(v, 0, files[i], 0, files[j], d, e);
    }
  }

  lemma {:induction false} DeepRunsOk(v: Version, l: nat)
    requires Valid(v) && l <= |v.levels|
    ensures ChildrenOk(DeepRuns(v, l)) && Members(DeepRuns(v, l)) == EntriesFrom(v, l)
    decreases |v.levels| - l
  {
    if l < |v.levels| {
      LevelRunsOk(v, l);
      DeepRunsOk(v, l + 1);
      var A, D := LevelEntries(v.levels[l]), EntriesFrom(v, l + 1);
      assert Recency(v);
      LevelAboveDeeper(v, l, A, D);
      AboveSharesNoKey(A, D);
      hide Valid, Recency, RunsOf, ChildrenOk, Members;
      ChildrenConcat(RunsOf(l > 0, v.levels[l]), DeepRuns(v, l + 1));
      EntriesFromStep(v, l);
    }
  }

  lemma {:induction false} EntriesFromStep(v: Version, l: nat)
    requires l < |v.levels|
    ensures EntriesFrom(v, l) == LevelEntries(v.levels[l]) + EntriesFrom(v, l + 1)
  {
    hide LevelEntries;
  }

  function MergeLists(lists: seq<seq<Entry>>): seq<Entry>
  {
    if lists == [] then [] else Merge2(lists[0], MergeLists(lists[1..]))
  }

  /** Children that share no key have a sorted run of all they hold. */
  lemma {:induction false} MergeListsSorts(lists: seq<seq<Entry>>)
    requires ChildrenOk(lists)
    ensures Sorted(MergeLists(lists)) && SetOf(MergeLists(lists)) == Members(lists)
  {
    if lists != [] {
      var rest := lists[1..];
      RestOk(lists);
      MergeListsSorts(rest);
      hide Sorted, Members, ChildrenOk, ShareNoKey;
      var a, b := lists[0], MergeLists(rest);
      forall d, e | d in a && e in b ensures d.key != e.key {
        HeadSharesNone(lists, d, e) by { assert e in SetOf(b); }
      }
      MergeSets(a, b);
    }
  }

  lemma {:induction false} RestOk(lists: seq<seq<Entry>>)
    requires ChildrenOk(lists) && lists != []
    ensures ChildrenOk(lists[1..]) && Sorted(lists[0]) && Members(lists) == SetOf(lists[0]) + Members(lists[1..])
  {
    assert lists == [lists[0]] + lists[1..];
    OneChild(lists[0]);
    MembersConcat([lists[0]], lists[1..]);
    hide Sorted, Members;
    assert forall i :: 0 <= i < |lists| - 1 ==> lists[1..][i] == lists[i + 1];
  }

  lemma {:induction false} HeadSharesNone(lists: seq<seq<Entry>>, d: Entry, e: Entry)
    requires ChildrenOk(lists) && lists != [] && d in lists[0] && e in Members(lists[1..])
    ensures d.key != e.key
  {
    var i :| 0 <= i < |lists[1..]| && e in lists[1..][i];
    assert lists[1..][i] == lists[i + 1];
    assert ShareNoKey(SetOf(lists[0]), SetOf(lists[i + 1]));
  }

  /** Sorted memtables above a valid version are children of a merging iterator over everything they
      hold together. */
  lemma {:induction false} ReadsMerge(mem: seq<Entry>, imm: Option<seq<Entry>>, v: Version)
    requires Valid(v) && Sorted(mem) && Sorted(imm.GetOr([]))
    requires Above(SetOf(mem), SetOf(imm.GetOr([])) + Entries(v)) && Above(SetOf(imm.GetOr([])), Entries(v))
    ensures var lists := InternalRuns(mem, imm, v);
            && Merged(lists, MergeLists(lists)) && Sorted(MergeLists(lists))
            && SetOf(MergeLists(lists)) == SetOf(mem) + (SetOf(imm.GetOr([])) + Entries(v))
  {
    var I, A := SetOf(imm.GetOr([])), Entries(v);
    DeepRunsOk(v, 0);
    AboveSharesNoKey(SetOf(mem), I + A);
    AboveSharesNoKey(I, A);
    OneChild(mem);
    OneChild(imm.GetOr([]));
    hide Valid, Sorted, ChildrenOk, Members, ShareNoKey, SetOf, Above, DeepRuns, MergeLists, Merged;
    var first := if imm.Some? then [imm.value] else [];
    NoChild();
    ChildrenConcat(first, DeepRuns(v, 0));
    ChildrenConcat([mem], first + DeepRuns(v, 0));
    var lists := InternalRuns(mem, imm, v);
    MergeListsSorts(lists);
    ChildrenMerge(lists, MergeLists(lists));
  }

  lemma {:induction false} NoChild()
    ensures ChildrenOk([]) && Members([]) == SetOf([])
    ensures forall B :: ShareNoKey(SetOf([]), B)
  {
  }
}
