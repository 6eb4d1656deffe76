/** One compaction: picking its inputs, and the merge loop that drops entries no live
    snapshot can see. */
module CompactionWork {
  import opened Ordering
  import opened Levels
  import opened CompactionInputs
  import opened Wrappers

  const MAX_SEQUENCE: nat := 0xff_ffff_ffff_ffff

  /** No file two or more levels below the compaction's level covers `u`. */
  ghost predicate BaseLevelFor(v: Version, L: nat, u: UserKey)
  {
    forall l, f :: L + 2 <= l < |v.levels| && f in v.levels[l] ==> !(f.smallest.user <= u <= f.largest.user)
  }

  // ----- which entries survive

  /** A newer entry of the same user key is already at or below the oldest live snapshot. */
  ghost predicate Shadowed(e: Entry, I: set<Entry>, snap: nat)
  {
    exists d :: d in I && d.key.user == e.key.user && e.key.sequence < d.key.sequence <= snap
  }

  /** A deletion that no snapshot needs and under which nothing is left to delete. */
  ghost predicate Spent(e: Entry, snap: nat, base: iset<UserKey>)
  {
    e.key.kind.Deletion? && e.key.sequence <= snap && e.key.user in base
  }

  ghost function Survivors(I: set<Entry>, snap: nat, base: iset<UserKey>): set<Entry>
  {
    set e | e in I && !Shadowed(e, I, snap) && !Spent(e, snap, base)
  }

  /** Replacing `I` by its survivors changes no reading at a snapshot at or above `snap`,
      provided nothing outside `I` is older than a deletion that was dropped. */
  lemma {:induction false} SurvivorsKeepView(I: set<Entry>, R: set<Entry>, snap: nat, base: iset<UserKey>, u: UserKey,
                                             s: nat)
    requires snap <= s && UniqueSeqs(R + I)
    requires forall e, r :: e in I && r in R && e.key.user == r.key.user && Spent(e, snap, base) ==>
                              r.key.sequence > e.key.sequence
    ensures View(R + Survivors(I, snap, base), u, s) == View(R + I, u, s)
  {
    var O := Survivors(I, snap, base);
    ViewCases(R + I, u, s);
    ViewCases(R + O, u, s);
    if View(R + I, u, s) == None && forall e :: e in R + I ==> !Visible(e, u, s) {
    } else {
      var e :| Newest(R + I, u, s, e) && View(R + I, u, s) == Reading(e);
      if e in R + O {
        assert Newest(R + O, u, s, e);
        ViewOfNewest(R + O, u, s, e);
      } else {
        SpentHidesNothing(I, R, snap, base, u, s, e);
        ViewOfNone(R + O, u, s);
      }
    }
  }

  lemma {:induction false} SpentHidesNothing(I: set<Entry>, R: set<Entry>, snap: nat, base: iset<UserKey>, u: UserKey,
                                             s: nat, e: Entry)
    requires snap <= s && UniqueSeqs(R + I) && Newest(R + I, u, s, e)
    requires e !in R + Survivors(I, snap, base)
    requires forall e, r :: e in I && r in R && e.key.user == r.key.user && Spent(e, snap, base) ==>
                              r.key.sequence > e.key.sequence
    ensures Reading(e) == None
    ensures forall d :: d in R + Survivors(I, snap, base) ==> !Visible(d, u, s)
  {
    assert e in I;
    assert !Shadowed(e, I, snap) by {
      if d :| d in I && d.key.user == e.key.user && e.key.sequence < d.key.sequence <= snap {
        assert d in R + I && Visible(d, u, s);
      }
    }
    assert Spent(e, snap, base);
    forall d | d in R + Survivors(I, snap, base)
      ensures !Visible(d, u, s)
    {
    }
  }

  // ----- the drop rule of the merge loop

  /** The sequence number remembered when entry `i` is reached: that of the entry just
      before it if it has the same user key, else the largest one. */
  function LastSequence(input: seq<Entry>, i: nat): nat
    requires i < |input|
  {
    if i > 0 && input[i - 1].key.user == input[i].key.user then input[i - 1].key.sequence else MAX_SEQUENCE
  }

  ghost predicate Keeps(input: seq<Entry>, i: nat, snap: nat, base: iset<UserKey>)
    requires i < |input|
  {
    !(LastSequence(input, i) <= snap) && !Spent(input[i], snap, base)
  }

  ghost function Kept(input: seq<Entry>, n: nat, snap: nat, base: iset<UserKey>): seq<Entry>
    requires n <= |input|
  {
    if n == 0 then []
    else Kept(input, n - 1, snap, base) + (if Keeps(input, n - 1, snap, base) then [input[n - 1]] else [])
  }

  lemma {:induction false} KeptMembers(input: seq<Entry>, n: nat, snap: nat, base: iset<UserKey>, e: Entry)
    requires n <= |input|
    ensures e in Kept(input, n, snap, base) <==> exists i :: 0 <= i < n && input[i] == e && Keeps(input, i, snap, base)
  {
    if n > 0 {
      KeptMembers(input, n - 1, snap, base, e);
    }
  }

  lemma {:induction false} KeptSorted(input: seq<Entry>, n: nat, snap: nat, base: iset<UserKey>)
    requires n <= |input| && Sorted(input)
    ensures Sorted(Kept(input, n, snap, base))
    ensures forall e :: e in Kept(input, n, snap, base) ==> e in input[..n]
  {
    if n > 0 {
      KeptSorted(input, n - 1, snap, base);
      var K := Kept(input, n - 1, snap, base);
      assert input[..n] == input[..n - 1] + [input[n - 1]];
      forall i | 0 <= i < |K|
        ensures Less(K[i].key, input[n - 1].key)
      {
        assert K[i] in K;
        var j :| 0 <= j < n - 1 && input[j] == K[i];
      }
    }
  }

  /** Looking only at the previous entry decides shadowing among all of them. */
  lemma {:induction false} PreviousDecides(input: seq<Entry>, i: nat, snap: nat)
    requires i < |input| && Sorted(input) && UniqueSeqs(SetOf(input)) && snap < MAX_SEQUENCE
    ensures LastSequence(input, i) <= snap <==> Shadowed(input[i], SetOf(input), snap)
  {
    var e, I := input[i], SetOf(input);
    if LastSequence(input, i) <= snap {
      var d := input[i - 1];
      assert Less(d.key, e.key);
      assert d in I && e in I;
    }
    if Shadowed(e, I, snap) {
      var d :| d in I && d.key.user == e.key.user && e.key.sequence < d.key.sequence <= snap;
      var j :| 0 <= j < |input| && input[j] == d;
      assert j < i;
      assert j < i - 1 ==> Less(d.key, input[i - 1].key) && Less(input[i - 1].key, e.key);
    }
  }

  /** The loop keeps exactly the survivors. */
  lemma {:induction false} KeptAreSurvivors(input: seq<Entry>, snap: nat, base: iset<UserKey>)
    requires Sorted(input) && UniqueSeqs(SetOf(input)) && snap < MAX_SEQUENCE
    ensures SetOf(Kept(input, |input|, snap, base)) == Survivors(SetOf(input), snap, base)
  {
    var K, S := SetOf(Kept(input, |input|, snap, base)), Survivors(SetOf(input), snap, base);
    forall e
      ensures e in K <==> e in S
    {
      KeptMembers(input, |input|, snap, base, e);
      if i :| 0 <= i < |input| && input[i] == e && Keeps(input, i, snap, base) {
        PreviousDecides(input, i, snap);
      }
      if e in S {
        var i :| 0 <= i < |input| && input[i] == e;
        PreviousDecides(input, i, snap);
      }
    }
  }

  // ----- the rule in its own terms

  /** Some file two or more levels below covers the user key, so that an older entry may lie there. */
  ghost predicate CoveredBelow(v: Version, L: nat, u: UserKey)
  {
    exists l, f :: L + 2 <= l < |v.levels| && f in v.levels[l] && f.smallest.user <= u <= f.largest.user
  }

  /** What a compaction at level `L` with oldest snapshot `snap` leaves of its input: of each user key one entry at or
      below the snapshot at most, no deletion at or below it unless a deeper file covers the key, and everything
      else. */
  ghost predicate Distilled(v: Version, L: nat, snap: nat, input: seq<Entry>, out: seq<Entry>)
  {
    && (forall e :: e in out ==> e in input)
    && (forall e :: e in out && e.key.kind.Deletion? && e.key.sequence <= snap ==> CoveredBelow(v, L, e.key.user))
    && (forall d, e :: d in out && e in out && d.key.user == e.key.user ==>
          d.key.sequence <= snap && e.key.sequence <= snap ==> d == e)
    && (forall e :: e in input && e !in out ==>
          || (e.key.kind.Deletion? && e.key.sequence <= snap && !CoveredBelow(v, L, e.key.user))
          || OldVersion(input, snap, e))
  }

  /** Every snapshot that sees `e` sees a newer entry of its user key. */
  ghost predicate OldVersion(input: seq<Entry>, snap: nat, e: Entry)
  {
    exists d :: d in input && d.key.user == e.key.user && e.key.sequence < d.key.sequence <= snap
  }

  lemma {:induction false} KeptIsDistilled(v: Version, L: nat, snap: nat, input: seq<Entry>)
    requires Sorted(input) && UniqueSeqs(SetOf(input)) && snap < MAX_SEQUENCE
    ensures Distilled(v, L, snap, input, Kept(input, |input|, snap, BaseKeys(v, L)))
  {
    var base := BaseKeys(v, L);
    var out := Kept(input, |input|, snap, base);
    KeptAreSurvivors(input, snap, base);
    assert forall e :: e in out <==> e in SetOf(out);
    hide Kept;
    forall d, e | d in out && e in out && d.key.user == e.key.user && d.key.sequence <= snap && e.key.sequence <= snap
      ensures d == e
    {
      assert d in SetOf(input) && e in SetOf(input);
      assert !Shadowed(d, SetOf(input), snap) && !Shadowed(e, SetOf(input), snap);
    }
    forall e | e in input && e !in out
      ensures (e.key.kind.Deletion? && e.key.sequence <= snap && !CoveredBelow(v, L, e.key.user))
              || OldVersion(input, snap, e)
    {
      assert e in SetOf(input);
    }
  }

  /** The files of the next level to merge with, and the last key of this level's inputs. */
  method NextLevelInputs(v: Version, L: nat, I0: seq<File>) returns (I1: seq<File>, largest: InternalKey)
    requires Shaped(v) && L + 1 < NUM_LEVELS && |I0| > 0
    ensures I1 == NextInputs(v, L, I0) && largest == LargestKey(I0) && SortedLevel(I1)
  {
    NextInputsSorted(v, L, I0);
    hide SortedLevel;
    var smallest;
    smallest, largest := GetRange(I0);
    I1 := GetOverlappingInputs(v, L + 1, Some(smallest), Some(largest));
    I1 := AddBoundaryInputs(v.levels[L + 1], I1);
  }

  lemma {:induction false} OverlapNoRepeats(v: Version, L: nat, X: seq<File>)
    requires L < |v.levels| && Ordered(v.levels[L]) && exists b, e :: X == Touching(v.levels[L], b, e)
    ensures NoRepeats(X)
  {
    var b, e :| X == Touching(v.levels[L], b, e);
    OrderedNoRepeats(v.levels[L]);
    TouchingNoRepeats(v.levels[L], b, e);
  }

  /** The files of this level that meet the range of all inputs, with their boundary. */
  method ExpandedInputs(v: Version, L: nat, I0: seq<File>, I1: seq<File>) returns (X: seq<File>)
    requires Shaped(v) && L + 1 < NUM_LEVELS && Complete(v, L, I0)
    ensures Complete(v, L, X) && X != [] && Expansion(v, L, I0, I1, X)
    ensures forall f :: f in I0 ==> f in X
    ensures L > 0 ==> SortedLevel(X)
  {
    var allStart, allLimit := GetRange(I0 + I1);
    X := GetOverlappingInputs(v, L, Some(allStart), Some(allLimit));
    assert FileSet(X) <= FileSet(v.levels[L]);
    OverlapNoRepeats(v, L, X);
    ExpansionStartable(v, L, I0, I1, X);
    BoundaryCompletes(v, L, X);
    if L > 0 { ExpansionSorted(v.levels[L], X, Some(allStart.user), Some(allLimit.user)); }
    assert Meeting(v, L, I0 + I1, X);
    X := AddBoundaryInputs(v.levels[L], X);
  }

  lemma {:induction false} ExpansionSorted(level: seq<File>, X: seq<File>, b: Option<UserKey>, e: Option<UserKey>)
    requires AllWellFormed(level) && SortedLevel(level) && X == Touching(level, b, e)
    ensures SortedLevel(WithBoundary(level, X))
  {
    TouchingSorted(level, b, e);
    BoundarySorted(level, X);
  }

  // ----- the compaction object

  /** The wider choice: all files of the level that meet the range of the inputs so far, with their boundary; on
      level 0 their overlap closure. */
  ghost predicate Expansion(v: Version, L: nat, W: seq<File>, N: seq<File>, X: seq<File>)
    requires Shaped(v) && L < NUM_LEVELS && |W| > 0
  {
    exists Y :: Meeting(v, L, W + N, Y) && X == WithBoundary(v.levels[L], Y)
  }

  ghost predicate Meeting(v: Version, L: nat, inputs: seq<File>, Y: seq<File>)
    requires L < |v.levels| && |inputs| > 0
  {
    var b, e := Some(SmallestKey(inputs).user), Some(LargestKey(inputs).user);
    if L > 0 then Y == Touching(v.levels[L], b, e) else LeastClosed(FileSet(Y), v.levels[0], b, e)
  }

  /** The files given, with their boundary; or the wider choice, exactly if it has more files, stays within the limit
      and meets no more files of the next level. */
  ghost predicate Chosen(v: Version, L: nat, given: seq<File>, I0: seq<File>, limit: nat)
    requires Shaped(v) && L + 1 < NUM_LEVELS
  {
    var W := WithBoundary(v.levels[L], given);
    && W != []
    && var N := NextInputs(v, L, W);
       if N == [] then I0 == W
       else exists X :: X != [] && Expansion(v, L, W, N, X) && I0 == if Widens(v, L, W, N, X, limit) then X else W
  }

  ghost predicate Widens(v: Version, L: nat, W: seq<File>, N: seq<File>, X: seq<File>, limit: nat)
    requires Shaped(v) && L + 1 < NUM_LEVELS && X != []
  {
    |X| > |W| && TotalSize(N) + TotalSize(X) < limit && |NextInputs(v, L, X)| == |N|
  }

  class Compaction {
    const level: nat
    const version: Version
    const levelPtrs: array<nat>
    var inputs0: seq<File>
    var inputs1: seq<File>
    var grandparents: seq<File>       // files two levels down that the inputs overlap
    var grandparentIndex: nat
    var seenKey: bool
    var overlappedBytes: nat
    ghost var overlapFrom: nat        // the first grandparent counted

    ghost predicate Valid()
      reads this, levelPtrs
    {
      && level + 1 < NUM_LEVELS
      && Shaped(version)
      && levelPtrs.Length == NUM_LEVELS
      && forall l :: 0 <= l < NUM_LEVELS ==> levelPtrs[l] <= |version.levels[l]|
    }

    /** Every file already passed ends before `u`. */
    ghost predicate Behind(u: UserKey)
      requires Valid()
      reads this, levelPtrs
    {
      forall l, i :: level + 2 <= l < NUM_LEVELS && 0 <= i < levelPtrs[l] ==> version.levels[l][i].largest.user < u
    }

    ghost predicate GrandparentsOk()
      reads this
    {
      AllWellFormed(grandparents) && SortedLevel(grandparents)
    }

    ghost predicate Unstarted()
      reads this
    {
      grandparentIndex == 0 && !seenKey && overlappedBytes == 0 && overlapFrom == 0
    }

    /** The bytes counted are those of the grandparents passed since counting began. */
    ghost predicate Counting()
      reads this
    {
      && overlapFrom <= grandparentIndex <= |grandparents|
      && overlappedBytes == TotalSize(grandparents[overlapFrom..grandparentIndex])
      && (!seenKey ==> overlapFrom == grandparentIndex == 0)
    }

    /** All grandparents passed end before the key. */
    ghost predicate PassedOnly(key: InternalKey)
      requires grandparentIndex <= |grandparents|
      reads this
    {
      forall j :: 0 <= j < grandparentIndex ==> Less(grandparents[j].largest, key)
    }

    constructor (version: Version, level: nat, inputs0: seq<File>)
      requires Shaped(version) && level + 1 < NUM_LEVELS
      ensures Valid() && fresh(levelPtrs)
      ensures this.version == version && this.level == level && this.inputs0 == inputs0 && inputs1 == []
      ensures (forall u :: Behind(u)) && Unstarted() && GrandparentsOk()
    {
      this.version := version;
      this.level := level;
      this.inputs0 := inputs0;
      inputs1, grandparents := [], [];
      grandparentIndex, seenKey, overlappedBytes, overlapFrom := 0, false, 0, 0;
      levelPtrs := new nat[NUM_LEVELS](_ => 0);
    }

    /** `VersionSet::SetupOtherInputs`: boundary files, overlapping files of the next level,
        and a wider choice of this level's files when that needs no more of the next. The
        result is the compaction pointer. */
    method SetupOtherInputs(expandedLimit: nat) returns (pointer: InternalKey)
      requires Valid() && Startable(version, level, inputs0)
      modifies this
      ensures Valid() && Paired(version, level, inputs0, inputs1)
      ensures forall f :: f in old(inputs0) ==> f in inputs0
      ensures pointer == LargestKey(inputs0)
      ensures Chosen(version, level, old(inputs0), inputs0, expandedLimit)
      ensures grandparents == Grandparents(version, level, inputs0 + inputs1) && GrandparentsOk()
      ensures unchanged(this`grandparentIndex, this`seenKey, this`overlappedBytes, this`overlapFrom)
      ensures (level > 0 ==> SortedLevel(old(inputs0))) ==> InOrder(level, inputs0, inputs1)
    {
      hide SortedLevel, NextInputs, WithBoundary, TotalSize, Complete, Startable, Expansion, LargestKey;
      ghost var given := inputs0;
      if level > 0 && SortedLevel(inputs0) { BoundarySorted(version.levels[level], inputs0); }
      BoundaryCompletes(version, level, inputs0);
      inputs0 := AddBoundaryInputs(version.levels[level], inputs0);
      inputs1, pointer := NextLevelInputs(version, level, inputs0);
      if |inputs1| > 0 {
        var expanded0 := ExpandedInputs(version, level, inputs0, inputs1);
        ghost var W, N := inputs0, inputs1;
        if |expanded0| > |inputs0| && TotalSize(inputs1) + TotalSize(expanded0) < expandedLimit {
          var expanded1, newLimit := NextLevelInputs(version, level, expanded0);
          if |expanded1| == |inputs1| {
            pointer := newLimit;
            inputs0 := expanded0;
            inputs1 := expanded1;
          }
        }
        assert inputs0 == if Widens(version, level, W, N, expanded0, expandedLimit) then expanded0 else W;
      }
      assert Chosen(version, level, given, inputs0, expandedLimit);
      grandparents := OverlappedBelow(version, level, inputs0 + inputs1);
    }

    /** `IsTrivialMove`: one file, nothing to merge it with, and not too much under it. */
    predicate IsTrivialMove(limit: nat)
      reads this
    {
      |inputs0| == 1 && |inputs1| == 0 && TotalSize(grandparents) <= limit
    }

    /** `ShouldStopBefore`: grandparents that end before the key are passed and, from the second key on, counted;
        too many bytes end the output and start the count again. */
    method ShouldStopBefore(key: InternalKey, limit: nat) returns (stop: bool)
      requires Counting() && PassedOnly(key)
      modifies this`grandparentIndex, this`seenKey, this`overlappedBytes, this`overlapFrom
      ensures Counting() && PassedOnly(key) && seenKey && grandparentIndex >= old(grandparentIndex)
      ensures grandparentIndex < |grandparents| ==> !Less(grandparents[grandparentIndex].largest, key)
      ensures var from := if old(seenKey) then old(overlapFrom) else grandparentIndex;
              && (stop <==> TotalSize(grandparents[from..grandparentIndex]) > limit)
              && overlapFrom == if stop then grandparentIndex else from
    {
      while grandparentIndex < |grandparents| && Less(grandparents[grandparentIndex].largest, key)
        invariant grandparentIndex <= |grandparents| && PassedOnly(key) && grandparentIndex >= old(grandparentIndex)
        invariant seenKey ==> overlapFrom == old(overlapFrom) <= grandparentIndex
        invariant seenKey ==> overlappedBytes == TotalSize(grandparents[overlapFrom..grandparentIndex])
        invariant seenKey == old(seenKey) && (!seenKey ==> overlappedBytes == 0)
      {
        if seenKey {
          CountOne(grandparents, overlapFrom, grandparentIndex);
          overlappedBytes := overlappedBytes + grandparents[grandparentIndex].size;
        }
        grandparentIndex := grandparentIndex + 1;
      }
      if !seenKey {
        overlapFrom := grandparentIndex;
      }
      assert grandparents[grandparentIndex..grandparentIndex] == [];
      seenKey := true;
      stop := overlappedBytes > limit;
      if stop {
        overlappedBytes, overlapFrom := 0, grandparentIndex;
      }
    }

    /** `IsBaseLevelForKey`. The remembered positions only move forward, yet for keys asked
        in non-decreasing order the answer is that of a full scan of the deeper levels. */
    method IsBaseLevelForKey(u: UserKey) returns (base: bool)
      requires Valid() && Behind(u)
      modifies levelPtrs
      ensures Valid() && Behind(u)
      ensures base <==> BaseLevelFor(version, level, u)
    {
      for l := level + 2 to NUM_LEVELS
        invariant Valid() && Behind(u)
        invariant forall m, f :: level + 2 <= m < l && f in version.levels[m] ==>
                  !(f.smallest.user <= u <= f.largest.user)
      {
        var files := version.levels[l];
        while levelPtrs[l] < |files|
          invariant Valid() && Behind(u)
          decreases |files| - levelPtrs[l]
        {
          var f := files[levelPtrs[l]];
          if u <= f.largest.user {
            if f.smallest.user <= u {
              assert f in version.levels[l];
              return false;
            }
            break;
          }
          levelPtrs[l] := levelPtrs[l] + 1;
        }
        PointerDecides(files, levelPtrs[l], u);
      }
      base := true;
    }
  }

  /** The files two levels down that meet the range of the inputs. */
  function Grandparents(v: Version, L: nat, inputs: seq<File>): seq<File>
    requires |inputs| > 0
  {
    if L + 2 < |v.levels| then Touching(v.levels[L + 2], Some(SmallestKey(inputs).user), Some(LargestKey(inputs).user))
    else []
  }

  method OverlappedBelow(v: Version, L: nat, inputs: seq<File>) returns (r: seq<File>)
    requires Shaped(v) && |inputs| > 0
    ensures r == Grandparents(v, L, inputs) && AllWellFormed(r) && SortedLevel(r)
    ensures forall f :: f in r <==> L + 2 < NUM_LEVELS && f in v.levels[L + 2]
                                    && SmallestKey(inputs).user <= f.largest.user
                                       && f.smallest.user <= LargestKey(inputs).user
  {
    r := [];
    if L + 2 < NUM_LEVELS {
      var smallest, largest := GetRange(inputs);
      r := GetOverlappingInputs(v, L + 2, Some(smallest), Some(largest));
      TouchingSorted(v.levels[L + 2], Some(smallest.user), Some(largest.user));
    }
  }

  lemma {:induction false} CountOne(files: seq<File>, from: nat, i: nat)
    requires from <= i < |files|
    ensures TotalSize(files[from..i + 1]) == TotalSize(files[from..i]) + files[i].size
  {
    assert files[from..i + 1] == files[from..i] + [files[i]];
    TotalSizeSnoc(files[from..i], files[i]);
  }

  /** Files before the pointer end before `u` and the file at the pointer, if any, starts
      after it: then no file of the sorted level covers `u`. */
  lemma {:induction false} PointerDecides(files: seq<File>, p: nat, u: UserKey)
    requires AllWellFormed(files) && SortedLevel(files) && p <= |files|
    requires forall i :: 0 <= i < p ==> files[i].largest.user < u
    requires p < |files| ==> u < files[p].smallest.user
    ensures forall f :: f in files ==> !(f.smallest.user <= u <= f.largest.user)
  {
    forall f | f in files
      ensures !(f.smallest.user <= u <= f.largest.user)
    {
      var i :| 0 <= i < |files| && files[i] == f;
      if i > p {
        LevelOrder(files, p, i);
        UserRange(files[p]);
      }
    }
  }

  lemma {:induction false} ExpansionStartable(v: Version, L: nat, I0: seq<File>, I1: seq<File>, X: seq<File>)
    requires Shaped(v) && L + 1 < NUM_LEVELS && Complete(v, L, I0)
    requires var b, e := Some(SmallestKey(I0 + I1).user), Some(LargestKey(I0 + I1).user);
             && (L > 0 ==> X == Touching(v.levels[L], b, e))
             && (L == 0 ==> OverlapClosed(FileSet(X), v.levels[0], b, e))
             && FileSet(X) <= FileSet(v.levels[L]) && NoRepeats(X)
    ensures Startable(v, L, X)
    ensures forall f :: f in I0 ==> f in X
  {
    forall f | f in I0
      ensures f in X
    {
      InHull(I0 + I1, f);
      UserRange(f);
      assert Touches(f, Some(SmallestKey(I0 + I1).user), Some(LargestKey(I0 + I1).user));
    }
    assert I0[0] in X;
    if L > 0 {
      TouchingConvex(v.levels[L], Some(SmallestKey(I0 + I1).user), Some(LargestKey(I0 + I1).user));
    } else {
      forall f, g | f in X && g in v.levels[0] && UserOverlap(f, g)
        ensures g in X
      {
        assert f in FileSet(X) && f in FileSet(v.levels[0]);
      }
    }
    forall f | f in X ensures f in v.levels[L] { assert f in FileSet(X); }
  }

  // ----- the merge loop

  /** Keys under which dropping a deletion uncovers nothing. */
  ghost function BaseKeys(v: Version, L: nat): iset<UserKey>
  {
    iset u | BaseLevelFor(v, L, u)
  }

  function Flat(files: seq<File>): seq<Entry>
  {
    if files == [] then [] else Flat(files[..|files| - 1]) + files[|files| - 1].entries
  }

  /** A finished output: metadata taken from the first and last entry added. */
  predicate Output(f: File, number: nat)
  {
    && f.number == number
    && |f.entries| > 0
    && f.smallest == f.entries[0].key
    && f.largest == f.entries[|f.entries| - 1].key
  }

  function Finish(number: nat, size: seq<Entry> -> nat, es: seq<Entry>): (f: File)
    requires |es| > 0
    ensures Output(f, number) && f.entries == es
  {
    File(number, size(es), es[0].key, es[|es| - 1].key, es)
  }

  /** The finished outputs and the one being filled hold `K` between them. */
  ghost predicate Holding(outputs: seq<File>, current: seq<Entry>, number: nat -> nat, K: seq<Entry>)
  {
    && (forall k :: 0 <= k < |outputs| ==> Output(outputs[k], number(k)))
    && Flat(outputs) + current == K
  }

  /** Closes the output being filled, if there is one. */
  function Cut(outputs: seq<File>, current: seq<Entry>, number: nat -> nat, size: seq<Entry> -> nat): seq<File>
  {
    if |current| > 0 then outputs + [Finish(number(|outputs|), size, current)] else outputs
  }

  lemma {:induction false} CutHolds(outputs: seq<File>, current: seq<Entry>, number: nat -> nat,
                                    size: seq<Entry> -> nat, K: seq<Entry>)
    requires Holding(outputs, current, number, K)
    ensures Holding(Cut(outputs, current, number, size), [], number, K)
  {
    var r := Cut(outputs, current, number, size);
    if |current| > 0 {
      assert r[..|r| - 1] == outputs;
    }
  }

  /** The drop rule: an entry goes when a newer one is already below every snapshot, or when
      it is a deletion with nothing underneath. */
  method ShouldDrop(c: Compaction, e: Entry, last: nat, snap: nat) returns (drop: bool)
    requires c.Valid() && c.Behind(e.key.user)
    modifies c.levelPtrs
    ensures c.Valid() && c.Behind(e.key.user)
    ensures drop <==>
              last <= snap
                  || (e.key.kind.Deletion? && e.key.sequence <= snap && !CoveredBelow(c.version, c.level, e.key.user))
    ensures drop <==> last <= snap || Spent(e, snap, BaseKeys(c.version, c.level))
  {
    drop := false;
    if last <= snap {
      drop := true;
    } else if e.key.kind.Deletion? && e.key.sequence <= snap {
      drop := c.IsBaseLevelForKey(e.key.user);
    }
  }

  lemma {:induction false} KeptStep(input: seq<Entry>, i: nat, snap: nat, base: iset<UserKey>, last: nat)
    requires i < |input| && last == LastSequence(input, i)
    ensures Kept(input, i + 1, snap, base) ==
            if last <= snap || Spent(input[i], snap, base) then Kept(input, i, snap, base)
            else Kept(input, i, snap, base) + [input[i]]
  {
  }

  // ----- where outputs end

  /** How large a file of some entries gets and may get; the grandparents, and how many bytes of them one output may
      overlap. */
  datatype Limits = Limits(size: seq<Entry> -> nat, maxFileSize: nat, grandparents: seq<File>, maxOverlap: nat)

  /** The bytes of the files that end from `lo` on and before `hi`. */
  function BytesBetween(files: seq<File>, lo: InternalKey, hi: InternalKey): nat
  {
    if files == [] then 0
    else
      (if !Less(files[0].largest, lo) && Less(files[0].largest, hi) then files[0].size
          else 0) + BytesBetween(files[1..], lo, hi)
  }

  ghost predicate OverlapsLittle(lim: Limits, es: seq<Entry>)
  {
    es != [] ==> BytesBetween(lim.grandparents, es[0].key, es[|es| - 1].key) <= lim.maxOverlap
  }

  /** An output was closed as soon as it reached its size, and overlaps few enough bytes of grandparents. */
  ghost predicate RightSize(lim: Limits, es: seq<Entry>)
  {
    (forall j :: 0 < j < |es| ==> lim.size(es[..j]) < lim.maxFileSize) && OverlapsLittle(lim, es)
  }

  /** The output being filled has not reached its size. */
  ghost predicate StillOpen(lim: Limits, es: seq<Entry>)
  {
    (forall j :: 0 < j <= |es| ==> lim.size(es[..j]) < lim.maxFileSize) && OverlapsLittle(lim, es)
  }

  /** Why an output was closed: it had reached its size, or the next keys of the input overlap too much with it. */
  ghost predicate HadToEnd(lim: Limits, input: seq<Entry>, es: seq<Entry>)
  {
    || lim.size(es) >= lim.maxFileSize
    || exists lo, e :: e in input && Crowded(lim, es, lo, e.key)
  }

  ghost predicate Crowded(lim: Limits, es: seq<Entry>, lo: InternalKey, hi: InternalKey)
  {
    es != [] && AtMost(lo, es[0].key) && Less(es[|es| - 1].key, hi)
        && BytesBetween(lim.grandparents, lo, hi) > lim.maxOverlap
  }

  ghost predicate CutRight(lim: Limits, input: seq<Entry>, outputs: seq<File>, current: seq<Entry>)
  {
    && (forall k :: 0 <= k < |outputs| ==>
       RightSize(lim, outputs[k].entries) && HadToEnd(lim, input, outputs[k].entries))
    && StillOpen(lim, current)
  }

  /** Files passed since `from` are those that end from `lo` on and before `hi`. */
  lemma {:induction false} BytesAreCounted(files: seq<File>, lo: InternalKey, hi: InternalKey, from: nat, to: nat)
    requires from <= to <= |files|
    requires forall j :: 0 <= j < from ==> Less(files[j].largest, lo)
    requires forall j :: to <= j < |files| ==> !Less(files[j].largest, hi)
    ensures BytesBetween(files, lo, hi) <= TotalSize(files[from..to])
    ensures (forall j :: from <= j < to ==> !Less(files[j].largest, lo) && Less(files[j].largest, hi)) ==>
              BytesBetween(files, lo, hi) == TotalSize(files[from..to])
  {
    if files != [] {
      var rest := files[1..];
      if from > 0 {
        BytesAreCounted(rest, lo, hi, from - 1, to - 1);
        assert rest[from - 1..to - 1] == files[from..to];
      } else if to > 0 {
        BytesAreCounted(rest, lo, hi, 0, to - 1);
        assert files[0..to][1..] == rest[0..to - 1];
      } else {
        BytesAreCounted(rest, lo, hi, 0, 0);
        assert rest[0..0] == [] && files[0..0] == [];
      }
    }
  }

  /** What the count of grandparents says about the open output: it began after the last of those not counted, and
      counting began at `lo`, no later. */
  ghost predicate Tracks(lim: Limits, from: nat, to: nat, current: seq<Entry>, lo: InternalKey, key: InternalKey)
  {
    && from <= to <= |lim.grandparents| && TotalSize(lim.grandparents[from..to]) <= lim.maxOverlap
    && (forall j :: 0 <= j < from ==> Less(lim.grandparents[j].largest, lo))
    && (forall j :: from <= j < |lim.grandparents| ==> !Less(lim.grandparents[j].largest, lo))
    && (forall j :: 0 <= j < to ==> Less(lim.grandparents[j].largest, key))
    && (forall j :: to <= j < |lim.grandparents| ==> !Less(lim.grandparents[j].largest, key))
    && (current != [] ==> AtMost(lo, current[0].key))
  }

  /** Adding the next entry keeps the overlap small. */
  lemma {:induction false} StaysSmall(lim: Limits, from: nat, to: nat, current: seq<Entry>, lo: InternalKey, e: Entry)
    requires Tracks(lim, from, to, current, lo, e.key) && AtMost(lo, e.key)
    ensures OverlapsLittle(lim, current + [e])
  {
    var es := current + [e];
    forall j | 0 <= j < from ensures Less(lim.grandparents[j].largest, es[0].key) {
      assert AtMost(lo, es[0].key);
    }
    BytesAreCounted(lim.grandparents, es[0].key, e.key, from, to);
  }

  /** The first grandparent not passed ends at the key or later, and so do all after it. */
  lemma {:induction false} NonePassedAfter(gps: seq<File>, to: nat, key: InternalKey)
    requires AllWellFormed(gps) && SortedLevel(gps) && to <= |gps|
    requires to < |gps| ==> !Less(gps[to].largest, key)
    ensures forall j :: to <= j < |gps| ==> !Less(gps[j].largest, key)
  {
    forall j | to <= j < |gps|
      ensures !Less(gps[j].largest, key)
    {
      if to < j {
        LevelOrder(gps, to, j);
        assert AtMost(gps[j].smallest, gps[j].largest) by { assert gps[j] in gps; }
      }
    }
  }

  lemma {:induction false} StopIsCrowded(lim: Limits, input: seq<Entry>, from: nat, was: nat, to: nat, es: seq<Entry>,
                                         lo: InternalKey, prev: InternalKey, e: Entry)
    requires Tracks(lim, from, was, es, lo, prev) && was <= to <= |lim.grandparents| && e in input
    requires TotalSize(lim.grandparents[from..to]) > lim.maxOverlap
    requires forall j :: 0 <= j < to ==> Less(lim.grandparents[j].largest, e.key)
    requires forall j :: to <= j < |lim.grandparents| ==> !Less(lim.grandparents[j].largest, e.key)
    requires es != [] && Less(es[|es| - 1].key, e.key)
    ensures HadToEnd(lim, input, es)
  {
    BytesAreCounted(lim.grandparents, lo, e.key, from, to);
    assert Crowded(lim, es, lo, e.key);
  }

  lemma {:induction false} CutStaysRight(lim: Limits, input: seq<Entry>, outputs: seq<File>, current: seq<Entry>,
                                         number: nat -> nat)
    requires CutRight(lim, input, outputs, []) && RightSize(lim, current)
    requires current != [] ==> HadToEnd(lim, input, current)
    ensures CutRight(lim, input, Cut(outputs, current, number, lim.size), [])
  {
  }

  /** The count of grandparents and the open output agree before the entry at `i` is looked at. */
  ghost predicate InStep(c: Compaction, lim: Limits, input: seq<Entry>, i: nat, current: seq<Entry>, lo: InternalKey)
    requires i <= |input|
    reads c
  {
    && c.grandparents == lim.grandparents && c.GrandparentsOk() && c.Counting() && (c.seenKey <==> i > 0)
    && (i == 0 ==> current == [])
    && (i > 0 ==> Tracks(lim, c.overlapFrom, c.grandparentIndex, current, lo, input[i - 1].key))
    && (i > 0 ==> AtMost(lo, input[i - 1].key))
    && (current != [] ==> i > 0 && AtMost(current[|current| - 1].key, input[i - 1].key))
  }

  /** The first step for an entry: close the open output if the entry would make it overlap too much. */
  method StopIfCrowded(c: Compaction, lim: Limits, input: seq<Entry>, i: nat, outputs: seq<File>, current: seq<Entry>,
                       number: nat -> nat, ghost lo: InternalKey, ghost K: seq<Entry>)
    returns (outputs': seq<File>, current': seq<Entry>, ghost lo': InternalKey)
    requires i < |input| && Sorted(input) && InStep(c, lim, input, i, current, lo)
    requires Holding(outputs, current, number, K) && CutRight(lim, input, outputs, current)
    modifies c`grandparentIndex, c`seenKey, c`overlappedBytes, c`overlapFrom
    ensures Holding(outputs', current', number, K) && CutRight(lim, input, outputs', current')
    ensures c.grandparents == lim.grandparents && c.GrandparentsOk() && c.Counting() && c.seenKey
    ensures Tracks(lim, c.overlapFrom, c.grandparentIndex, current', lo', input[i].key) && AtMost(lo', input[i].key)
    ensures current' != [] ==> i > 0 && AtMost(current'[|current'| - 1].key, input[i - 1].key)
  {
    hide BytesBetween, SortedLevel, Holding, Flat, CutRight, Tracks;
    var key := input[i].key;
    assert i > 0 ==> Less(input[i - 1].key, key);
    if i > 0 { TracksPassed(lim, c.overlapFrom, c.grandparentIndex, current, lo, input[i - 1].key, key); }
    assert c.PassedOnly(key);
    ghost var from, was := c.overlapFrom, c.grandparentIndex;
    var stop := c.ShouldStopBefore(key, lim.maxOverlap);
    NonePassedAfter(lim.grandparents, c.grandparentIndex, key);
    outputs', current', lo' := outputs, current, if i == 0 || stop then key else lo;
    if stop {
      StopClosed(lim, input, i, outputs, current, from, was, c.grandparentIndex, lo, number);
      CutHolds(outputs, current, number, lim.size, K);
      outputs', current' := Cut(outputs, current, number, lim.size), [];
      TracksAfresh(lim, c.grandparentIndex, key);
    } else if i == 0 {
      TracksAfresh(lim, c.grandparentIndex, key);
    } else {
      TracksOn(lim, from, was, c.grandparentIndex, current, lo, input[i - 1].key, key);
    }
  }

  lemma {:induction false} TracksPassed(lim: Limits, from: nat, to: nat, current: seq<Entry>, lo: InternalKey,
                                        prev: InternalKey, key: InternalKey)
    requires Tracks(lim, from, to, current, lo, prev) && Less(prev, key)
    ensures to <= |lim.grandparents| && forall j :: 0 <= j < to ==> Less(lim.grandparents[j].largest, key)
  {
  }

  /** Counting starts again at the key. */
  lemma {:induction false} TracksAfresh(lim: Limits, to: nat, key: InternalKey)
    requires to <= |lim.grandparents|
    requires forall j :: 0 <= j < to ==> Less(lim.grandparents[j].largest, key)
    requires forall j :: to <= j < |lim.grandparents| ==> !Less(lim.grandparents[j].largest, key)
    ensures Tracks(lim, to, to, [], key, key)
  {
    assert lim.grandparents[to..to] == [];
  }

  /** Counting goes on. */
  lemma {:induction false} TracksOn(lim: Limits, from: nat, was: nat, to: nat, current: seq<Entry>, lo: InternalKey,
                                    prev: InternalKey, key: InternalKey)
    requires Tracks(lim, from, was, current, lo, prev) && was <= to <= |lim.grandparents|
    requires TotalSize(lim.grandparents[from..to]) <= lim.maxOverlap
    requires forall j :: 0 <= j < to ==> Less(lim.grandparents[j].largest, key)
    requires forall j :: to <= j < |lim.grandparents| ==> !Less(lim.grandparents[j].largest, key)
    ensures Tracks(lim, from, to, current, lo, key)
  {
    hide TotalSize;
  }

  /** The output closed before entry `i` had to end there. */
  lemma {:induction false} StopClosed(lim: Limits, input: seq<Entry>, i: nat, outputs: seq<File>, current: seq<Entry>,
                                      from: nat, was: nat, to: nat, lo: InternalKey, number: nat -> nat)
    requires i < |input| && (i == 0 ==> current == []) && CutRight(lim, input, outputs, current)
    requires i > 0 ==> Tracks(lim, from, was, current, lo, input[i - 1].key) && Less(input[i - 1].key, input[i].key)
    requires current != [] ==> AtMost(current[|current| - 1].key, input[i - 1].key)
    requires from <= to && was <= to <= |lim.grandparents| && TotalSize(lim.grandparents[from..to]) > lim.maxOverlap
    requires forall j :: 0 <= j < to ==> Less(lim.grandparents[j].largest, input[i].key)
    requires forall j :: to <= j < |lim.grandparents| ==> !Less(lim.grandparents[j].largest, input[i].key)
    ensures CutRight(lim, input, Cut(outputs, current, number, lim.size), [])
  {
    hide TotalSize, BytesBetween, Tracks, HadToEnd;
    if current != [] {
      StopIsCrowded(lim, input, from, was, to, current, lo, input[i - 1].key, input[i]);
    }
    CutStaysRight(lim, input, outputs, current, number);
  }

  /** An entry that is kept goes to the open output, which is closed when that makes it large enough. */
  method AddToOutput(lim: Limits, ghost input: seq<Entry>, outputs: seq<File>, current: seq<Entry>, e: Entry,
                     number: nat -> nat, ghost K: seq<Entry>)
    returns (outputs': seq<File>, current': seq<Entry>)
    requires Holding(outputs, current, number, K) && CutRight(lim, input, outputs, current)
    requires OverlapsLittle(lim, current + [e])
    ensures Holding(outputs', current', number, K + [e]) && CutRight(lim, input, outputs', current')
    ensures current' == if lim.size(current + [e]) >= lim.maxFileSize then [] else current + [e]
  {
    hide OverlapsLittle;
    outputs', current' := outputs, current + [e];
    assert Flat(outputs) + (current + [e]) == (Flat(outputs) + current) + [e];
    assert current'[..|current'|] == current';
    assert forall j :: 0 < j <= |current| ==> current'[..j] == current[..j];
    assert RightSize(lim, current');
    if lim.size(current') >= lim.maxFileSize {
      CutHolds(outputs', current', number, lim.size, K + [e]);
      assert OverlapsLittle(lim, []) by { NothingOverlaps(lim); }
      CutStaysRight(lim, input, outputs', current', number);
      outputs', current' := Cut(outputs', current', number, lim.size), [];
    }
  }

  lemma {:induction false} NothingOverlaps(lim: Limits)
    ensures OverlapsLittle(lim, [])
  {
  }

  /** The drop rule for the entry at `i`, and the entry added to the open output unless it is dropped. */
  method KeepOrDrop(c: Compaction, lim: Limits, input: seq<Entry>, i: nat, outputs: seq<File>, current: seq<Entry>,
                    number: nat -> nat, last: nat, snap: nat, ghost lo: InternalKey)
    returns (outputs': seq<File>, current': seq<Entry>)
    requires c.Valid() && i < |input| && c.Behind(input[i].key.user) && last == LastSequence(input, i)
    requires Holding(outputs, current, number, Kept(input, i, snap, BaseKeys(c.version, c.level)))
    requires CutRight(lim, input, outputs, current)
    requires Tracks(lim, c.overlapFrom, c.grandparentIndex, current, lo, input[i].key) && AtMost(lo, input[i].key)
    requires current != [] ==> AtMost(current[|current| - 1].key, input[i].key)
    modifies c.levelPtrs
    ensures c.Valid() && c.Behind(input[i].key.user)
    ensures Holding(outputs', current', number, Kept(input, i + 1, snap, BaseKeys(c.version, c.level)))
    ensures CutRight(lim, input, outputs', current')
    ensures Tracks(lim, c.overlapFrom, c.grandparentIndex, current', lo, input[i].key)
    ensures current' != [] ==> AtMost(current'[|current'| - 1].key, input[i].key)
  {
    hide CutRight, Holding, Kept, BaseKeys, Spent, OverlapsLittle, CoveredBelow;
    ghost var base := BaseKeys(c.version, c.level);
    var drop := ShouldDrop(c, input[i], last, snap);
    KeptStep(input, i, snap, base, last);
    outputs', current' := outputs, current;
    if !drop {
      StaysSmall(lim, c.overlapFrom, c.grandparentIndex, current, lo, input[i]);
      outputs', current' := AddToOutput(lim, input, outputs, current, input[i], number, Kept(input, i, snap, base));
    }
  }

  /** The merge loop of `DBImpl::DoCompactionWork`: the kept entries, cut into outputs. */
  method MergeLoop(c: Compaction, lim: Limits, input: seq<Entry>, snap: nat, number: nat -> nat)
    returns (outputs: seq<File>, current: seq<Entry>)
    requires c.Valid() && (forall u :: c.Behind(u)) && Sorted(input)
    requires c.Unstarted() && c.GrandparentsOk() && lim.grandparents == c.grandparents
    modifies c`grandparentIndex, c`seenKey, c`overlappedBytes, c`overlapFrom, c.levelPtrs
    ensures c.Valid()
    ensures Holding(outputs, current, number, Kept(input, |input|, snap, BaseKeys(c.version, c.level)))
    ensures CutRight(lim, input, outputs, current)
  {
    hide CutRight, Holding, Kept, BaseKeys, Tracks, BytesBetween, SortedLevel, AllWellFormed;
    outputs, current := [], [];
    NothingYet(lim, input, number, snap, BaseKeys(c.version, c.level));
    var hasUserKey, userKey, last := false, 0.0, MAX_SEQUENCE;
    ghost var lo := InternalKey(0.0, 0, Deletion);
    for i := 0 to |input|
      invariant c.Valid() && (i < |input| ==> c.Behind(input[i].key.user))
      invariant InStep(c, lim, input, i, current, lo)
      invariant Holding(outputs, current, number, Kept(input, i, snap, BaseKeys(c.version, c.level)))
      invariant CutRight(lim, input, outputs, current)
      invariant hasUserKey <==> i > 0
      invariant i > 0 ==> userKey == input[i - 1].key.user && last == input[i - 1].key.sequence
    {
      outputs, current, lo := StopIfCrowded(c, lim, input, i, outputs, current, number, lo,
                                            Kept(input, i, snap, BaseKeys(c.version, c.level)));
      var e := input[i];
      if !hasUserKey || e.key.user != userKey {
        userKey, hasUserKey, last := e.key.user, true, MAX_SEQUENCE;
      }
      outputs, current := KeepOrDrop(c, lim, input, i, outputs, current, number, last, snap, lo);
      last := e.key.sequence;
      assert i + 1 < |input| ==> Less(input[i].key, input[i + 1].key);
    }
  }

  lemma {:induction false} NothingYet(lim: Limits, input: seq<Entry>, number: nat -> nat, snap: nat,
                                      base: iset<UserKey>)
    ensures Holding([], [], number, Kept(input, 0, snap, base)) && CutRight(lim, input, [], [])
  {
  }

  /** Every output has the right size, and every one but the last had to end where it did. */
  ghost predicate WellCut(lim: Limits, input: seq<Entry>, outputs: seq<File>)
  {
    && (forall k :: 0 <= k < |outputs| ==> RightSize(lim, outputs[k].entries))
    && (forall k :: 0 <= k < |outputs| - 1 ==> HadToEnd(lim, input, outputs[k].entries))
  }

  lemma {:induction false} LastCut(lim: Limits, input: seq<Entry>, outputs: seq<File>, current: seq<Entry>,
                                   number: nat -> nat)
    requires CutRight(lim, input, outputs, current)
    ensures WellCut(lim, input, Cut(outputs, current, number, lim.size))
  {
  }

  /** `DBImpl::DoCompactionWork` on the merged input. */
  method DoCompactionWork(c: Compaction, lim: Limits, input: seq<Entry>, snap: nat, number: nat -> nat)
    returns (outputs: seq<File>)
    requires c.Valid() && (forall u :: c.Behind(u)) && Sorted(input)
    requires c.Unstarted() && c.GrandparentsOk() && lim.grandparents == c.grandparents
    modifies c`grandparentIndex, c`seenKey, c`overlappedBytes, c`overlapFrom, c.levelPtrs
    ensures c.Valid()
    ensures Holding(outputs, [], number, Kept(input, |input|, snap, BaseKeys(c.version, c.level)))
    ensures UniqueSeqs(SetOf(input)) && snap < MAX_SEQUENCE ==>
              Distilled(c.version, c.level, snap, input, Flat(outputs))
    ensures WellCut(lim, input, outputs)
  {
    hide Kept, BaseKeys, Distilled, Output, WellCut, CutRight, UniqueSeqs, Sorted;
    var current;
    outputs, current := MergeLoop(c, lim, input, snap, number);
    ghost var K := Kept(input, |input|, snap, BaseKeys(c.version, c.level));
    CutHolds(outputs, current, number, lim.size, K);
    LastCut(lim, input, outputs, current, number);
    outputs := Cut(outputs, current, number, lim.size);
    assert Flat(outputs) == K;
    if UniqueSeqs(SetOf(input)) && snap < MAX_SEQUENCE {
      KeptIsDistilled(c.version, c.level, snap, input);
    }
  }

  /** Cutting a sorted run into non-empty pieces gives well-formed, disjoint, ordered files. */
  lemma {:induction false} PiecesSorted(outs: seq<File>)
    requires forall i :: 0 <= i < |outs| ==> Output(outs[i], outs[i].number)
    requires Sorted(Flat(outs))
    ensures AllWellFormed(outs) && SortedLevel(outs)
    ensures LevelEntries(outs) == SetOf(Flat(outs))
  {
    if outs != [] {
      var n := |outs| - 1;
      var init, f := outs[..n], outs[n];
      assert outs == init + [f];
      var a, b := Flat(init), f.entries;
      forall i, j | 0 <= i < j < |a| ensures Less(a[i].key, a[j].key) {
        assert (a + b)[i] == a[i] && (a + b)[j] == a[j];
      }
      forall i, j | 0 <= i < j < |b| ensures Less(b[i].key, b[j].key) {
        assert (a + b)[|a| + i] == b[i] && (a + b)[|a| + j] == b[j];
      }
      PiecesSorted(init);
      forall i | 0 <= i < n
        ensures Less(init[i].largest, f.smallest)
      {
        var g := init[i];
        var e := g.entries[|g.entries| - 1];
        assert g in init && e in g.entries;
        assert e in LevelEntries(init);
        var k :| 0 <= k < |a| && a[k] == e;
        assert (a + b)[k] == e && (a + b)[|a|] == b[0];
      }
      assert LevelEntries(outs) == LevelEntries(init) + SetOf(b);
      assert SetOf(a + b) == SetOf(a) + SetOf(b);
    }
  }
}
