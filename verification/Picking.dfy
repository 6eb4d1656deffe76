/** Where compactions come from: the automatic choice and the manual range. Both produce
    inputs that fit together. */
module Picking {
  import opened Ordering
  import opened Levels
  import opened CompactionInputs
  import opened CompactionWork
  import opened Wrappers

  /** A compaction ready to run on `v`. */
  ghost predicate Ready(c: Compaction, v: Version)
    reads c, c.levelPtrs
  {
    && c.Valid()
    && c.version == v
    && Paired(v, c.level, c.inputs0, c.inputs1)
    && InOrder(c.level, c.inputs0, c.inputs1)
    && (forall u :: c.Behind(u))
    && c.Unstarted() && c.grandparents == Grandparents(v, c.level, c.inputs0 + c.inputs1) && c.GrandparentsOk()
  }

  lemma {:induction false} OverlapStartable(v: Version, L: nat, b: Option<InternalKey>, e: Option<InternalKey>,
                                            X: seq<File>)
    requires Shaped(v) && L < NUM_LEVELS && |X| > 0
    requires L > 0 ==> X == Touching(v.levels[L], UserOf(b), UserOf(e))
    requires L == 0 ==> LeastClosed(FileSet(X), v.levels[0], UserOf(b), UserOf(e))
    requires exists b, e :: X == Touching(v.levels[L], b, e)
    ensures Startable(v, L, X)
  {
    OverlapNoRepeats(v, L, X);
    if L > 0 {
      TouchingConvex(v.levels[L], UserOf(b), UserOf(e));
    } else {
      ClosedMembers(v.levels[0], X, UserOf(b), UserOf(e));
    }
  }

  lemma {:induction false} ClosedMembers(files: seq<File>, X: seq<File>, b: Option<UserKey>, e: Option<UserKey>)
    requires LeastClosed(FileSet(X), files, b, e)
    ensures Subset(X, files)
    ensures forall f, g :: f in X && g in files && UserOverlap(f, g) ==> g in X
  {
    forall f | f in X ensures f in files { assert f in FileSet(X); }
    forall f, g | f in X && g in files && UserOverlap(f, g)
      ensures g in X
    {
      assert f in FileSet(X);
      assert g in FileSet(X);
    }
  }

  ghost predicate EndsAfter(f: File, pointer: Option<InternalKey>)
  {
    pointer.Some? ==> Less(pointer.value, f.largest)
  }

  /** The file a size compaction starts from: the first that ends after the pointer; the first
      of the level if none does. */
  ghost predicate IsNextUp(files: seq<File>, pointer: Option<InternalKey>, f: File)
  {
    if EndsAfter(f, pointer) then exists i :: 0 <= i < |files| && files[i] == f && forall j :: 0 <= j < i ==>
        !EndsAfter(files[j], pointer)
    else |files| > 0 && f == files[0] && forall g :: g in files ==> !EndsAfter(g, pointer)
  }

  method FirstAfterPointer(files: seq<File>, pointer: Option<InternalKey>) returns (f: File)
    requires |files| > 0
    ensures f in files && IsNextUp(files, pointer, f)
  {
    for i := 0 to |files|
      invariant forall j :: 0 <= j < i ==> !EndsAfter(files[j], pointer)
    {
      if pointer.None? || Less(pointer.value, files[i].largest) {
        return files[i];
      }
    }
    f := files[0];
  }

  /** `VersionSet::PickCompaction`. A size compaction takes precedence over a seek compaction;
      on level 0 the choice is closed under overlap first. */
  method PickCompaction(v: Version, sizeLevel: Option<nat>, pointer: Option<InternalKey>, seek: Option<(nat, File)>,
                        expandedLimit: nat)
    returns (c: Compaction?)
    requires Shaped(v)
    requires sizeLevel.Some? ==> sizeLevel.value + 1 < NUM_LEVELS && |v.levels[sizeLevel.value]| > 0
    requires seek.Some? ==> seek.value.0 + 1 < NUM_LEVELS && seek.value.1 in v.levels[seek.value.0]
    ensures c == null <==> sizeLevel.None? && seek.None?
    ensures c != null ==> fresh(c) && fresh(c.levelPtrs) && Ready(c, v)
    ensures c != null ==> c.level == if sizeLevel.Some? then sizeLevel.value else seek.value.0
    ensures c != null && sizeLevel.None? ==>
              seek.value.1 in c.inputs0 && GrownFrom(v, seek.value.0, seek.value.1, c.inputs0, expandedLimit)
    ensures sizeLevel.Some? ==>
              exists f :: IsNextUp(v.levels[sizeLevel.value], pointer, f) && f in c.inputs0
                          && GrownFrom(v, sizeLevel.value, f, c.inputs0, expandedLimit)
  {
    var level, f;
    if sizeLevel.Some? {
      level := sizeLevel.value;
      f := FirstAfterPointer(v.levels[level], pointer);
    } else if seek.Some? {
      level, f := seek.value.0, seek.value.1;
    } else {
      return null;
    }
    var inputs := StartingInputs(v, level, f);
    c := Prepare(v, level, inputs, expandedLimit);
    assert GrownFrom(v, level, f, c.inputs0, expandedLimit);
  }

  /** A compaction starts from one file; on level 0 from all that it reaches by overlap. */
  ghost predicate StartsFrom(v: Version, level: nat, f: File, inputs: seq<File>)
    requires level < |v.levels|
  {
    if level > 0 then inputs == [f]
    else LeastClosed(FileSet(inputs), v.levels[0], Some(f.smallest.user), Some(f.largest.user))
  }

  /** The inputs of this level are what a compaction makes of that start. */
  ghost predicate GrownFrom(v: Version, level: nat, f: File, I0: seq<File>, expandedLimit: nat)
    requires Shaped(v) && level + 1 < NUM_LEVELS
  {
    exists start :: StartsFrom(v, level, f, start) && Chosen(v, level, start, I0, expandedLimit)
  }

  method StartingInputs(v: Version, level: nat, f: File) returns (inputs: seq<File>)
    requires Shaped(v) && level < NUM_LEVELS && f in v.levels[level]
    ensures Startable(v, level, inputs) && f in inputs && (level > 0 ==> SortedLevel(inputs))
    ensures StartsFrom(v, level, f, inputs)
  {
    inputs := [f];
    if level == 0 {
      var smallest, largest := GetRange(inputs);
      inputs := GetOverlappingInputs(v, 0, Some(smallest), Some(largest));
      assert f in inputs by {
        UserRange(f);
        assert Touches(f, Some(smallest.user), Some(largest.user));
        assert f in FileSet(inputs);
      }
      OverlapStartable(v, 0, Some(smallest), Some(largest), inputs);
    }
  }

  method Prepare(v: Version, level: nat, inputs: seq<File>, expandedLimit: nat) returns (c: Compaction)
    requires Shaped(v) && level + 1 < NUM_LEVELS && Startable(v, level, inputs) && (level > 0 ==> SortedLevel(inputs))
    ensures fresh(c) && fresh(c.levelPtrs) && Ready(c, v) && c.level == level
    ensures forall f :: f in inputs ==> f in c.inputs0
    ensures Chosen(v, level, inputs, c.inputs0, expandedLimit)
  {
    hide Startable, SortedLevel, NextInputs, WellFormed, NewerByNumber;
    c := new Compaction(v, level, inputs);
    var _ := c.SetupOtherInputs(expandedLimit);
    assert forall u :: c.Behind(u);
    assert c.Unstarted();
  }

  /** A trivial move: one file, no file of the next level that spans any of its user keys, and few enough bytes two
      levels down that do. */
  lemma {:induction false} TrivialMoveIsLone(c: Compaction, v: Version, limit: nat)
    requires Ready(c, v) && c.IsTrivialMove(limit)
    ensures |c.inputs0| == 1 && Paired(v, c.level, c.inputs0, [])
    ensures var f := c.inputs0[0];
            && (forall g :: g in v.levels[c.level + 1] ==> !UserOverlap(f, g))
            && (c.level + 2 < NUM_LEVELS ==>
                  TotalSize(Touching(v.levels[c.level + 2], Some(f.smallest.user), Some(f.largest.user))) <= limit)
  {
    hide Touching, TotalSize, Complete, NextInputs, WellFormed, NewerByNumber, Compaction.Behind, InOrder;
    var f := c.inputs0[0];
    assert c.inputs0 == [f] && c.inputs1 == [] && [f] + [] == [f];
    LoneFile(v, c.level, f);
  }

  lemma {:induction false} LoneFile(v: Version, L: nat, f: File)
    requires Shaped(v) && L + 1 < NUM_LEVELS && NextInputs(v, L, [f]) == []
    ensures forall g :: g in v.levels[L + 1] ==> !UserOverlap(f, g)
    ensures L + 2 < NUM_LEVELS ==>
              Grandparents(v, L, [f]) == Touching(v.levels[L + 2], Some(f.smallest.user), Some(f.largest.user))
  {
    NextInputsExact(v, L, [f]);
    hide NextInputs, Touching;
    forall g | g in v.levels[L + 1] ensures !UserOverlap(f, g) {
      assert g !in NextInputs(v, L, [f]);
    }
  }

  lemma {:induction false} PrefixConvex(level: seq<File>, T: seq<File>, b: Option<UserKey>, e: Option<UserKey>, n: nat)
    requires AllWellFormed(level) && SortedLevel(level) && T == Touching(level, b, e) && n <= |T|
    ensures Convex(level, T[..n]) && Subset(T[..n], level)
  {
    hide Touching, SortedLevel;
    TouchingConvex(level, b, e);
    TouchingSorted(level, b, e);
    forall i, j, k | 0 <= i < j < k < |level| && level[i] in T[..n] && level[k] in T[..n]
      ensures level[j] in T[..n]
    {
      assert level[j] in T by { assert level[i] in T && level[k] in T; }
      PrefixBefore(T, n, level[j], level[k]) by { LevelOrder(level, j, k); }
    }
  }

  /** Whatever comes before a file of the prefix is in the prefix. */
  lemma {:induction false} PrefixBefore(T: seq<File>, n: nat, f: File, g: File)
    requires AllWellFormed(T) && SortedLevel(T) && n <= |T| && f in T && g in T[..n] && Less(f.largest, g.smallest)
    ensures f in T[..n]
  {
    hide SortedLevel;
    var x :| 0 <= x < |T| && T[x] == f;
    var y :| 0 <= y < n && T[y] == g;
    LevelOrder(T, x, y);
    assert T[..n][x] == f;
  }

  /** `VersionSet::CompactRange`: the files that meet the range, cut short once they are
      large enough when the level is sorted. */
  method CompactRange(v: Version, level: nat, begin: Option<InternalKey>, end: Option<InternalKey>, maxFileSize: nat,
                      expandedLimit: nat)
    returns (c: Compaction?)
    requires Shaped(v) && level + 1 < NUM_LEVELS
    ensures c == null <==> forall f :: f in v.levels[level] ==> !Touches(f, UserOf(begin), UserOf(end))
    ensures c != null ==> fresh(c) && fresh(c.levelPtrs) && Ready(c, v) && c.level == level
    ensures c != null && level == 0 ==> forall f :: f in v.levels[0] && Touches(f, UserOf(begin), UserOf(end)) ==>
            f in c.inputs0
    ensures c != null && level == 0 ==>
              exists X :: LeastClosed(FileSet(X), v.levels[0], UserOf(begin), UserOf(end))
                          && Chosen(v, 0, X, c.inputs0, expandedLimit)
    ensures c != null && level > 0 ==>
              var files := Touching(v.levels[level], UserOf(begin), UserOf(end));
              exists n: nat :: TakesFirst(files, n, maxFileSize) && (forall f :: f in files[..n] ==> f in c.inputs0)
                          && Chosen(v, level, files[..n], c.inputs0, expandedLimit)
  {
    var inputs := RangeInputs(v, level, begin, end);
    if |inputs| == 0 {
      return null;
    }
    if level > 0 {
      var n := CutAt(inputs, maxFileSize);
      PrefixStartable(v, level, inputs, UserOf(begin), UserOf(end), n);
      c := Prepare(v, level, inputs[..n], expandedLimit);
      assert TakesFirst(inputs, n, maxFileSize);
    } else {
      c := Prepare(v, level, inputs, expandedLimit);
    }
  }

  /** The first `n` files are the fewest that reach the limit; all of them if they do not. */
  ghost predicate TakesFirst(files: seq<File>, n: nat, limit: nat)
  {
    && 1 <= n <= |files| && (n < |files| ==> TotalSize(files[..n]) >= limit)
    && (n == 1 || TotalSize(files[..n - 1]) < limit)
  }

  method RangeInputs(v: Version, level: nat, begin: Option<InternalKey>, end: Option<InternalKey>)
    returns (inputs: seq<File>)
    requires Shaped(v) && level < NUM_LEVELS
    ensures inputs == [] <==> forall f :: f in v.levels[level] ==> !Touches(f, UserOf(begin), UserOf(end))
    ensures inputs != [] ==> Startable(v, level, inputs)
    ensures level > 0 ==> inputs == Touching(v.levels[level], UserOf(begin), UserOf(end))
    ensures level == 0 ==> LeastClosed(FileSet(inputs), v.levels[0], UserOf(begin), UserOf(end))
    ensures forall f :: f in v.levels[level] && Touches(f, UserOf(begin), UserOf(end)) ==> f in inputs
  {
    inputs := GetOverlappingInputs(v, level, begin, end);
    if level == 0 {
      LeastIsEmpty(v.levels[0], UserOf(begin), UserOf(end), inputs);
      assert forall f :: f in inputs <==> f in FileSet(inputs);
    } else {
      TouchingEmpty(v.levels[level], UserOf(begin), UserOf(end));
    }
    if |inputs| > 0 {
      OverlapStartable(v, level, begin, end, inputs);
    }
  }

  lemma {:induction false} PrefixStartable(v: Version, level: nat, inputs: seq<File>, b: Option<UserKey>,
                                           e: Option<UserKey>, n: nat)
    requires Shaped(v) && 0 < level < NUM_LEVELS && inputs == Touching(v.levels[level], b, e) && 1 <= n <= |inputs|
    requires NoRepeats(inputs)
    ensures Startable(v, level, inputs[..n]) && SortedLevel(inputs[..n])
  {
    TouchingSorted(v.levels[level], b, e);
    PrefixConvex(v.levels[level], inputs, b, e, n);
  }

  /** How many of the files to take: up to and including the one that reaches the limit. */
  method CutAt(inputs: seq<File>, limit: nat) returns (n: nat)
    requires |inputs| > 0
    ensures TakesFirst(inputs, n, limit)
  {
    var total := 0;
    for i := 0 to |inputs|
      invariant total == TotalSize(inputs[..i]) && (total < limit || i == 0)
    {
      TotalSizeSnoc(inputs[..i], inputs[i]);
      assert inputs[..i + 1] == inputs[..i] + [inputs[i]];
      total := total + inputs[i].size;
      if total >= limit {
        return i + 1;
      }
    }
    n := |inputs|;
    TotalSizeSnoc(inputs[..n - 1], inputs[n - 1]);
    assert inputs[..n] == inputs[..n - 1] + [inputs[n - 1]];
  }

  lemma {:induction false} TouchingEmpty(files: seq<File>, b: Option<UserKey>, e: Option<UserKey>)
    ensures Touching(files, b, e) == [] <==> forall f :: f in files ==> !Touches(f, b, e)
  {
    NoMembers(Touching(files, b, e));
  }

  /** The overlap closure of a range that no file meets is empty. */
  lemma {:induction false} LeastIsEmpty(files: seq<File>, b: Option<UserKey>, e: Option<UserKey>, X: seq<File>)
    requires LeastClosed(FileSet(X), files, b, e)
    ensures X == [] <==> forall f :: f in files ==> !Touches(f, b, e)
  {
    NoMembers(X);
    if forall f :: f in files ==> !Touches(f, b, e) {
      assert OverlapClosed({}, files, b, e);
      assert FileSet(X) <= {};
    }
  }

  lemma {:induction false} NoMembers(X: seq<File>)
    ensures FileSet(X) == {} <==> X == []
  {
    if X != [] {
      assert X[0] in FileSet(X);
    }
  }
}
