/** Flushing a memtable: where its table goes, why that keeps the version valid, and what
    happens when a flush lands in the middle of a compaction. */
module Flush {
  import opened Ordering
  import opened Levels
  import opened CompactionInputs
  import opened CompactionWork
  import opened VersionBuilder
  import opened Install
  import opened Wrappers

  const MAX_MEM_COMPACT_LEVEL := 2

  /** Sequence numbers fit the 56 bits of the key trailer. */
  ghost predicate Bounded(files: seq<File>)
  {
    forall f :: f in files ==> f.largest.sequence <= MAX_SEQUENCE
  }

  // ----- does a range meet a level?

  /** `SomeFileOverlapsRange`: a scan of level 0, one bisection of a sorted level. */
  method SomeFileOverlapsRange(disjointSorted: bool, files: seq<File>, smallest: Option<UserKey>,
                               largest: Option<UserKey>)
    returns (overlaps: bool)
    requires disjointSorted ==> AllWellFormed(files) && SortedLevel(files) && Bounded(files)
    ensures overlaps <==> exists f :: f in files && Touches(f, smallest, largest)
  {
    if !disjointSorted {
      for i := 0 to |files|
        invariant forall j :: 0 <= j < i ==> !Touches(files[j], smallest, largest)
      {
        var f := files[i];
        if (smallest.Some? && smallest.value > f.largest.user) || (largest.Some? && largest.value < f.smallest.user) {
        } else {
          assert f in files && Touches(f, smallest, largest);
          return true;
        }
      }
      return false;
    }
    var index := 0;
    if smallest.Some? {
      index := FindFile(files, InternalKey(smallest.value, MAX_SEQUENCE, Value));
      BisectFinds(files, InternalKey(smallest.value, MAX_SEQUENCE, Value), 0, |files|);
    }
    OnlyIndexMatters(files, smallest, largest, index);
    if index >= |files| {
      return false;
    }
    overlaps := !(largest.Some? && largest.value < files[index].smallest.user);
  }

  /** On a sorted level the first file that does not end before the range decides. */
  lemma {:induction false} OnlyIndexMatters(files: seq<File>, smallest: Option<UserKey>, largest: Option<UserKey>,
                                            index: nat)
    requires AllWellFormed(files) && SortedLevel(files) && Bounded(files) && index <= |files|
    requires smallest.None? ==> index == 0
    requires smallest.Some? ==>
               var k := InternalKey(smallest.value, MAX_SEQUENCE, Value);
               && (forall i :: 0 <= i < index ==> Less(files[i].largest, k))
               && (forall i :: index <= i < |files| ==> !Less(files[i].largest, k))
    ensures (exists f :: f in files && Touches(f, smallest, largest)) <==>
            index < |files| && !(largest.Some? && largest.value < files[index].smallest.user)
  {
    forall i | 0 <= i < |files|
      ensures smallest.Some? ==> (index <= i <==> smallest.value <= files[i].largest.user)
    {
      assert files[i] in files;
    }
    if index < |files| {
      assert files[index] in files;
      forall i | index <= i < |files|
        ensures files[index].smallest.user <= files[i].smallest.user
      {
        LevelOrder(files, index, i);
      }
    }
  }

  // ----- the level of a flushed table

  ghost predicate NoneTouches(files: seq<File>, lo: UserKey, hi: UserKey)
  {
    forall f :: f in files ==> !Touches(f, Some(lo), Some(hi))
  }

  /** Level 0, or a level such that no file from level 0 down to it meets the table's range; the deepest such
      one, unless going deeper would put the table above too much data. */
  ghost predicate LevelChosen(v: Version, lo: UserKey, hi: UserKey, grandparentLimit: nat, level: nat)
    requires |v.levels| == NUM_LEVELS
  {
    && level <= MAX_MEM_COMPACT_LEVEL
    && (level > 0 ==> forall l :: 0 <= l <= level ==> NoneTouches(v.levels[l], lo, hi))
    && (forall l :: 2 <= l < level + 2 ==> TotalSize(Touching(v.levels[l], Some(lo), Some(hi))) <= grandparentLimit)
    && (NoneTouches(v.levels[0], lo, hi) && level < MAX_MEM_COMPACT_LEVEL ==>
          !NoneTouches(v.levels[level + 1], lo, hi)
              || TotalSize(Touching(v.levels[level + 2], Some(lo), Some(hi))) > grandparentLimit)
  }

  /** These conditions leave one level. */
  lemma {:induction false} LevelDetermined(v: Version, lo: UserKey, hi: UserKey, grandparentLimit: nat, a: nat, b: nat)
    requires |v.levels| == NUM_LEVELS
    requires LevelChosen(v, lo, hi, grandparentLimit, a) && LevelChosen(v, lo, hi, grandparentLimit, b)
    ensures a == b
  {
    hide NoneTouches, Touching, TotalSize;
    if a < b { NotShallower(v, lo, hi, grandparentLimit, a, b); }
    if b < a { NotShallower(v, lo, hi, grandparentLimit, b, a); }
  }

  lemma {:induction false} NotShallower(v: Version, lo: UserKey, hi: UserKey, grandparentLimit: nat, a: nat, b: nat)
    requires |v.levels| == NUM_LEVELS && a < b && LevelChosen(v, lo, hi, grandparentLimit, b)
    ensures !LevelChosen(v, lo, hi, grandparentLimit, a)
  {
    hide NoneTouches, Touching, TotalSize;
    assert NoneTouches(v.levels[0], lo, hi) && NoneTouches(v.levels[a + 1], lo, hi);
    assert TotalSize(Touching(v.levels[a + 2], Some(lo), Some(hi))) <= grandparentLimit;
  }

  method PickLevelForMemTableOutput(v: Version, lo: UserKey, hi: UserKey, grandparentLimit: nat) returns (level: nat)
    requires Shaped(v) && forall l :: 0 <= l < NUM_LEVELS ==> Bounded(v.levels[l])
    ensures LevelChosen(v, lo, hi, grandparentLimit, level)
  {
    hide Touching, TotalSize, Touches;
    level := 0;
    var overlap := SomeFileOverlapsRange(false, v.levels[0], Some(lo), Some(hi));
    if !overlap {
      while level < MAX_MEM_COMPACT_LEVEL
        invariant level <= MAX_MEM_COMPACT_LEVEL
        invariant forall l :: 0 <= l <= level ==> NoneTouches(v.levels[l], lo, hi)
        invariant forall l :: 2 <= l < level + 2 ==>
                    TotalSize(Touching(v.levels[l], Some(lo), Some(hi))) <= grandparentLimit
      {
        overlap := SomeFileOverlapsRange(true, v.levels[level + 1], Some(lo), Some(hi));
        if overlap {
          break;
        }
        if level + 2 < NUM_LEVELS {
          var start, limit := InternalKey(lo, MAX_SEQUENCE, Value), InternalKey(hi, 0, Deletion);
          var overlaps := GetOverlappingInputs(v, level + 2, Some(start), Some(limit));
          if TotalSize(overlaps) > grandparentLimit {
            break;
          }
        }
        level := level + 1;
      }
    }
  }

  // ----- a flush keeps the version valid

  /** `after` is `v` with one more file at level `F`. */
  ghost predicate AddedFile(v: Version, after: Version, F: nat, f: File)
    requires |v.levels| == NUM_LEVELS
  {
    LevelsOrdered(after) && forall l, g :: 0 <= l < NUM_LEVELS ==>
        (g in after.levels[l] <==> g in v.levels[l] || (l == F && g == f))
  }

  /** A table newer than everything in the version, with an unused number, placed where no
      file down to its level meets its range; a level-0 table gets the largest number. */
  ghost predicate Flushable(v: Version, F: nat, f: File)
    requires |v.levels| == NUM_LEVELS
  {
    && F <= MAX_MEM_COMPACT_LEVEL
    && WellFormed(f)
    && (F > 0 ==> forall l :: 0 <= l <= F ==> NoneTouches(v.levels[l], f.smallest.user, f.largest.user))
    && Above(Contents(f), Entries(v))
    && UniqueSeqs(Contents(f) + Entries(v))
    && (forall l, g :: 0 <= l < NUM_LEVELS && g in v.levels[l] ==> g.number < f.number)
  }

  lemma {:induction false} OneAdded(F: nat, f: File, l: nat)
    ensures AddedAt([(F, f)], l) == if l == F then {f} else {}
  {
    assert [(F, f)][0] in [(F, f)];
  }

  lemma {:induction false} FlushApplicable(v: Version, F: nat, f: File)
    requires Shaped(v) && Flushable(v, F, f)
    ensures Applicable(v, Edit({}, [(F, f)]))
  {
  }

  lemma {:induction false} FlushEdit(v: Version, F: nat, f: File)
    requires Shaped(v) && Flushable(v, F, f)
    ensures Applicable(v, Edit({}, [(F, f)])) && AddedFile(v, Next(v, Edit({}, [(F, f)])), F, f)
  {
    var edit := Edit({}, [(F, f)]);
    FlushApplicable(v, F, f);
    NextEffect(v, edit);
    forall l, g | 0 <= l < NUM_LEVELS
      ensures InNext(g, v, edit, l) <==> g in v.levels[l] || (l == F && g == f)
    {
      OneAdded(F, f, l);
    }
  }

  lemma {:induction false} AddedLevel(v: Version, after: Version, F: nat, f: File, l: nat)
    requires |v.levels| == NUM_LEVELS && l < NUM_LEVELS && AddedFile(v, after, F, f)
    ensures LevelEntries(after.levels[l]) == LevelEntries(v.levels[l]) + (if l == F then Contents(f) else {})
  {
    var A, B := LevelEntries(after.levels[l]), LevelEntries(v.levels[l]) + (if l == F then Contents(f) else {});
    forall e ensures e in A <==> e in B {
      if e in A {
        var g :| g in after.levels[l] && e in g.entries;
      }
      if e in LevelEntries(v.levels[l]) {
        var g :| g in v.levels[l] && e in g.entries;
        assert g in after.levels[l];
      }
      if l == F && e in Contents(f) {
        assert f in after.levels[l];
      }
    }
  }

  lemma {:induction false} AddedEntries(v: Version, after: Version, F: nat, f: File)
    requires |v.levels| == NUM_LEVELS && F < NUM_LEVELS && AddedFile(v, after, F, f)
    ensures Entries(after) == Contents(f) + Entries(v)
  {
    var A, B := Entries(after), Contents(f) + Entries(v);
    forall e ensures e in A <==> e in B {
      if e in A {
        var l :| 0 <= l < NUM_LEVELS && e in LevelEntries(after.levels[l]);
        AddedLevel(v, after, F, f, l);
      }
      if e in Entries(v) {
        var l :| 0 <= l < NUM_LEVELS && e in LevelEntries(v.levels[l]);
        AddedLevel(v, after, F, f, l);
      }
      AddedLevel(v, after, F, f, F);
    }
  }

  /** Files whose user-key ranges do not meet are apart and share no user key. */
  lemma {:induction false} NotTouchingApart(f: File, g: File)
    requires WellFormed(f) && WellFormed(g) && !Touches(g, Some(f.smallest.user), Some(f.largest.user))
    ensures Less(f.largest, g.smallest) || Less(g.largest, f.smallest)
    ensures forall d, e :: d in f.entries && e in g.entries ==> d.key.user != e.key.user
  {
    UserRange(f);
    UserRange(g);
  }

  lemma {:induction false} FlushApart(level: seq<File>, after: seq<File>, f: File)
    requires AllWellFormed(level) && SortedLevel(level) && WellFormed(f)
    requires NoneTouches(level, f.smallest.user, f.largest.user)
    requires forall g :: g in after <==> g in level || g == f
    ensures PairwiseApart(after)
  {
    SortedIsApart(level);
    forall g, h | g in after && h in after && g != h
      ensures Less(g.largest, h.smallest) || Less(h.largest, g.smallest)
    {
      if g == f {
        NotTouchingApart(f, h);
      } else if h == f {
        NotTouchingApart(f, g);
      }
    }
  }

  lemma {:induction false} FlushSorted(v: Version, after: Version, F: nat, f: File, l: nat)
    requires Shaped(v) && Flushable(v, F, f) && AddedFile(v, after, F, f) && 1 <= l < NUM_LEVELS
    ensures AllWellFormed(after.levels[l]) && SortedLevel(after.levels[l])
  {
    assert AllWellFormed(v.levels[l]) && SortedLevel(v.levels[l]);
    if l == F {
      FlushApart(v.levels[l], after.levels[l], f);
    } else {
      SortedIsApart(v.levels[l]);
    }
    ApartIsSorted(after.levels[l]);
  }

  lemma {:induction false} FlushShape(v: Version, after: Version, F: nat, f: File)
    requires Shaped(v) && Flushable(v, F, f) && AddedFile(v, after, F, f)
    ensures Shaped(after)
  {
    forall l | 1 <= l < NUM_LEVELS
      ensures AllWellFormed(after.levels[l]) && SortedLevel(after.levels[l])
    {
      FlushSorted(v, after, F, f, l);
    }
    FlushNumbers(v, after, F, f);
  }

  lemma {:induction false} FlushNumbers(v: Version, after: Version, F: nat, f: File)
    requires |v.levels| == NUM_LEVELS && NumbersUnique(v) && AddedFile(v, after, F, f)
    requires forall l, g :: 0 <= l < NUM_LEVELS && g in v.levels[l] ==> g.number < f.number
    ensures NumbersUnique(after)
  {
  }

  lemma {:induction false} FlushAbove(v: Version, after: Version, F: nat, f: File, l: nat, m: nat)
    requires |v.levels| == NUM_LEVELS && Recency(v) && Flushable(v, F, f) && AddedFile(v, after, F, f)
    requires l < m < NUM_LEVELS
    requires AllWellFormed(v.levels[l])
    ensures Above(LevelEntries(after.levels[l]), LevelEntries(after.levels[m]))
  {
    AddedLevel(v, after, F, f, l);
    AddedLevel(v, after, F, f, m);
    var A, B := LevelEntries(v.levels[l]), LevelEntries(v.levels[m]);
    assert Above(A, B);
    if l == F {
      LevelSubset(v, m);
    } else if m == F {
      ShallowerSharesNothing(v.levels[l], f);
    }
  }

  lemma {:induction false} FlushRecency(v: Version, after: Version, F: nat, f: File)
    requires Shaped(v) && Recency(v) && Flushable(v, F, f) && AddedFile(v, after, F, f)
    ensures Recency(after)
  {
    forall l, m | 0 <= l < m < NUM_LEVELS
      ensures Above(LevelEntries(after.levels[l]), LevelEntries(after.levels[m]))
    {
      FlushAbove(v, after, F, f, l, m);
    }
  }

  lemma {:induction false} ShallowerSharesNothing(files: seq<File>, f: File)
    requires AllWellFormed(files) && WellFormed(f) && NoneTouches(files, f.smallest.user, f.largest.user)
    ensures Above(LevelEntries(files), Contents(f))
  {
    forall a, b | a in LevelEntries(files) && b in Contents(f)
      ensures a.key.user != b.key.user
    {
      var g :| g in files && a in g.entries;
      NotTouchingApart(f, g);
    }
  }

  /** Installing a flushed table keeps the version valid and adds exactly its entries. */
  lemma {:induction false} FlushKeepsValid(v: Version, F: nat, f: File)
    requires Valid(v) && Flushable(v, F, f)
    ensures Applicable(v, Edit({}, [(F, f)]))
    ensures Valid(Next(v, Edit({}, [(F, f)]))) && Entries(Next(v, Edit({}, [(F, f)]))) == Contents(f) + Entries(v)
  {
    FlushEdit(v, F, f);
    var after := Next(v, Edit({}, [(F, f)]));
    FlushShape(v, after, F, f);
    FlushRecency(v, after, F, f);
    AddedEntries(v, after, F, f);
    FlushLevelZero(v, after, F, f);
  }

  lemma {:induction false} FlushLevelZero(v: Version, after: Version, F: nat, f: File)
    requires |v.levels| == NUM_LEVELS && NewerByNumber(v.levels[0]) && Flushable(v, F, f) && AddedFile(v, after, F, f)
    ensures NewerByNumber(after.levels[0])
  {
    forall g, h | g in after.levels[0] && h in after.levels[0] && g.number > h.number
      ensures Above(Contents(g), Contents(h))
    {
      if h in v.levels[0] {
        LevelSubset(v, 0);
        assert Contents(h) <= LevelEntries(v.levels[0]);
      }
    }
  }
}
