/** Choosing what a compaction reads: range overlap, the level-0 overlap closure, boundary
    files, and the pairing of a level's inputs with those of the next level. */
module CompactionInputs {
  import opened Ordering
  import opened Levels
  import opened Wrappers

  ghost function FileSet(files: seq<File>): set<File>
  {
    set f | f in files
  }

  ghost predicate NoRepeats(files: seq<File>)
  {
    forall i, j :: 0 <= i < j < |files| ==> files[i] != files[j]
  }

  // ----- ranges

  predicate UserOverlap(f: File, g: File)
  {
    f.smallest.user <= g.largest.user && g.smallest.user <= f.largest.user
  }

  /** The file is not entirely before `begin` nor entirely after `end`; an absent bound
      does not restrict. */
  predicate Touches(f: File, begin: Option<UserKey>, end: Option<UserKey>)
  {
    && (begin.Some? ==> begin.value <= f.largest.user)
    && (end.Some? ==> f.smallest.user <= end.value)
  }

  predicate Spans(f: File, u: UserKey)
  {
    f.smallest.user <= u <= f.largest.user
  }

  /** Some user key lies in the file's range and within the bounds. */
  lemma {:induction false} TouchesMeansCommonKey(f: File, begin: Option<UserKey>, end: Option<UserKey>)
    requires f.smallest.user <= f.largest.user && (begin.Some? && end.Some? ==> begin.value <= end.value)
    ensures Touches(f, begin, end) <==>
            exists u :: Spans(f, u) && (begin.Some? ==> begin.value <= u) && (end.Some? ==> u <= end.value)
  {
    if Touches(f, begin, end) {
      var u: UserKey := if begin.Some? && f.smallest.user < begin.value then begin.value else f.smallest.user;
      assert Spans(f, u);
    }
  }

  lemma {:induction false} OverlapMeansCommonKey(f: File, g: File)
    requires f.smallest.user <= f.largest.user && g.smallest.user <= g.largest.user
    ensures UserOverlap(f, g) <==>
            exists u :: Spans(f, u) && Spans(g, u)
  {
    if UserOverlap(f, g) {
      var u: UserKey := if f.smallest.user < g.smallest.user then g.smallest.user else f.smallest.user;
      assert Spans(f, u) && Spans(g, u);
    }
  }

  function Touching(files: seq<File>, begin: Option<UserKey>, end: Option<UserKey>): (r: seq<File>)
    ensures forall f :: f in r <==> f in files && Touches(f, begin, end)
  {
    if files == [] then []
    else
      var n := |files| - 1;
      Touching(files[..n], begin, end) + (if Touches(files[n], begin, end) then [files[n]] else [])
  }

  function SmallestKey(files: seq<File>): InternalKey
    requires |files| > 0
  {
    var n := |files| - 1;
    if n == 0 then files[0].smallest
    else
      var m := SmallestKey(files[..n]);
      if Less(files[n].smallest, m) then files[n].smallest else m
  }

  function LargestKey(files: seq<File>): InternalKey
    requires |files| > 0
  {
    var n := |files| - 1;
    if n == 0 then files[0].largest
    else
      var m := LargestKey(files[..n]);
      if Less(m, files[n].largest) then files[n].largest else m
  }

  function TotalSize(files: seq<File>): nat
  {
    if files == [] then 0 else files[0].size + TotalSize(files[1..])
  }

  lemma {:induction false} TotalSizeSnoc(files: seq<File>, f: File)
    ensures TotalSize(files + [f]) == TotalSize(files) + f.size
  {
    if files != [] {
      TotalSizeSnoc(files[1..], f);
      assert (files + [f])[1..] == files[1..] + [f];
    }
  }

  lemma {:induction false} TotalSizeConcat(a: seq<File>, b: seq<File>)
    ensures TotalSize(a + b) == TotalSize(a) + TotalSize(b) && TotalSize([]) == 0
  {
    if b == [] {
      assert a + b == a;
    } else {
      var n := |b| - 1;
      TotalSizeConcat(a, b[..n]);
      assert a + b == (a + b[..n]) + [b[n]] && b == b[..n] + [b[n]];
      TotalSizeSnoc(a + b[..n], b[n]);
      TotalSizeSnoc(b[..n], b[n]);
    }
  }

  method GetRange(inputs: seq<File>) returns (smallest: InternalKey, largest: InternalKey)
    requires |inputs| > 0
    ensures smallest == SmallestKey(inputs) && largest == LargestKey(inputs)
    ensures (exists f :: f in inputs && f.smallest == smallest)
    ensures forall f :: f in inputs ==> AtMost(smallest, f.smallest)
    ensures (exists f :: f in inputs && f.largest == largest) && forall f :: f in inputs ==> AtMost(f.largest, largest)
  {
    smallest, largest := inputs[0].smallest, inputs[0].largest;
    for i := 1 to |inputs|
      invariant smallest == SmallestKey(inputs[..i]) && largest == LargestKey(inputs[..i])
      invariant (exists f :: f in inputs && f.smallest == smallest) && (exists f :: f in inputs && f.largest == largest)
    {
      var f := inputs[i];
      assert inputs[..i + 1][..i] == inputs[..i];
      if Less(f.smallest, smallest) {
        smallest := f.smallest;
      }
      if Less(largest, f.largest) {
        largest := f.largest;
      }
    }
    assert inputs[..|inputs|] == inputs;
    forall f | f in inputs ensures AtMost(smallest, f.smallest) && AtMost(f.largest, largest) { RangeBound(inputs, f); }
  }

  lemma {:induction false} RangeBound(files: seq<File>, f: File)
    requires f in files
    ensures AtMost(SmallestKey(files), f.smallest) && AtMost(f.largest, LargestKey(files))
  {
    var n := |files| - 1;
    assert files == files[..n] + [files[n]];
    if n > 0 && f in files[..n] {
      RangeBound(files[..n], f);
    }
  }

  lemma {:induction false} RangeAttained(files: seq<File>) returns (first: File, last: File)
    requires |files| > 0
    ensures first in files && first.smallest == SmallestKey(files)
    ensures last in files && last.largest == LargestKey(files)
  {
    var n := |files| - 1;
    if n == 0 {
      return files[0], files[0];
    }
    assert files == files[..n] + [files[n]];
    first, last := RangeAttained(files[..n]);
    if Less(files[n].smallest, SmallestKey(files[..n])) {
      first := files[n];
    }
    if Less(LargestKey(files[..n]), files[n].largest) {
      last := files[n];
    }
  }

  lemma {:induction false} TouchingNoRepeats(files: seq<File>, begin: Option<UserKey>, end: Option<UserKey>)
    requires NoRepeats(files)
    ensures NoRepeats(Touching(files, begin, end))
  {
    if files != [] {
      var n := |files| - 1;
      TouchingNoRepeats(files[..n], begin, end);
      assert files[n] !in files[..n];
    }
  }

  lemma {:induction false} OrderedNoRepeats(files: seq<File>)
    requires Ordered(files)
    ensures NoRepeats(files)
  {
    forall i, j | 0 <= i < j < |files|
      ensures files[i] != files[j]
    {
      assert BySmallest(files[i], files[j]);
    }
  }

  // ----- overlapping inputs

  function UserOf(k: Option<InternalKey>): Option<UserKey>
  {
    if k.Some? then Some(k.value.user) else None
  }

  ghost function StartsBelow(files: seq<File>, begin: Option<UserKey>): set<nat>
  {
    set i: nat | i < |files| && begin.Some? && files[i].smallest.user < begin.value
  }

  ghost function EndsAbove(files: seq<File>, end: Option<UserKey>): set<nat>
  {
    set i: nat | i < |files| && end.Some? && files[i].largest.user > end.value
  }

  /** `S` holds every file that meets the range and every file that overlaps a member. */
  ghost predicate OverlapClosed(S: set<File>, files: seq<File>, begin: Option<UserKey>, end: Option<UserKey>)
  {
    && (forall f :: f in files && Touches(f, begin, end) ==> f in S)
    && (forall f, g :: f in S && f in files && g in files && UserOverlap(f, g) ==> g in S)
  }

  ghost predicate LeastClosed(S: set<File>, files: seq<File>, begin: Option<UserKey>, end: Option<UserKey>)
  {
    && S <= FileSet(files)
    && OverlapClosed(S, files, begin, end)
    && forall S' :: OverlapClosed(S', files, begin, end) ==> S <= S'
  }

  ghost predicate CoveredBy(S: set<File>, files: seq<File>, begin: Option<UserKey>, end: Option<UserKey>)
  {
    forall g :: g in files && Touches(g, begin, end) ==> g in S
  }

  /** Widening the range to the edge of a covered file keeps it covered. */
  lemma {:induction false} WidenedCovered(S: set<File>, files: seq<File>, begin: Option<UserKey>, end: Option<UserKey>,
                       b: Option<UserKey>, e: Option<UserKey>, f: File, b': Option<UserKey>, e': Option<UserKey>)
    requires AllWellFormed(files)
    requires OverlapClosed(S, files, begin, end) && CoveredBy(S, files, b, e)
    requires f in files && Touches(f, b, e)
    requires || (b.Some? && f.smallest.user < b.value && b' == Some(f.smallest.user) && e' == e)
             || (e.Some? && f.largest.user > e.value && b' == b && e' == Some(f.largest.user))
    ensures CoveredBy(S, files, b', e')
  {
    forall g | g in files && Touches(g, b', e')
      ensures g in S
    {
      UserRange(g);
      UserRange(f);
      if !Touches(g, b, e) {
        assert UserOverlap(f, g);
      }
    }
  }

  lemma {:induction false} UserRange(f: File)
    requires WellFormed(f)
    ensures f.smallest.user <= f.largest.user
    ensures forall e :: e in f.entries ==> f.smallest.user <= e.key.user <= f.largest.user
  {
    forall e | e in f.entries
      ensures f.smallest.user <= e.key.user <= f.largest.user
    {
      InRange(f, e);
    }
    assert f.entries[0] in f.entries;
  }

  /** `Version::GetOverlappingInputs`. On a sorted level it is a filter. On level 0 the
      range grows to the edges of the files found and the scan restarts; the result is the
      least set of files that is closed under overlap. */
  method GetOverlappingInputs(v: Version, level: nat, begin: Option<InternalKey>, end: Option<InternalKey>)
    returns (inputs: seq<File>)
    requires level < |v.levels| && AllWellFormed(v.levels[level])
    ensures level > 0 ==> inputs == Touching(v.levels[level], UserOf(begin), UserOf(end))
    ensures exists b, e :: inputs == Touching(v.levels[level], b, e)
    ensures level == 0 ==> LeastClosed(FileSet(inputs), v.levels[0], UserOf(begin), UserOf(end))
  {
    var files := v.levels[level];
    var userBegin, userEnd := UserOf(begin), UserOf(end);
    inputs := [];
    var i := 0;
    while i < |files|
      invariant 0 <= i <= |files|
      invariant inputs == Touching(files[..i], userBegin, userEnd)
      invariant level > 0 ==> userBegin == UserOf(begin) && userEnd == UserOf(end)
      invariant begin.Some? == userBegin.Some? && end.Some? == userEnd.Some?
      invariant begin.Some? ==> userBegin.value <= begin.value.user
      invariant end.Some? ==> userEnd.value >= end.value.user
      invariant level == 0 ==> forall f :: f in inputs ==> Inside(f, userBegin, userEnd)
      invariant forall S :: OverlapClosed(S, files, UserOf(begin), UserOf(end)) ==>
                CoveredBy(S, files, userBegin, userEnd)
      decreases StartsBelow(files, userBegin), EndsAbove(files, userEnd), |files| - i
    {
      var f := files[i];
      assert files[..i + 1][..i] == files[..i];
      ghost var at := i;
      i := i + 1;
      if userBegin.Some? && f.largest.user < userBegin.value {
      } else if userEnd.Some? && f.smallest.user > userEnd.value {
      } else {
        inputs := inputs + [f];
        if level == 0 {
          if userBegin.Some? && f.smallest.user < userBegin.value {
            Widen(files, UserOf(begin), UserOf(end), userBegin, userEnd, f, Some(f.smallest.user), userEnd);
            assert at in StartsBelow(files, userBegin);
            userBegin := Some(f.smallest.user);
            inputs := [];
            i := 0;
          } else if userEnd.Some? && f.largest.user > userEnd.value {
            Widen(files, UserOf(begin), UserOf(end), userBegin, userEnd, f, userBegin, Some(f.largest.user));
            assert at in EndsAbove(files, userEnd);
            userEnd := Some(f.largest.user);
            inputs := [];
            i := 0;
          }
        }
      }
    }
    assert files[..i] == files;
    if level == 0 {
      InsideClosed(files, UserOf(begin), UserOf(end), userBegin, userEnd, inputs);
    }
  }

  predicate Inside(f: File, begin: Option<UserKey>, end: Option<UserKey>)
  {
    (begin.Some? ==> begin.value <= f.smallest.user) && (end.Some? ==> f.largest.user <= end.value)
  }

  lemma {:induction false} Widen(files: seq<File>, begin: Option<UserKey>, end: Option<UserKey>,
              b: Option<UserKey>, e: Option<UserKey>, f: File, b': Option<UserKey>, e': Option<UserKey>)
    requires AllWellFormed(files)
    requires forall S :: OverlapClosed(S, files, begin, end) ==> CoveredBy(S, files, b, e)
    requires f in files && Touches(f, b, e)
    requires || (b.Some? && f.smallest.user < b.value && b' == Some(f.smallest.user) && e' == e)
             || (e.Some? && f.largest.user > e.value && b' == b && e' == Some(f.largest.user))
    ensures forall S :: OverlapClosed(S, files, begin, end) ==> CoveredBy(S, files, b', e')
  {
    forall S | OverlapClosed(S, files, begin, end)
      ensures CoveredBy(S, files, b', e')
    {
      WidenedCovered(S, files, begin, end, b, e, f, b', e');
    }
  }

  lemma {:induction false} InsideClosed(files: seq<File>, begin: Option<UserKey>, end: Option<UserKey>,
                     b: Option<UserKey>, e: Option<UserKey>, inputs: seq<File>)
    requires AllWellFormed(files) && inputs == Touching(files, b, e)
    requires begin.Some? == b.Some? && (b.Some? ==> b.value <= begin.value)
    requires end.Some? == e.Some? && (e.Some? ==> e.value >= end.value)
    requires forall f :: f in inputs ==> Inside(f, b, e)
    requires forall S :: OverlapClosed(S, files, begin, end) ==> CoveredBy(S, files, b, e)
    ensures LeastClosed(FileSet(inputs), files, begin, end)
  {
    forall f, g | f in inputs && f in files && g in files && UserOverlap(f, g)
      ensures g in inputs
    {
      UserRange(f);
      UserRange(g);
    }
  }

  // ----- boundary files

  /** The file starts after `k` with an older entry of the same user key. */
  predicate Continues(k: InternalKey, f: File)
  {
    Less(k, f.smallest) && f.smallest.user == k.user
  }

  /** The continuation of `k` that starts earliest. */
  function SmallestContinuation(level: seq<File>, k: InternalKey): (r: Option<File>)
    ensures r == None ==> forall f :: f in level ==> !Continues(k, f)
    ensures r.Some? ==> r.value in level && Continues(k, r.value)
    ensures r.Some? ==> forall f :: f in level && Continues(k, f) ==> AtMost(r.value.smallest, f.smallest)
  {
    if level == [] then None
    else
      var n := |level| - 1;
      var m, f := SmallestContinuation(level[..n], k), level[n];
      assert level == level[..n] + [f];
      if Continues(k, f) && (m.None? || Less(f.smallest, m.value.smallest)) then Some(f) else m
  }

  method FindSmallestBoundaryFile(level: seq<File>, k: InternalKey) returns (r: Option<File>)
    ensures r == SmallestContinuation(level, k)
  {
    r := None;
    for i := 0 to |level|
      invariant r == SmallestContinuation(level[..i], k)
    {
      var f := level[i];
      assert level[..i + 1][..i] == level[..i];
      if Less(k, f.smallest) && f.smallest.user == k.user {
        if r.None? || Less(f.smallest, r.value.smallest) {
          r := Some(f);
        }
      }
    }
    assert level[..|level|] == level;
  }

  ghost function StartsAfter(level: seq<File>, k: InternalKey): set<nat>
  {
    set i: nat | i < |level| && Less(k, level[i].smallest)
  }

  lemma {:induction false} ContinuationProgress(level: seq<File>, k: InternalKey, f: File)
    requires f in level && WellFormed(f) && Less(k, f.smallest)
    ensures StartsAfter(level, f.largest) < StartsAfter(level, k)
  {
    InRange(f, f.entries[0]);
    var i :| 0 <= i < |level| && level[i] == f;
    assert i in StartsAfter(level, k) && i !in StartsAfter(level, f.largest);
    forall j | j in StartsAfter(level, f.largest)
      ensures j in StartsAfter(level, k)
    {
    }
  }

  /** The files followed by the chain of files that continue the last user key. */
  function Extend(level: seq<File>, files: seq<File>, k: InternalKey): seq<File>
    requires AllWellFormed(level)
    decreases StartsAfter(level, k)
  {
    match SmallestContinuation(level, k)
    case None => files
    case Some(f) => ContinuationProgress(level, k, f); Extend(level, files + [f], f.largest)
  }

  function WithBoundary(level: seq<File>, files: seq<File>): seq<File>
    requires AllWellFormed(level)
  {
    if files == [] then [] else Extend(level, files, LargestKey(files))
  }

  method AddBoundaryInputs(level: seq<File>, compactionFiles: seq<File>) returns (files: seq<File>)
    requires AllWellFormed(level)
    ensures files == WithBoundary(level, compactionFiles)
  {
    files := compactionFiles;
    if |files| == 0 {
      return;
    }
    var _, largest := GetRange(files);
    var searching := true;
    while searching
      invariant if searching then Extend(level, files, largest) == WithBoundary(level, compactionFiles)
                else files == WithBoundary(level, compactionFiles)
      decreases searching, StartsAfter(level, largest)
    {
      var f := FindSmallestBoundaryFile(level, largest);
      if f.Some? {
        ContinuationProgress(level, largest, f.value);
        files := files + [f.value];
        largest := f.value.largest;
      } else {
        searching := false;
      }
    }
  }

  /** What the boundary adds: files of the level, each starting with the user key some chosen file ends with, older
      than that end; and nothing of that kind is left. */
  lemma {:induction false} BoundaryExact(level: seq<File>, files: seq<File>)
    requires AllWellFormed(level) && files != []
    ensures var r := WithBoundary(level, files);
            && files <= r
            && (forall f :: f in r && f !in files ==> f in level && exists g :: g in r && EndsInto(g, f))
            && (exists last :: last in r && forall g :: g in level ==> !EndsInto(last, g))
  {
    LastFile(files);
    var last :| last in files && last.largest == LargestKey(files);
    ExtendExact(level, files, files, last);
  }

  /** `f` starts with the user key that `g` ends with, after that end. */
  ghost predicate EndsInto(g: File, f: File)
  {
    g.largest.user == f.smallest.user && Less(g.largest, f.smallest)
  }

  lemma {:induction false} LastFile(files: seq<File>)
    requires files != []
    ensures exists f :: f in files && f.largest == LargestKey(files)
  {
    var n := |files| - 1;
    assert files[n] in files;
    if n > 0 {
      LastFile(files[..n]);
      var f :| f in files[..n] && f.largest == LargestKey(files[..n]);
      assert f in files;
    }
  }

  ghost predicate Added(level: seq<File>, files: seq<File>, r: seq<File>)
  {
    files <= r && forall f :: f in r && f !in files ==> f in level && exists g :: g in r && EndsInto(g, f)
  }

  lemma {:induction false} ExtendExact(level: seq<File>, files: seq<File>, have: seq<File>, last: File)
    requires AllWellFormed(level) && last in have && Added(level, files, have)
    ensures var r := Extend(level, have, last.largest);
            Added(level, files, r) && exists end :: end in r && forall g :: g in level ==> !EndsInto(end, g)
    decreases StartsAfter(level, last.largest)
  {
    match SmallestContinuation(level, last.largest)
    case None =>
      assert forall g :: g in level ==> !EndsInto(last, g);
    case Some(f) =>
      ContinuationProgress(level, last.largest, f);
      AddedOne(level, files, have, last, f);
      ExtendExact(level, files, have + [f], f);
  }

  lemma {:induction false} AddedOne(level: seq<File>, files: seq<File>, have: seq<File>, last: File, f: File)
    requires last in have && Added(level, files, have) && f in level && EndsInto(last, f)
    ensures Added(level, files, have + [f])
  {
    var more := have + [f];
    forall x | x in more && x !in files ensures x in level && exists g :: g in more && EndsInto(g, x) {
      if x in have {
        var g :| g in have && EndsInto(g, x);
        assert g in more;
      } else {
        assert last in more && EndsInto(last, x);
      }
    }
  }

  /** The chosen files are consecutive in the level. */
  ghost predicate Convex(level: seq<File>, S: seq<File>)
  {
    forall i, j, k :: 0 <= i < j < k < |level| && level[i] in S && level[k] in S ==> level[j] in S
  }

  ghost predicate Subset(S: seq<File>, level: seq<File>)
  {
    forall f :: f in S ==> f in level
  }

  /** Consecutive files of the level, none of whose successors continues their last user key. */
  ghost predicate Whole(level: seq<File>, S: seq<File>)
  {
    && |S| > 0
    && Subset(S, level)
    && Convex(level, S)
    && forall g :: g in level ==> !Continues(LargestKey(S), g)
  }

  lemma {:induction false} LevelOrder(level: seq<File>, i: nat, j: nat)
    requires AllWellFormed(level) && SortedLevel(level) && i < |level| && j < |level|
    ensures i <= j <==> AtMost(level[i].smallest, level[j].smallest)
    ensures i < j <==> Less(level[i].largest, level[j].smallest)
    ensures i < j <==> Less(level[i].largest, level[j].largest)
  {
    assert level[i] in level && level[j] in level;
    InRange(level[i], level[i].entries[0]);
    InRange(level[j], level[j].entries[0]);
  }

  lemma {:induction false} BeforeIff(level: seq<File>, i: nat, j: nat)
    requires AllWellFormed(level) && SortedLevel(level) && i < |level| && j < |level|
    ensures i < j <==> Less(level[i].largest, level[j].smallest)
  {
    LevelOrder(level, i, j);
  }

  lemma {:induction false} StartsInOrder(level: seq<File>, i: nat, j: nat)
    requires AllWellFormed(level) && SortedLevel(level) && i < |level| && j < |level|
    ensures i <= j <==> AtMost(level[i].smallest, level[j].smallest)
  {
    LevelOrder(level, i, j);
  }

  /** A continuation of the last chosen file is the next file of the level. */
  lemma {:induction false} ContinuationIsNext(level: seq<File>, q: nat, p: nat)
    requires AllWellFormed(level) && SortedLevel(level)
    requires q < |level| && p < |level| && Continues(level[q].largest, level[p])
    requires forall g :: g in level && Continues(level[q].largest, g) ==> AtMost(level[p].smallest, g.smallest)
    ensures p == q + 1
  {
    BeforeIff(level, q, p);
    StartsInOrder(level, q + 1, p);
    assert Continues(level[q].largest, level[q + 1]) by {
      BeforeIff(level, q, q + 1);
      Sandwiched(level[q].largest, level[q].largest, level[q + 1].smallest, level[p].smallest);
    }
    assert level[q + 1] in level;
    StartsInOrder(level, p, q + 1);
  }

  lemma {:induction false} Sandwiched(b: InternalKey, k: InternalKey, m: InternalKey, a: InternalKey)
    requires AtMost(b, k) && Less(k, m) && AtMost(m, a) && a.user == b.user
    ensures k.user == m.user
  {
  }

  lemma {:induction false} ConvexSnoc(level: seq<File>, S: seq<File>, q: nat)
    requires AllWellFormed(level) && SortedLevel(level) && Convex(level, S) && Subset(S, level)
    requires q + 1 < |level| && level[q] in S
    requires forall f :: f in S ==> AtMost(f.largest, level[q].largest)
    ensures Convex(level, S + [level[q + 1]])
  {
    var T := S + [level[q + 1]];
    forall i, j, k | 0 <= i < j < k < |level| && level[i] in T && level[k] in T
      ensures level[j] in T
    {
      LevelOrder(level, q, i);
      LevelOrder(level, q, k);
      LevelOrder(level, q + 1, i);
      LevelOrder(level, q + 1, k);
    }
  }

  lemma {:induction false} LastIndex(level: seq<File>, S: seq<File>) returns (q: nat)
    requires |S| > 0 && Subset(S, level)
    ensures q < |level| && level[q] in S && level[q].largest == LargestKey(S)
    ensures forall g :: g in S ==> AtMost(g.largest, level[q].largest)
  {
    var first, last := RangeAttained(S);
    q :| 0 <= q < |level| && level[q] == last;
    forall g | g in S ensures AtMost(g.largest, level[q].largest) { RangeBound(S, g); }
  }

  lemma {:induction false} LargestSnoc(S: seq<File>, f: File)
    requires |S| > 0 && WellFormed(f) && Less(LargestKey(S), f.smallest)
    ensures LargestKey(S + [f]) == f.largest
  {
    InRange(f, f.entries[0]);
    assert (S + [f])[..|S|] == S;
  }

  /** Adding the continuation of the last file keeps the choice consecutive. */
  lemma {:induction false} ConvexStep(level: seq<File>, S: seq<File>, f: File)
    requires AllWellFormed(level) && SortedLevel(level)
    requires |S| > 0 && Subset(S, level) && Convex(level, S)
    requires SmallestContinuation(level, LargestKey(S)) == Some(f)
    ensures Convex(level, S + [f])
  {
    var q := LastIndex(level, S);
    var p :| 0 <= p < |level| && level[p] == f;
    ContinuationIsNext(level, q, p);
    ConvexSnoc(level, S, q);
  }

  lemma {:induction false} ExtendWhole(level: seq<File>, S: seq<File>, k: InternalKey)
    requires AllWellFormed(level) && SortedLevel(level)
    requires |S| > 0 && Subset(S, level) && Convex(level, S) && k == LargestKey(S)
    ensures Whole(level, Extend(level, S, k))
    ensures forall f :: f in S ==> f in Extend(level, S, k)
    decreases StartsAfter(level, k)
  {
    match SmallestContinuation(level, k) {
      case None =>
      case Some(f) =>
        ContinuationProgress(level, k, f);
        ConvexStep(level, S, f);
        LargestSnoc(S, f);
        ExtendWhole(level, S + [f], f.largest);
    }
  }

  lemma {:induction false} ExtendNoRepeats(level: seq<File>, S: seq<File>, k: InternalKey)
    requires AllWellFormed(level) && |S| > 0 && NoRepeats(S) && k == LargestKey(S) && AllWellFormed(S)
    ensures NoRepeats(Extend(level, S, k))
    decreases StartsAfter(level, k)
  {
    match SmallestContinuation(level, k) {
      case None =>
      case Some(f) =>
        ContinuationProgress(level, k, f);
        LargestSnoc(S, f);
        assert f !in S by {
          InRange(f, f.entries[0]);
          if f in S {
            RangeBound(S, f);
          }
        }
        ExtendNoRepeats(level, S + [f], f.largest);
    }
  }

  /** What stays behind in a level is newer than what is taken from it, per user key. */
  ghost predicate RestNewer(level: seq<File>, S: seq<File>)
  {
    forall f, g :: f in S && g in level && g !in S ==> Above(Contents(g), Contents(f))
  }

  lemma {:induction false} WholeRestNewer(level: seq<File>, S: seq<File>)
    requires AllWellFormed(level) && SortedLevel(level) && UniqueSeqs(LevelEntries(level))
    requires Whole(level, S)
    ensures RestNewer(level, S)
  {
    forall f, g, b, a | f in S && g in level && g !in S && a in Contents(g) && b in Contents(f)
        && a.key.user == b.key.user
      ensures a.key.sequence > b.key.sequence
    {
      assert f in level;
      var i :| 0 <= i < |level| && level[i] == g;
      var j :| 0 <= j < |level| && level[j] == f;
      InRange(g, a);
      InRange(f, b);
      if j < i {
        LastIsContinued(level, S, j, i, a, b);
      } else {
        LevelOrder(level, i, j);
        assert a in LevelEntries(level) && b in LevelEntries(level);
      }
    }
  }

  /** If a file left behind came after a chosen one and shared a user key with it, it would
      continue the last chosen file. */
  lemma {:induction false} LastIsContinued(level: seq<File>, S: seq<File>, j: nat, i: nat, a: Entry, b: Entry)
    requires AllWellFormed(level) && SortedLevel(level) && |S| > 0 && Subset(S, level) && Convex(level, S)
    requires j < i < |level| && level[j] in S && level[i] !in S
    requires a in level[i].entries && b in level[j].entries && a.key.user == b.key.user
    ensures Continues(LargestKey(S), level[i])
  {
    var q := LastIndex(level, S);
    assert AtMost(b.key, level[q].largest) by {
      assert level[j] in level;
      InRange(level[j], b);
    }
    assert AtMost(level[i].smallest, a.key) by {
      assert level[i] in level;
      InRange(level[i], a);
    }
    assert q < i by {
      LevelOrder(level, j, q);
      assert j <= q;
    }
    Sandwiched(b.key, level[q].largest, level[i].smallest, a.key);
  }

  // ----- pairing two levels

  /** Inputs a compaction may start from: an overlap-closed set of level-0 files, or
      consecutive files of a deeper level. */
  ghost predicate Startable(v: Version, L: nat, I0: seq<File>)
    requires L < |v.levels|
  {
    && |I0| > 0
    && NoRepeats(I0)
    && Subset(I0, v.levels[L])
    && (L == 0 ==> forall f, g :: f in I0 && g in v.levels[0] && UserOverlap(f, g) ==> g in I0)
    && (L > 0 ==> Convex(v.levels[L], I0))
  }

  /** ... which moreover leave nothing behind that continues their last user key. */
  ghost predicate Complete(v: Version, L: nat, I0: seq<File>)
    requires L < |v.levels|
  {
    Startable(v, L, I0) && (L > 0 ==> Whole(v.levels[L], I0))
  }

  /** The next level's files that meet the user-key range of `I0`, with their boundary. */
  function NextInputs(v: Version, L: nat, I0: seq<File>): seq<File>
    requires L + 1 < |v.levels| && AllWellFormed(v.levels[L + 1]) && |I0| > 0
  {
    WithBoundary(v.levels[L + 1],
                 Touching(v.levels[L + 1], Some(SmallestKey(I0).user), Some(LargestKey(I0).user)))
  }

  /** `I0` from level `L` and `I1` from the next level fit together. */
  ghost predicate Paired(v: Version, L: nat, I0: seq<File>, I1: seq<File>)
    requires L + 1 < |v.levels| && AllWellFormed(v.levels[L + 1])
  {
    Complete(v, L, I0) && I1 == NextInputs(v, L, I0)
  }

  lemma {:induction false} ClosedNeedsNoBoundary(files: seq<File>, I0: seq<File>)
    requires AllWellFormed(files) && |I0| > 0 && Subset(I0, files)
    requires forall f, g :: f in I0 && g in files && UserOverlap(f, g) ==> g in I0
    ensures WithBoundary(files, I0) == I0
  {
    var k := LargestKey(I0);
    var m := SmallestContinuation(files, k);
    if m.Some? {
      var first, last := RangeAttained(I0);
      UserRange(last);
      UserRange(m.value);
      assert UserOverlap(last, m.value);
      RangeBound(I0, m.value);
      InRange(m.value, m.value.entries[0]);
      assert false;
    }
  }

  lemma {:induction false} BoundaryCompletes(v: Version, L: nat, I0: seq<File>)
    requires Shaped(v) && L < NUM_LEVELS && Startable(v, L, I0)
    ensures Complete(v, L, WithBoundary(v.levels[L], I0)) && WithBoundary(v.levels[L], I0) != []
    ensures forall f :: f in I0 ==> f in WithBoundary(v.levels[L], I0)
  {
    ExtendNoRepeats(v.levels[L], I0, LargestKey(I0));
    if L == 0 {
      ClosedNeedsNoBoundary(v.levels[0], I0);
    } else {
      ExtendWhole(v.levels[L], I0, LargestKey(I0));
    }
  }

  lemma {:induction false} TouchingConvex(level: seq<File>, begin: Option<UserKey>, end: Option<UserKey>)
    requires AllWellFormed(level) && SortedLevel(level)
    ensures Convex(level, Touching(level, begin, end)) && Subset(Touching(level, begin, end), level)
  {
    forall i, j, k | 0 <= i < j < k < |level| && Touches(level[i], begin, end) && Touches(level[k], begin, end)
      ensures level[j] in Touching(level, begin, end)
    {
      LevelOrder(level, i, j);
      LevelOrder(level, j, k);
      assert level[j] in level;
    }
  }

  lemma {:induction false} TouchingSorted(level: seq<File>, b: Option<UserKey>, e: Option<UserKey>)
    requires SortedLevel(level)
    ensures SortedLevel(Touching(level, b, e))
  {
    if level != [] {
      var n := |level| - 1;
      TouchingSorted(level[..n], b, e);
      var T := Touching(level[..n], b, e);
      forall i | 0 <= i < |T|
        ensures Less(T[i].largest, level[n].smallest)
      {
        assert T[i] in T;
        var j :| 0 <= j < n && level[j] == T[i];
      }
    }
  }

  /** Boundary files come after the files they are added to. */
  lemma {:induction false} ExtendSorted(level: seq<File>, S: seq<File>, k: InternalKey)
    requires AllWellFormed(level) && |S| > 0 && SortedLevel(S) && k == LargestKey(S)
    ensures SortedLevel(Extend(level, S, k))
    decreases StartsAfter(level, k)
  {
    match SmallestContinuation(level, k) {
      case None =>
      case Some(f) =>
        ContinuationProgress(level, k, f);
        LargestSnoc(S, f);
        forall i | 0 <= i < |S| ensures Less(S[i].largest, f.smallest) { RangeBound(S, S[i]); }
        ExtendSorted(level, S + [f], f.largest);
    }
  }

  /** The inputs of a compaction stand in key order, those of level 0 excepted. */
  ghost predicate InOrder(L: nat, I0: seq<File>, I1: seq<File>)
  {
    (L > 0 ==> SortedLevel(I0)) && SortedLevel(I1)
  }

  lemma {:induction false} BoundarySorted(level: seq<File>, S: seq<File>)
    requires AllWellFormed(level) && SortedLevel(S)
    ensures SortedLevel(WithBoundary(level, S))
  {
    if S != [] {
      ExtendSorted(level, S, LargestKey(S));
    }
  }

  /** The files of the next level that are taken: those that span a user key of the inputs' range, and those that go on
      where one of them ends. */
  lemma {:induction false} NextInputsExact(v: Version, L: nat, I0: seq<File>)
    requires L + 1 < |v.levels| && AllWellFormed(v.levels[L + 1]) && |I0| > 0
    ensures var lo, hi, I1 := SmallestKey(I0).user, LargestKey(I0).user, NextInputs(v, L, I0);
            && (forall f :: f in I1 ==> f in v.levels[L + 1])
            && (forall f :: f in v.levels[L + 1] && lo <= f.largest.user && f.smallest.user <= hi ==> f in I1)
            && (forall f :: f in I1 && !(lo <= f.largest.user && f.smallest.user <= hi) ==>
                  exists g :: g in I1 && EndsInto(g, f))
  {
    var level := v.levels[L + 1];
    var T := Touching(level, Some(SmallestKey(I0).user), Some(LargestKey(I0).user));
    if T != [] {
      BoundaryExact(level, T);
      hide WithBoundary, EndsInto;
      var I1 := WithBoundary(level, T);
      forall f | f in T ensures f in I1 {
        var i :| 0 <= i < |T| && T[i] == f;
        assert I1[i] == f;
      }
    }
  }

  lemma {:induction false} NextInputsSorted(v: Version, L: nat, I0: seq<File>)
    requires Shaped(v) && L + 1 < NUM_LEVELS && |I0| > 0
    ensures SortedLevel(NextInputs(v, L, I0))
  {
    hide Touching, WithBoundary;
    var level := v.levels[L + 1];
    var b, e := Some(SmallestKey(I0).user), Some(LargestKey(I0).user);
    TouchingSorted(level, b, e);
    BoundarySorted(level, Touching(level, b, e));
  }

  lemma {:induction false} NextInputsWhole(v: Version, L: nat, I0: seq<File>)
    requires Shaped(v) && L + 1 < NUM_LEVELS && |I0| > 0
    ensures var I1 := NextInputs(v, L, I0);
            && (I1 == [] || Whole(v.levels[L + 1], I1))
            && NoRepeats(I1)
            && (forall g ::
                  g in v.levels[L + 1] && Touches(g, Some(SmallestKey(I0).user), Some(LargestKey(I0).user)) ==>
                    g in I1)
            && (I1 != [] ==> exists p :: p in I1 && p in v.levels[L + 1]
                                         && Touches(p, Some(SmallestKey(I0).user), Some(LargestKey(I0).user)))
  {
    var level := v.levels[L + 1];
    var T := Touching(level, Some(SmallestKey(I0).user), Some(LargestKey(I0).user));
    TouchingConvex(level, Some(SmallestKey(I0).user), Some(LargestKey(I0).user));
    OrderedNoRepeats(level);
    TouchingNoRepeats(level, Some(SmallestKey(I0).user), Some(LargestKey(I0).user));
    if |T| > 0 {
      ExtendWhole(level, T, LargestKey(T));
      ExtendNoRepeats(level, T, LargestKey(T));
      assert T[0] in T;
    }
  }

  /** Every file left in the next level lies before all inputs or after all of them. */
  ghost predicate Apart(g: File, I0: seq<File>, I1: seq<File>)
  {
    || (forall f :: f in I0 || f in I1 ==> Less(g.largest, f.smallest))
    || (forall f :: f in I0 || f in I1 ==> Less(f.largest, g.smallest))
  }

  /** What keeps readings right: files left behind hold newer entries only. */
  ghost predicate CoreInputs(v: Version, L: nat, I0: seq<File>, I1: seq<File>)
    requires L + 1 < |v.levels|
  {
    && |I0| > 0
    && NoRepeats(I0) && NoRepeats(I1)
    && Subset(I0, v.levels[L])
    && Subset(I1, v.levels[L + 1])
    && RestNewer(v.levels[L], I0)
    && RestNewer(v.levels[L + 1], I1)
    && (forall f, g :: f in I0 && g in v.levels[L + 1] && g !in I1 ==> !UserOverlap(f, g))
  }

  /** ... and what moreover keeps the next level sorted. */
  ghost predicate GoodInputs(v: Version, L: nat, I0: seq<File>, I1: seq<File>)
    requires L + 1 < |v.levels|
  {
    CoreInputs(v, L, I0, I1) && forall g :: g in v.levels[L + 1] && g !in I1 ==> Apart(g, I0, I1)
  }

  lemma {:induction false} InHull(I0: seq<File>, f: File)
    requires f in I0
    ensures SmallestKey(I0).user <= f.smallest.user && f.largest.user <= LargestKey(I0).user
  {
    RangeBound(I0, f);
  }

  /** A file outside a run of consecutive files has all of them on the same side. */
  lemma {:induction false} ConvexSide(level: seq<File>, S: seq<File>, x: nat, y: nat)
    requires AllWellFormed(level) && SortedLevel(level) && Subset(S, level) && Convex(level, S)
    requires x < |level| && y < |level| && level[x] !in S && level[y] in S
    ensures x < y ==> forall f :: f in S ==> Less(level[x].largest, f.smallest)
    ensures y < x ==> forall f :: f in S ==> Less(f.largest, level[x].smallest)
  {
    forall f | f in S
      ensures x < y ==> Less(level[x].largest, f.smallest)
      ensures y < x ==> Less(f.largest, level[x].smallest)
    {
      var z :| 0 <= z < |level| && level[z] == f;
    }
  }

  /** A next-level file outside the hull of `I0` and not among `I1` is on one side of all. */
  lemma {:induction false} LeftBehindIsApart(v: Version, L: nat, I0: seq<File>, I1: seq<File>, g: File)
    requires Shaped(v) && L + 1 < NUM_LEVELS && AllWellFormed(I0) && |I0| > 0
    requires I1 == NextInputs(v, L, I0) && g in v.levels[L + 1] && g !in I1
    ensures Apart(g, I0, I1)
  {
    NextInputsWhole(v, L, I0);
    var level := v.levels[L + 1];
    var lo, hi := SmallestKey(I0).user, LargestKey(I0).user;
    forall f | f in I0
      ensures lo <= f.smallest.user && f.largest.user <= hi
    {
      InHull(I0, f);
    }
    UserRange(g);
    if I1 != [] {
      var p :| p in I1 && p in level && Touches(p, Some(lo), Some(hi));
      SideOfHull(level, I1, g, p, lo, hi);
    }
  }

  lemma {:induction false} SideOfHull(level: seq<File>, I1: seq<File>, g: File, p: File, lo: UserKey, hi: UserKey)
    requires AllWellFormed(level) && SortedLevel(level) && Subset(I1, level) && Convex(level, I1)
    requires g in level && g !in I1 && p in I1 && p in level
    requires Touches(p, Some(lo), Some(hi)) && !Touches(g, Some(lo), Some(hi))
    ensures g.largest.user < lo ==> forall f :: f in I1 ==> Less(g.largest, f.smallest)
    ensures g.smallest.user > hi ==> forall f :: f in I1 ==> Less(f.largest, g.smallest)
  {
    var x :| 0 <= x < |level| && level[x] == g;
    var y :| 0 <= y < |level| && level[y] == p;
    ConvexSide(level, I1, x, y);
    LevelOrder(level, x, y);
    LevelOrder(level, y, x);
    UserRange(g);
    UserRange(p);
  }

  lemma {:induction false} PairedIsGood(v: Version, L: nat, I0: seq<File>, I1: seq<File>)
    requires Shaped(v) && UniqueSeqs(Entries(v)) && L + 1 < NUM_LEVELS && Paired(v, L, I0, I1)
    ensures GoodInputs(v, L, I0, I1)
  {
    NextInputsWhole(v, L, I0);
    LevelSubset(v, L);
    LevelSubset(v, L + 1);
    if L == 0 {
      DisjointRestNewer(v.levels[0], I0);
    } else {
      WholeRestNewer(v.levels[L], I0);
    }
    if I1 != [] {
      WholeRestNewer(v.levels[L + 1], I1);
    }
    forall g | g in v.levels[L + 1] && g !in I1
      ensures Apart(g, I0, I1) && forall f :: f in I0 ==> !UserOverlap(f, g)
    {
      LeftBehindIsApart(v, L, I0, I1, g);
      NoOverlapOutsideHull(I0, g);
    }
  }

  lemma {:induction false} NoOverlapOutsideHull(I0: seq<File>, g: File)
    requires |I0| > 0 && !Touches(g, Some(SmallestKey(I0).user), Some(LargestKey(I0).user))
    ensures forall f :: f in I0 ==> !UserOverlap(f, g)
  {
    forall f | f in I0
      ensures !UserOverlap(f, g)
    {
      InHull(I0, f);
    }
  }

  lemma {:induction false} DisjointRestNewer(files: seq<File>, I0: seq<File>)
    requires AllWellFormed(files) && Subset(I0, files)
    requires forall f, g :: f in I0 && g in files && UserOverlap(f, g) ==> g in I0
    ensures RestNewer(files, I0)
  {
    forall f, g | f in I0 && g in files && g !in I0
      ensures Above(Contents(g), Contents(f))
    {
      UserRange(f);
      UserRange(g);
    }
  }
}
