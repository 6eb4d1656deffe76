/** Versions: seven levels of table files, the invariant that makes level-by-level lookup
    right, and the lookup itself. */
module Levels {
  import opened Ordering
  import opened Wrappers

  const NUM_LEVELS := 7

  /** A table file: its metadata and the entries the table holds. */
  datatype File = File(number: nat, size: nat, smallest: InternalKey, largest: InternalKey, entries: seq<Entry>)

  datatype Version = Version(levels: seq<seq<File>>)

  datatype Outcome = NotFound | Found(value: Val) | Deleted

  // ----- the invariant

  ghost predicate WellFormed(f: File)
  {
    && |f.entries| > 0
    && Sorted(f.entries)
    && f.smallest == f.entries[0].key
    && f.largest == f.entries[|f.entries| - 1].key
  }

  ghost predicate AllWellFormed(files: seq<File>)
  {
    forall f :: f in files ==> WellFormed(f)
  }

  /** Files in key order with disjoint internal-key ranges. */
  ghost predicate SortedLevel(files: seq<File>)
  {
    forall i, j :: 0 <= i < j < |files| ==> Less(files[i].largest, files[j].smallest)
  }

  ghost function Contents(f: File): set<Entry>
  {
    SetOf(f.entries)
  }

  ghost function LevelEntries(files: seq<File>): set<Entry>
  {
    set f, e | f in files && e in f.entries :: e
  }

  ghost function EntriesFrom(v: Version, l: nat): set<Entry>
  {
    set m, e | l <= m < |v.levels| && e in LevelEntries(v.levels[m]) :: e
  }

  ghost function Entries(v: Version): set<Entry>
  {
    EntriesFrom(v, 0)
  }

  /** Every entry of `A` is newer than every entry of `B` with the same user key. */
  ghost predicate Above(A: set<Entry>, B: set<Entry>)
  {
    forall a, b :: a in A && b in B && a.key.user == b.key.user ==> a.key.sequence > b.key.sequence
  }

  /** The order in which a version keeps the files of a level. */
  predicate BySmallest(f: File, g: File)
  {
    Less(f.smallest, g.smallest) || (f.smallest == g.smallest && f.number < g.number)
  }

  ghost predicate Ordered(files: seq<File>)
  {
    forall i, j :: 0 <= i < j < |files| ==> BySmallest(files[i], files[j])
  }

  ghost predicate NumbersUnique(v: Version)
  {
    forall l, m, f, g ::
      0 <= l < |v.levels| && 0 <= m < |v.levels| && f in v.levels[l] && g in v.levels[m] && f.number == g.number ==>
        l == m && f == g
  }

  /** Level-0 files with larger numbers hold newer entries. */
  ghost predicate NewerByNumber(files: seq<File>)
  {
    forall f, g :: f in files && g in files && f.number > g.number ==> Above(Contents(f), Contents(g))
  }

  /** Shallower levels hold newer entries, per user key. */
  ghost predicate Recency(v: Version)
  {
    forall l, m :: 0 <= l < m < |v.levels| ==> Above(LevelEntries(v.levels[l]), LevelEntries(v.levels[m]))
  }

  ghost predicate Shaped(v: Version)
  {
    && |v.levels| == NUM_LEVELS
    && (forall l :: 0 <= l < NUM_LEVELS ==> AllWellFormed(v.levels[l]) && Ordered(v.levels[l]))
    && (forall l :: 1 <= l < NUM_LEVELS ==> SortedLevel(v.levels[l]))
    && NumbersUnique(v)
  }

  ghost predicate Valid(v: Version)
  {
    && Shaped(v)
    && NewerByNumber(v.levels[0])
    && Recency(v)
    && UniqueSeqs(Entries(v))
  }

  lemma {:induction false} LevelSubset(v: Version, l: nat)
    requires l < |v.levels|
    ensures LevelEntries(v.levels[l]) <= Entries(v)
  {
  }

  lemma {:induction false} InRange(f: File, e: Entry)
    requires WellFormed(f) && e in f.entries
    ensures AtMost(f.smallest, e.key) && AtMost(e.key, f.largest)
  {
  }

  // ----- one table, one level, all levels

  /** First entry at or after `k`: where a seek in a table or memtable lands. */
  function Seek(es: seq<Entry>, k: InternalKey): (i: nat)
    ensures i <= |es|
    ensures forall j :: 0 <= j < i ==> Less(es[j].key, k)
    ensures i < |es| ==> AtMost(k, es[i].key)
  {
    if es == [] || AtMost(k, es[0].key) then 0 else 1 + Seek(es[1..], k)
  }

  function OutcomeOf(e: Entry): Outcome
  {
    if e.key.kind.Value? then Found(e.value) else Deleted
  }

  /** A point lookup in one sorted run: the entry at the seek position counts only when it
      belongs to the user key looked up. */
  function TableGet(es: seq<Entry>, u: UserKey, s: nat): Outcome
  {
    var i := Seek(es, LookupKey(u, s));
    if i < |es| && es[i].key.user == u then OutcomeOf(es[i]) else NotFound
  }

  /** The bisection of `FindFile`, on the window [left, right). */
  function Bisect(files: seq<File>, key: InternalKey, left: nat, right: nat): (r: nat)
    requires left <= right <= |files|
    ensures left <= r <= right
    decreases right - left
  {
    if left == right then right
    else
      var mid := (left + right) / 2;
      if Less(files[mid].largest, key) then Bisect(files, key, mid + 1, right) else Bisect(files, key, left, mid)
  }

  /** The first file, if any, that ends at or after `key` is at `r`. */
  ghost predicate IsFirstEnding(files: seq<File>, key: InternalKey, r: nat)
  {
    && r <= |files|
    && (forall i :: 0 <= i < r ==> Less(files[i].largest, key))
    && (forall i :: r <= i < |files| ==> !Less(files[i].largest, key))
  }

  method FindFile(files: seq<File>, key: InternalKey) returns (right: nat)
    ensures right == Bisect(files, key, 0, |files|)
    ensures AllWellFormed(files) && SortedLevel(files) ==> IsFirstEnding(files, key, right)
  {
    if AllWellFormed(files) && SortedLevel(files) {
      BisectFinds(files, key, 0, |files|);
    }
    hide AllWellFormed, SortedLevel, IsFirstEnding;
    var left := 0;
    right := |files|;
    while left < right
      invariant 0 <= left <= right <= |files|
      invariant Bisect(files, key, left, right) == Bisect(files, key, 0, |files|)
    {
      var mid := (left + right) / 2;
      if Less(files[mid].largest, key) {
        left := mid + 1;
      } else {
        right := mid;
      }
    }
  }

  /** On a sorted level the bisection finds the first file that ends at or after `key`. */
  lemma {:induction false} BisectFinds(files: seq<File>, key: InternalKey, left: nat, right: nat)
    requires left <= right <= |files|
    requires AllWellFormed(files) && SortedLevel(files)
    requires forall i :: 0 <= i < left ==> Less(files[i].largest, key)
    requires forall i :: right <= i < |files| ==> !Less(files[i].largest, key)
    ensures var r := Bisect(files, key, left, right);
            && (forall i :: 0 <= i < r ==> Less(files[i].largest, key))
            && (forall i :: r <= i < |files| ==> !Less(files[i].largest, key))
    decreases right - left
  {
    if left < right {
      var mid := (left + right) / 2;
      forall i | 0 <= i < |files|
        ensures AtMost(files[i].smallest, files[i].largest)
      {
        assert files[i] in files;
        InRange(files[i], files[i].entries[0]);
      }
      if Less(files[mid].largest, key) {
        BisectFinds(files, key, mid + 1, right);
      } else {
        BisectFinds(files, key, left, mid);
      }
    }
  }

  /** Level-0 files whose user-key range covers `u`. */
  function Covering(files: seq<File>, u: UserKey): seq<File>
  {
    if files == [] then []
    else (if files[0].smallest.user <= u <= files[0].largest.user then [files[0]] else []) + Covering(files[1..], u)
  }

  function InsertByNumber(f: File, fs: seq<File>): seq<File>
  {
    if fs == [] || f.number > fs[0].number then [f] + fs else [fs[0]] + InsertByNumber(f, fs[1..])
  }

  /** The files sorted by descending number. */
  function NewestFirst(fs: seq<File>): seq<File>
  {
    if fs == [] then [] else InsertByNumber(fs[0], NewestFirst(fs[1..]))
  }

  function ProbeInOrder(fs: seq<File>, u: UserKey, s: nat): Outcome
  {
    if fs == [] then NotFound
    else
      var r := TableGet(fs[0].entries, u, s);
      if r == NotFound then ProbeInOrder(fs[1..], u, s) else r
  }

  function ProbeLevel(files: seq<File>, u: UserKey, s: nat): Outcome
  {
    var index := Bisect(files, LookupKey(u, s), 0, |files|);
    if index < |files| && files[index].smallest.user <= u then TableGet(files[index].entries, u, s) else NotFound
  }

  function ProbeLevels(v: Version, l: nat, u: UserKey, s: nat): Outcome
    decreases |v.levels| - l
  {
    if l >= |v.levels| then NotFound
    else
      var r := ProbeLevel(v.levels[l], u, s);
      if r == NotFound then ProbeLevels(v, l + 1, u, s) else r
  }

  function VersionGet(v: Version, u: UserKey, s: nat): Outcome
    requires |v.levels| == NUM_LEVELS
  {
    var r := ProbeInOrder(NewestFirst(Covering(v.levels[0], u)), u, s);
    if r == NotFound then ProbeLevels(v, 1, u, s) else r
  }

  method CollectCovering(files: seq<File>, u: UserKey) returns (tmp: seq<File>)
    ensures tmp == Covering(files, u)
  {
    tmp := [];
    for i := 0 to |files|
      invariant tmp + Covering(files[i..], u) == Covering(files, u)
    {
      var f := files[i];
      ghost var rest := Covering(files[i + 1..], u);
      assert files[i..][1..] == files[i + 1..];
      if f.smallest.user <= u <= f.largest.user {
        assert tmp + ([f] + rest) == (tmp + [f]) + rest;
        tmp := tmp + [f];
      }
    }
    assert files[|files|..] == [];
  }

  /** `Version::Get`: level 0 newest first, then at most one file of each deeper level. */
  method Get(v: Version, u: UserKey, s: nat) returns (r: Outcome)
    requires |v.levels| == NUM_LEVELS
    ensures r == VersionGet(v, u, s)
    ensures Valid(v) ==> AsReading(r) == View(Entries(v), u, s)
  {
    assert Valid(v) ==> AsReading(VersionGet(v, u, s)) == View(Entries(v), u, s) by {
      if Valid(v) { GetReadsView(v, u, s); }
    }
    hide Valid, AsReading;
    var tmp := CollectCovering(v.levels[0], u);
    tmp := NewestFirst(tmp);
    for i := 0 to |tmp|
      invariant ProbeInOrder(tmp[i..], u, s) == ProbeInOrder(tmp, u, s)
    {
      r := TableGet(tmp[i].entries, u, s);
      if r != NotFound {
        return;
      }
      assert tmp[i..][1..] == tmp[i + 1..];
    }
    r := GetDeeper(v, u, s);
  }

  method GetDeeper(v: Version, u: UserKey, s: nat) returns (r: Outcome)
    requires |v.levels| == NUM_LEVELS
    ensures r == ProbeLevels(v, 1, u, s)
    ensures Valid(v) ==> Answers(r, EntriesFrom(v, 1), u, s)
  {
    assert Valid(v) ==> Answers(ProbeLevels(v, 1, u, s), EntriesFrom(v, 1), u, s) by {
      if Valid(v) { ProbeLevelsAnswers(v, 1, u, s); }
    }
    hide Valid, Answers;
    for level := 1 to NUM_LEVELS
      invariant ProbeLevels(v, level, u, s) == ProbeLevels(v, 1, u, s)
    {
      var files := v.levels[level];
      if |files| > 0 {
        var index := FindFile(files, LookupKey(u, s));
        if index < |files| && files[index].smallest.user <= u {
          r := TableGet(files[index].entries, u, s);
          if r != NotFound {
            return;
          }
        }
      }
    }
    r := NotFound;
  }

  // ----- the lookup reads the view

  /** `r` is what looking for `u` at `s` among `E` must give. */
  ghost predicate Answers(r: Outcome, E: set<Entry>, u: UserKey, s: nat)
  {
    if r == NotFound then forall e :: e in E ==> !Visible(e, u, s)
    else exists e :: Newest(E, u, s, e) && r == OutcomeOf(e)
  }

  function AsReading(r: Outcome): Option<Val>
  {
    if r.Found? then Some(r.value) else None
  }

  lemma {:induction false} AnswersGiveView(r: Outcome, E: set<Entry>, u: UserKey, s: nat)
    requires UniqueSeqs(E) && Answers(r, E, u, s)
    ensures AsReading(r) == View(E, u, s)
  {
    if r == NotFound {
      ViewOfNone(E, u, s);
    } else {
      var e :| Newest(E, u, s, e) && r == OutcomeOf(e);
      ViewOfNewest(E, u, s, e);
    }
  }

  /** Looking in `A` first and in `B` only when `A` has nothing is right when `A` is newer. */
  lemma {:induction false} Shadowing(A: set<Entry>, B: set<Entry>, ra: Outcome, rb: Outcome, u: UserKey, s: nat)
    requires Above(A, B)
    requires Answers(ra, A, u, s)
    requires ra == NotFound ==> Answers(rb, B, u, s)
    ensures Answers(if ra == NotFound then rb else ra, A + B, u, s)
  {
    if ra == NotFound {
      if rb != NotFound {
        var e :| Newest(B, u, s, e) && rb == OutcomeOf(e);
        assert Newest(A + B, u, s, e);
      }
    } else {
      var e :| Newest(A, u, s, e) && ra == OutcomeOf(e);
      assert Newest(A + B, u, s, e);
    }
  }

  lemma {:induction false} TableGetAnswers(es: seq<Entry>, u: UserKey, s: nat)
    requires Sorted(es)
    ensures Answers(TableGet(es, u, s), SetOf(es), u, s)
  {
    var i := Seek(es, LookupKey(u, s));
    var E := SetOf(es);
    if i < |es| && es[i].key.user == u {
      assert Newest(E, u, s, es[i]);
    } else {
      forall e | e in E
        ensures !Visible(e, u, s)
      {
        var j :| 0 <= j < |es| && es[j] == e;
        if i < j {
          assert Less(es[i].key, es[j].key);
        }
      }
    }
  }

  /** On a sorted level every visible entry lies in the file the bisection finds or in a
      later one, and in the latter case the found file ends with a visible entry. */
  lemma {:induction false} VisibleAtIndex(files: seq<File>, u: UserKey, s: nat, index: nat, e: Entry, j: nat)
    requires AllWellFormed(files) && SortedLevel(files)
    requires j < |files| && e in files[j].entries && Visible(e, u, s)
    requires index <= |files|
    requires forall i :: 0 <= i < index ==> Less(files[i].largest, LookupKey(u, s))
    requires forall i :: index <= i < |files| ==> !Less(files[i].largest, LookupKey(u, s))
    ensures index <= j && files[index].smallest.user <= u
    ensures index < j ==> Visible(Last(files[index]), u, s) && Last(files[index]).key.sequence >= e.key.sequence
  {
    assert files[j] in files;
    InRange(files[j], e);
    assert index <= j;
    if index < j {
      var f := files[index];
      assert f in files;
      InRange(f, Last(f));
      assert Less(f.largest, files[j].smallest);
      assert Less(f.largest, e.key);
      assert !Less(f.largest, LookupKey(u, s));
      assert f.largest.user == u;
    }
  }

  lemma {:induction false} ProbeLevelAnswers(files: seq<File>, u: UserKey, s: nat)
    requires AllWellFormed(files) && SortedLevel(files)
    ensures Answers(ProbeLevel(files, u, s), LevelEntries(files), u, s)
  {
    var index := Bisect(files, LookupKey(u, s), 0, |files|);
    BisectFinds(files, LookupKey(u, s), 0, |files|);
    if index < |files| && files[index].smallest.user <= u {
      FoundFileAnswers(files, u, s, index);
    } else {
      forall d | d in LevelEntries(files)
        ensures !Visible(d, u, s)
      {
        if Visible(d, u, s) {
          var j := FileOf(files, d);
          VisibleAtIndex(files, u, s, index, d, j);
        }
      }
    }
  }

  lemma {:induction false} FileOf(files: seq<File>, e: Entry) returns (j: nat)
    requires e in LevelEntries(files)
    ensures j < |files| && e in files[j].entries
  {
    var f :| f in files && e in f.entries;
    j :| 0 <= j < |files| && files[j] == f;
  }

  lemma {:induction false} FoundFileAnswers(files: seq<File>, u: UserKey, s: nat, index: nat)
    requires AllWellFormed(files) && SortedLevel(files)
    requires index < |files|
    requires forall i :: 0 <= i < index ==> Less(files[i].largest, LookupKey(u, s))
    requires forall i :: index <= i < |files| ==> !Less(files[i].largest, LookupKey(u, s))
    ensures Answers(TableGet(files[index].entries, u, s), LevelEntries(files), u, s)
  {
    var f := files[index];
    assert f in files;
    TableGetAnswers(f.entries, u, s);
    var r := TableGet(f.entries, u, s);
    forall d | d in LevelEntries(files) && Visible(d, u, s)
      ensures exists c :: c in Contents(f) && Visible(c, u, s) && d.key.sequence <= c.key.sequence
    {
      var j := FileOf(files, d);
      VisibleAtIndex(files, u, s, index, d, j);
      assert j == index ==> d in Contents(f);
      assert Last(f) in Contents(f);
    }
    if r != NotFound {
      var e :| Newest(Contents(f), u, s, e) && r == OutcomeOf(e);
      assert e in LevelEntries(files);
      assert Newest(LevelEntries(files), u, s, e);
    }
  }

  ghost function Last(f: File): Entry
    requires WellFormed(f)
  {
    f.entries[|f.entries| - 1]
  }

  ghost predicate DistinctNumbers(fs: seq<File>)
  {
    forall i, j :: 0 <= i < j < |fs| ==> fs[i].number != fs[j].number
  }

  ghost predicate Descending(fs: seq<File>)
  {
    forall i, j :: 0 <= i < j < |fs| ==> fs[i].number > fs[j].number
  }

  lemma {:induction false} CoveringMembers(files: seq<File>, u: UserKey)
    requires DistinctNumbers(files)
    ensures forall f :: f in Covering(files, u) <==> f in files && f.smallest.user <= u <= f.largest.user
    ensures DistinctNumbers(Covering(files, u))
  {
    if files != [] {
      CoveringMembers(files[1..], u);
      assert files == [files[0]] + files[1..];
    }
  }

  lemma {:induction false} InsertSorts(f: File, fs: seq<File>)
    requires Descending(fs) && forall g :: g in fs ==> g.number != f.number
    ensures Descending(InsertByNumber(f, fs))
    ensures forall g :: g in InsertByNumber(f, fs) <==> g == f || g in fs
  {
    if fs == [] || f.number > fs[0].number {
    } else {
      InsertSorts(f, fs[1..]);
      assert fs == [fs[0]] + fs[1..];
      var tail := InsertByNumber(f, fs[1..]);
      assert forall i :: 0 <= i < |tail| ==> tail[i] in tail;
      assert forall g :: g in tail ==> g.number < fs[0].number;
    }
  }

  lemma {:induction false} NewestFirstSorts(fs: seq<File>)
    requires DistinctNumbers(fs)
    ensures Descending(NewestFirst(fs))
    ensures forall g :: g in NewestFirst(fs) <==> g in fs
  {
    if fs != [] {
      NewestFirstSorts(fs[1..]);
      InsertSorts(fs[0], NewestFirst(fs[1..]));
    }
  }

  lemma {:induction false} FirstAboveRest(fs: seq<File>)
    requires |fs| > 0 && Descending(fs) && NewerByNumber(fs)
    ensures Above(Contents(fs[0]), LevelEntries(fs[1..]))
    ensures LevelEntries(fs) == Contents(fs[0]) + LevelEntries(fs[1..])
  {
    assert fs == [fs[0]] + fs[1..];
    forall a, b | a in Contents(fs[0]) && b in LevelEntries(fs[1..]) && a.key.user == b.key.user
      ensures a.key.sequence > b.key.sequence
    {
      var j := FileOf(fs[1..], b);
      assert fs[0] in fs && fs[j + 1] in fs;
      assert b in Contents(fs[j + 1]);
    }
  }

  /** Probing level-0 files newest first answers for all of them together. */
  lemma {:induction false} ProbeInOrderAnswers(fs: seq<File>, u: UserKey, s: nat)
    requires AllWellFormed(fs) && Descending(fs) && NewerByNumber(fs)
    ensures Answers(ProbeInOrder(fs, u, s), LevelEntries(fs), u, s)
  {
    if fs != [] {
      var f, rest := fs[0], fs[1..];
      assert fs == [f] + rest && f in fs;
      TableGetAnswers(f.entries, u, s);
      ProbeInOrderAnswers(rest, u, s);
      FirstAboveRest(fs);
      Shadowing(Contents(f), LevelEntries(rest), TableGet(f.entries, u, s), ProbeInOrder(rest, u, s), u, s);
    }
  }

  lemma {:induction false} LevelZeroAnswers(files: seq<File>, u: UserKey, s: nat)
    requires AllWellFormed(files) && DistinctNumbers(files) && NewerByNumber(files)
    ensures Answers(ProbeInOrder(NewestFirst(Covering(files, u)), u, s), LevelEntries(files), u, s)
  {
    CoveringMembers(files, u);
    NewestFirstSorts(Covering(files, u));
    var fs := NewestFirst(Covering(files, u));
    ProbeInOrderAnswers(fs, u, s);
    var r := ProbeInOrder(fs, u, s);
    forall e | e in LevelEntries(files) && Visible(e, u, s)
      ensures e in LevelEntries(fs)
    {
      var f :| f in files && e in f.entries;
      InRange(f, e);
    }
    if r != NotFound {
      var e :| Newest(LevelEntries(fs), u, s, e) && r == OutcomeOf(e);
      assert Newest(LevelEntries(files), u, s, e);
    }
  }

  lemma {:induction false} ProbeLevelsAnswers(v: Version, l: nat, u: UserKey, s: nat)
    requires forall m :: 1 <= m < |v.levels| ==> AllWellFormed(v.levels[m]) && SortedLevel(v.levels[m])
    requires Recency(v) && 1 <= l
    ensures Answers(ProbeLevels(v, l, u, s), EntriesFrom(v, l), u, s)
    decreases |v.levels| - l
  {
    if l < |v.levels| {
      ProbeLevelAnswers(v.levels[l], u, s);
      ProbeLevelsAnswers(v, l + 1, u, s);
      var A, D := LevelEntries(v.levels[l]), EntriesFrom(v, l + 1);
      LevelAboveDeeper(v, l, A, D);
      assert EntriesFrom(v, l) == A + D;
      Shadowing(A, D, ProbeLevel(v.levels[l], u, s), ProbeLevels(v, l + 1, u, s), u, s);
    }
  }

  lemma {:induction false} LevelAboveDeeper(v: Version, l: nat, A: set<Entry>, D: set<Entry>)
    requires Recency(v) && l < |v.levels|
    requires A == LevelEntries(v.levels[l]) && D == EntriesFrom(v, l + 1)
    ensures Above(A, D)
  {
    forall a, b | a in A && b in D && a.key.user == b.key.user
      ensures a.key.sequence > b.key.sequence
    {
      var m :| l + 1 <= m < |v.levels| && b in LevelEntries(v.levels[m]);
      assert Above(LevelEntries(v.levels[l]), LevelEntries(v.levels[m]));
    }
  }

  lemma {:induction false} LevelNumbersDistinct(v: Version, l: nat)
    requires Shaped(v) && l < NUM_LEVELS
    ensures DistinctNumbers(v.levels[l])
  {
    var files := v.levels[l];
    forall i, j | 0 <= i < j < |files|
      ensures files[i].number != files[j].number
    {
      assert BySmallest(files[i], files[j]);
      assert files[i] in files && files[j] in files;
    }
  }

  /** Level-by-level lookup in a valid version reads the newest visible entry among all the
      entries the version holds. */
  lemma {:induction false} GetReadsView(v: Version, u: UserKey, s: nat)
    requires Valid(v)
    ensures Answers(VersionGet(v, u, s), Entries(v), u, s)
    ensures AsReading(VersionGet(v, u, s)) == View(Entries(v), u, s)
  {
    GetAnswers(v, u, s);
    AnswersGiveView(VersionGet(v, u, s), Entries(v), u, s);
  }

  lemma {:induction false} GetAnswers(v: Version, u: UserKey, s: nat)
    requires Shaped(v) && NewerByNumber(v.levels[0]) && Recency(v) && UniqueSeqs(Entries(v))
    ensures Answers(VersionGet(v, u, s), Entries(v), u, s)
  {
    var files := v.levels[0];
    var r := ProbeInOrder(NewestFirst(Covering(files, u)), u, s);
    assert Answers(r, LevelEntries(files), u, s) by {
      LevelNumbersDistinct(v, 0);
      LevelZeroAnswers(files, u, s);
    }
    var q := ProbeLevels(v, 1, u, s);
    var A, D := LevelEntries(files), EntriesFrom(v, 1);
    assert Answers(q, D, u, s) by {
      ProbeLevelsAnswers(v, 1, u, s);
    }
    assert Above(A, D) by {
      LevelAboveDeeper(v, 0, A, D);
    }
    Shadowing(A, D, r, q, u, s);
    assert Entries(v) == A + D;
  }

  // ----- memtables in front of the version

  /** `DBImpl::Get`: memtable, then immutable memtable, then the version. */
  function DbGet(mem: seq<Entry>, imm: seq<Entry>, v: Version, u: UserKey, s: nat): Outcome
    requires |v.levels| == NUM_LEVELS
  {
    var r := TableGet(mem, u, s);
    if r != NotFound then r
    else
      var q := TableGet(imm, u, s);
      if q != NotFound then q else VersionGet(v, u, s)
  }

  /** Newer sources in front of older ones: the read path returns the view of the union. */
  lemma {:induction false} DbGetReadsView(mem: seq<Entry>, imm: seq<Entry>, v: Version, u: UserKey, s: nat)
    requires Sorted(mem) && Sorted(imm) && Valid(v)
    requires Above(SetOf(mem), SetOf(imm) + Entries(v)) && Above(SetOf(imm), Entries(v))
    requires UniqueSeqs(SetOf(mem) + (SetOf(imm) + Entries(v)))
    ensures AsReading(DbGet(mem, imm, v, u, s)) == View(SetOf(mem) + (SetOf(imm) + Entries(v)), u, s)
  {
    TableGetAnswers(mem, u, s);
    TableGetAnswers(imm, u, s);
    GetReadsView(v, u, s);
    var q := TableGet(imm, u, s);
    var below := if q == NotFound then VersionGet(v, u, s) else q;
    Shadowing(SetOf(imm), Entries(v), q, VersionGet(v, u, s), u, s);
    Shadowing(SetOf(mem), SetOf(imm) + Entries(v), TableGet(mem, u, s), below, u, s);
    AnswersGiveView(DbGet(mem, imm, v, u, s), SetOf(mem) + (SetOf(imm) + Entries(v)), u, s);
  }
}
