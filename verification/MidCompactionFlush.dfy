/** A memtable may be flushed while a compaction is running. The flush changes the current
    version under the compaction, whose result is then installed on the grown version. */
module MidCompactionFlush {
  import opened Ordering
  import opened Levels
  import opened CompactionInputs
  import opened CompactionWork
  import opened VersionBuilder
  import opened Install
  import opened CompactionRun
  import opened Flush
  import opened Wrappers

  /** `w` is `v` with tables flushed since: each newer than everything in `v`, each placed
      where no file of `v` down to its level meets its range. */
  ghost predicate Grown(v: Version, w: Version)
    requires |v.levels| == NUM_LEVELS && |w.levels| == NUM_LEVELS
  {
    && (forall l :: 0 <= l < NUM_LEVELS ==> Subset(v.levels[l], w.levels[l]))
    && (forall l, g :: 0 <= l < NUM_LEVELS && Flushed(v, w, l, g) ==>
          && Above(Contents(g), Entries(v))
          && (l > 0 ==> forall m :: 0 <= m <= l ==> NoneTouches(v.levels[m], g.smallest.user, g.largest.user)))
  }

  ghost predicate Flushed(v: Version, w: Version, l: nat, g: File)
    requires l < |v.levels| && l < |w.levels|
  {
    g in w.levels[l] && g !in v.levels[l]
  }

  lemma {:induction false} GrownRefl(v: Version)
    requires |v.levels| == NUM_LEVELS
    ensures Grown(v, v)
  {
  }

  lemma {:induction false} OneMoreGrows(v: Version, w: Version, after: Version, F: nat, f: File)
    requires |v.levels| == NUM_LEVELS && |w.levels| == NUM_LEVELS && Grown(v, w) && Flushable(w, F, f)
    requires AddedFile(w, after, F, f)
    ensures Grown(v, after)
  {
    GrownSubset(v, w);
    forall l, g | 0 <= l < NUM_LEVELS && Flushed(v, after, l, g)
      ensures Above(Contents(g), Entries(v))
      ensures l > 0 ==> forall m :: 0 <= m <= l ==> NoneTouches(v.levels[m], g.smallest.user, g.largest.user)
    {
      if g in w.levels[l] {
        assert Flushed(v, w, l, g);
      } else {
        assert l == F && g == f;
        assert forall m :: 0 <= m < NUM_LEVELS ==> Subset(v.levels[m], w.levels[m]);
      }
    }
  }

  /** Every further flush keeps the relation. */
  lemma {:induction false} FlushGrows(v: Version, w: Version, F: nat, f: File)
    requires |v.levels| == NUM_LEVELS && Shaped(w) && Grown(v, w) && Flushable(w, F, f)
    ensures Applicable(w, Edit({}, [(F, f)])) && Grown(v, Next(w, Edit({}, [(F, f)])))
  {
    FlushEdit(w, F, f);
    OneMoreGrows(v, w, Next(w, Edit({}, [(F, f)])), F, f);
  }

  lemma {:induction false} GrownSubset(v: Version, w: Version)
    requires |v.levels| == NUM_LEVELS && |w.levels| == NUM_LEVELS && Grown(v, w)
    ensures Entries(v) <= Entries(w)
  {
    forall e | e in Entries(v)
      ensures e in Entries(w)
    {
      var l :| 0 <= l < NUM_LEVELS && e in LevelEntries(v.levels[l]);
      assert Subset(v.levels[l], w.levels[l]);
      assert e in LevelEntries(w.levels[l]);
    }
  }

  /** The inputs picked on `v` still leave only newer entries behind in `w`. */
  lemma {:induction false} InputsStayCore(v: Version, w: Version, L: nat, I0: seq<File>, I1: seq<File>)
    requires Shaped(v) && Shaped(w) && Grown(v, w) && L + 1 < NUM_LEVELS && CoreInputs(v, L, I0, I1)
    ensures CoreInputs(w, L, I0, I1)
  {
    RestStaysNewer(v, w, L, I0);
    RestStaysNewer(v, w, L + 1, I1);
    assert Subset(v.levels[L], w.levels[L]) && Subset(v.levels[L + 1], w.levels[L + 1]);
    forall f, g | f in I0 && g in w.levels[L + 1] && g !in I1
      ensures !UserOverlap(f, g)
    {
      if g !in v.levels[L + 1] {
        assert Flushed(v, w, L + 1, g);
        assert NoneTouches(v.levels[L], g.smallest.user, g.largest.user);
      }
    }
  }

  lemma {:induction false} RestStaysNewer(v: Version, w: Version, l: nat, S: seq<File>)
    requires |v.levels| == NUM_LEVELS && |w.levels| == NUM_LEVELS && Grown(v, w) && l < NUM_LEVELS
    requires Subset(S, v.levels[l]) && RestNewer(v.levels[l], S)
    ensures RestNewer(w.levels[l], S)
  {
    forall f, g | f in S && g in w.levels[l] && g !in S
      ensures Above(Contents(g), Contents(f))
    {
      if g !in v.levels[l] {
        assert Flushed(v, w, l, g);
        LevelSubset(v, l);
        assert Contents(f) <= LevelEntries(v.levels[l]);
      }
    }
  }

  lemma {:induction false} GrownRestNotOlder(v: Version, w: Version, L: nat, I0: seq<File>, I1: seq<File>, e: Entry,
                                             r: Entry)
    requires Shaped(v) && Recency(v) && |w.levels| == NUM_LEVELS && Grown(v, w) && L + 1 < NUM_LEVELS
    requires CoreInputs(v, L, I0, I1)
    requires e in InputEntries(I0, I1) && r in Rest(w, L, I0, I1) && e.key.user == r.key.user
    requires BaseLevelFor(v, L, e.key.user)
    ensures r.key.sequence > e.key.sequence
  {
    var l :| 0 <= l < |w.levels| && r in Staying(w, l, L, I0, I1);
    var g :| Stays(w, l, g, L, I0, I1) && g in w.levels[l] && r in g.entries;
    hide Shaped, Recency, BaseLevelFor;
    if g in v.levels[l] {
      assert r in Rest(v, L, I0, I1) by {
        assert Stays(v, l, g, L, I0, I1);
        assert r in Staying(v, l, L, I0, I1);
      }
      hide Grown, CoreInputs, InputEntries, Rest;
      RestNotOlder(v, L, I0, I1, e, r);
    } else {
      FlushedIsNewer(v, w, l, g, r, e) by { SplitEntries(v, L, I0, I1); }
    }
  }

  lemma {:induction false} FlushedIsNewer(v: Version, w: Version, l: nat, g: File, r: Entry, e: Entry)
    requires |v.levels| == NUM_LEVELS && |w.levels| == NUM_LEVELS && Grown(v, w) && l < NUM_LEVELS
    requires g in w.levels[l] && g !in v.levels[l] && r in g.entries && e in Entries(v) && e.key.user == r.key.user
    ensures r.key.sequence > e.key.sequence
  {
    hide Entries;
    assert Flushed(v, w, l, g);
    assert r in Contents(g);
  }

  /** Readings are kept no matter what was flushed in between. */
  lemma {:induction false} InterruptedCompactionKeepsView(v: Version, w: Version, after: Version, L: nat, I0: seq<File>,
                                                          I1: seq<File>,
                                       outs: seq<File>, snap: nat, u: UserKey, s: nat)
    requires Valid(v) && Valid(w) && Grown(v, w) && L + 1 < NUM_LEVELS && CoreInputs(v, L, I0, I1)
    requires Installed(w, after, L, I0, I1, outs)
    requires LevelEntries(outs) == Survivors(InputEntries(I0, I1), snap, BaseKeys(v, L)) && snap <= s
    ensures View(Entries(after), u, s) == View(Entries(w), u, s)
  {
    var I, R := InputEntries(I0, I1), Rest(w, L, I0, I1);
    InputsStayCore(v, w, L, I0, I1);
    SplitEntries(w, L, I0, I1);
    AfterEntries(w, after, L, I0, I1, outs);
    forall e, r | e in I && r in R && e.key.user == r.key.user && Spent(e, snap, BaseKeys(v, L))
      ensures r.key.sequence > e.key.sequence
    {
      GrownRestNotOlder(v, w, L, I0, I1, e, r);
    }
    SurvivorsKeepView(I, R, snap, BaseKeys(v, L), u, s);
  }

  /** No table flushed meanwhile into the output level meets the range of an output. */
  ghost predicate FlushesClear(v: Version, w: Version, L: nat, outs: seq<File>)
    requires |v.levels| == NUM_LEVELS && |w.levels| == NUM_LEVELS && L + 1 < NUM_LEVELS
  {
    forall g, o :: Flushed(v, w, L + 1, g) && o in outs ==> Less(g.largest, o.smallest) || Less(o.largest, g.smallest)
  }

  /** The installed version is valid if and only if the flushed tables stayed clear of the
      outputs: levels stay sorted exactly then. */
  lemma {:induction false} InterruptedCompactionValid(v: Version, w: Version, after: Version, L: nat, I0: seq<File>,
                                                      I1: seq<File>, outs: seq<File>)
    requires Valid(v) && Valid(w) && Grown(v, w) && L + 1 < NUM_LEVELS && GoodInputs(v, L, I0, I1)
    requires GoodOutputs(I0, I1, outs)
    requires NumbersFree(w, L, I0, outs) && Installed(w, after, L, I0, I1, outs)
    ensures Valid(after) <==> FlushesClear(v, w, L, outs)
  {
    if FlushesClear(v, w, L, outs) {
      GoodIsClear(v, L, I0, I1, outs);
      InputsStayCore(v, w, L, I0, I1);
      GrownClear(v, w, L, I1, outs);
      InstallKeepsValid(w, after, L, I0, I1, outs);
    }
    if Valid(after) {
      SortedOutputLevelIsClear(v, w, after, L, I0, I1, outs);
    }
  }

  lemma {:induction false} SortedOutputLevelIsClear(v: Version, w: Version, after: Version, L: nat, I0: seq<File>,
                                                    I1: seq<File>, outs: seq<File>)
    requires |v.levels| == NUM_LEVELS && |w.levels| == NUM_LEVELS && L + 1 < NUM_LEVELS && Subset(I1, v.levels[L + 1])
    requires NumbersFree(w, L, I0, outs) && Installed(w, after, L, I0, I1, outs) && SortedLevel(after.levels[L + 1])
    ensures FlushesClear(v, w, L, outs)
  {
    SortedIsApart(after.levels[L + 1]);
    forall g, o | Flushed(v, w, L + 1, g) && o in outs
      ensures Less(g.largest, o.smallest) || Less(o.largest, g.smallest)
    {
      assert Stays(w, L + 1, g, L, I0, I1);
      assert g in after.levels[L + 1] && o in after.levels[L + 1];
      assert g != o;
    }
  }

  lemma {:induction false} GrownClear(v: Version, w: Version, L: nat, I1: seq<File>, outs: seq<File>)
    requires |v.levels| == NUM_LEVELS && |w.levels| == NUM_LEVELS && L + 1 < NUM_LEVELS
    requires Clear(v, L, I1, outs) && FlushesClear(v, w, L, outs)
    ensures Clear(w, L, I1, outs)
  {
    forall g, o | g in w.levels[L + 1] && g !in I1 && o in outs
      ensures Less(g.largest, o.smallest) || Less(o.largest, g.smallest)
    {
      assert g !in v.levels[L + 1] ==> Flushed(v, w, L + 1, g);
    }
  }

  // ----- the condition can fail, and then a key is lost

  function Single(number: nat, user: UserKey, sequence: nat): Entry
  {
    Entry(InternalKey(user, sequence, Value), [number])
  }

  function One(number: nat, user: UserKey, sequence: nat): (f: File)
    ensures WellFormed(f)
  {
    var e := Single(number, user, sequence);
    File(number, 1, e.key, e.key, [e])
  }

  lemma {:induction false} OneContents(number: nat, user: UserKey, sequence: nat)
    ensures Contents(One(number, user, sequence)) == {Single(number, user, sequence)}
  {
    var es := One(number, user, sequence).entries;
    assert es == [Single(number, user, sequence)] && es[0] in es;
  }

  /** Two files in level 1, with a gap between them. */
  function GapVersion(): (v: Version)
    ensures |v.levels| == NUM_LEVELS && v.levels[1] == GapInputs()
    ensures forall l :: 0 <= l < NUM_LEVELS && l != 1 ==> v.levels[l] == []
  {
    Version([[], GapInputs(), [], [], [], [], []])
  }

  function GapInputs(): seq<File>
  {
    [One(1, 1.0, 1), One(2, 3.0, 2)]
  }

  /** Their compaction writes one file across the gap. */
  function GapOutput(): (f: File)
    ensures WellFormed(f)
  {
    var a, b := Single(1, 1.0, 1), Single(2, 3.0, 2);
    File(4, 2, a.key, b.key, [a, b])
  }

  function GapInstalled(): (v: Version)
    ensures |v.levels| == NUM_LEVELS && v.levels[2] == [GapOutput(), One(3, 2.0, 3)]
    ensures forall l :: 0 <= l < NUM_LEVELS && l != 2 ==> v.levels[l] == []
  {
    Version([[], [], [GapOutput(), One(3, 2.0, 3)], [], [], [], []])
  }

  lemma {:induction false} PairEntries(f: File, g: File)
    ensures LevelEntries([f, g]) == Contents(f) + Contents(g)
  {
    assert [f, g][0] in [f, g] && [f, g][1] in [f, g];
  }

  ghost predicate OnlyLevel(v: Version, k: nat)
  {
    |v.levels| == NUM_LEVELS && 1 <= k < NUM_LEVELS && forall l :: 0 <= l < NUM_LEVELS && l != k ==> v.levels[l] == []
  }

  lemma {:induction false} OnlyLevelEntries(v: Version, k: nat)
    requires OnlyLevel(v, k)
    ensures Entries(v) == LevelEntries(v.levels[k])
  {
    forall l | 0 <= l < NUM_LEVELS && l != k ensures LevelEntries(v.levels[l]) == {} {}
  }

  lemma {:induction false} OnlyLevelNumbers(v: Version, k: nat)
    requires OnlyLevel(v, k) && DistinctNumbers(v.levels[k])
    ensures NumbersUnique(v)
  {
    forall l, m, f, g | 0 <= l < |v.levels| && 0 <= m < |v.levels| && f in v.levels[l] && g in v.levels[m]
        && f.number == g.number
      ensures l == m && f == g
    {
      assert l == k && m == k;
      var i :| 0 <= i < |v.levels[k]| && v.levels[k][i] == f;
      var j :| 0 <= j < |v.levels[k]| && v.levels[k][j] == g;
    }
  }

  /** A version with files in a single sorted level. */
  lemma {:induction false} OnlyLevelValid(v: Version, k: nat)
    requires OnlyLevel(v, k) && DistinctNumbers(v.levels[k]) && UniqueSeqs(LevelEntries(v.levels[k]))
    requires AllWellFormed(v.levels[k]) && Ordered(v.levels[k]) && SortedLevel(v.levels[k])
    ensures Valid(v)
  {
    OnlyLevelNumbers(v, k);
    OnlyLevelEntries(v, k);
    OnlyLevelRecency(v, k);
    hide LevelEntries, UniqueSeqs, NumbersUnique, Recency;
  }

  lemma {:induction false} OnlyLevelRecency(v: Version, k: nat)
    requires OnlyLevel(v, k)
    ensures Recency(v) && NewerByNumber(v.levels[0])
  {
    forall l, m | 0 <= l < m < NUM_LEVELS
      ensures Above(LevelEntries(v.levels[l]), LevelEntries(v.levels[m]))
    {
      assert l != k ==> LevelEntries(v.levels[l]) == {};
      assert m != k ==> LevelEntries(v.levels[m]) == {};
    }
  }

  lemma {:induction false} PairValid(v: Version, k: nat, f: File, g: File)
    requires OnlyLevel(v, k) && v.levels[k] == [f, g] && WellFormed(f) && WellFormed(g)
    requires Less(f.largest, g.smallest) && f.number < g.number && UniqueSeqs(Contents(f) + Contents(g))
    ensures Valid(v)
  {
    PairEntries(f, g);
    InRange(f, f.entries[0]);
    OnlyLevelValid(v, k);
  }

  lemma {:induction false} GapEntries()
    ensures Entries(GapVersion()) == {Single(1, 1.0, 1), Single(2, 3.0, 2)}
    ensures LevelEntries(GapInputs()) == {Single(1, 1.0, 1), Single(2, 3.0, 2)}
  {
    OneContents(1, 1.0, 1);
    OneContents(2, 3.0, 2);
    PairEntries(One(1, 1.0, 1), One(2, 3.0, 2));
    OnlyLevelEntries(GapVersion(), 1);
  }

  lemma {:induction false} GapValid()
    ensures Valid(GapVersion())
  {
    OneContents(1, 1.0, 1);
    OneContents(2, 3.0, 2);
    PairValid(GapVersion(), 1, One(1, 1.0, 1), One(2, 3.0, 2));
  }

  lemma {:induction false} GapOutputContents()
    ensures Contents(GapOutput()) == {Single(1, 1.0, 1), Single(2, 3.0, 2)}
    ensures LevelEntries([GapOutput()]) == {Single(1, 1.0, 1), Single(2, 3.0, 2)}
  {
    var es := GapOutput().entries;
    assert es == [Single(1, 1.0, 1), Single(2, 3.0, 2)] && es[0] in es && es[1] in es;
    assert [GapOutput()][0] in [GapOutput()];
  }

  /** A whole sorted level pairs with an empty next level. */
  lemma {:induction false} PairAlone(v: Version, k: nat, f: File, g: File)
    requires OnlyLevel(v, k) && k + 1 < NUM_LEVELS && v.levels[k] == [f, g] && WellFormed(f) && WellFormed(g)
    requires Less(f.largest, g.smallest) && f.smallest.user < g.smallest.user
    ensures Paired(v, k, [f, g], [])
  {
    var I0 := [f, g];
    assert I0[..1] == [f];
    assert LargestKey(I0[..1]) == f.largest;
    InRange(f, f.entries[0]);
    InRange(g, g.entries[0]);
    assert LargestKey(I0) == g.largest;
    assert forall h :: h in v.levels[k] ==> !Continues(g.largest, h);
    assert Touching([], Some(SmallestKey(I0).user), Some(LargestKey(I0).user)) == [];
  }

  lemma {:induction false} GapPaired()
    ensures Paired(GapVersion(), 1, GapInputs(), [])
    ensures GoodOutputs(GapInputs(), [], [GapOutput()])
  {
    PairAlone(GapVersion(), 1, One(1, 1.0, 1), One(2, 3.0, 2));
    GapEntries();
    GapOutputContents();
  }

  /** A table with user keys of its own may be flushed below the files of one level. */
  lemma {:induction false} FlushableBelow(v: Version, k: nat, f: File, E: set<Entry>, C: set<Entry>)
    requires OnlyLevel(v, k) && WellFormed(f) && NoneTouches(v.levels[k], f.smallest.user, f.largest.user)
    requires Entries(v) == E && Contents(f) == C && UniqueSeqs(E) && UniqueSeqs(C)
    requires forall c, e :: c in C && e in E ==> c.key.user != e.key.user
    requires forall g :: g in v.levels[k] ==> g.number < f.number
    ensures Flushable(v, 2, f)
  {
    assert Above(C, E) && UniqueSeqs(C + E);
  }

  lemma {:induction false} GapFlushable()
    ensures Flushable(GapVersion(), 2, One(3, 2.0, 3))
  {
    GapEntries();
    OneContents(3, 2.0, 3);
    assert forall g :: g in GapInputs() ==> g == One(1, 1.0, 1) || g == One(2, 3.0, 2);
    FlushableBelow(GapVersion(), 1, One(3, 2.0, 3), {Single(1, 1.0, 1), Single(2, 3.0, 2)}, {Single(3, 2.0, 3)});
  }

  lemma {:induction false} GapInstalls(w: Version)
    requires AddedFile(GapVersion(), w, 2, One(3, 2.0, 3))
    ensures Installed(w, GapInstalled(), 1, GapInputs(), [], [GapOutput()])
    ensures !FlushesClear(GapVersion(), w, 1, [GapOutput()])
  {
    var after := GapInstalled();
    assert after.levels[2][0] == GapOutput() && after.levels[2][1] == One(3, 2.0, 3);
    assert Flushed(GapVersion(), w, 2, One(3, 2.0, 3)) && GapOutput() in [GapOutput()];
  }

  lemma {:induction false} GapReading()
    ensures View(Entries(GapInstalled()), 2.0, 3) == Some([3])
  {
    var v, c := GapInstalled(), Single(3, 2.0, 3);
    OnlyLevelEntries(v, 2);
    PairEntries(GapOutput(), One(3, 2.0, 3));
    GapOutputContents();
    OneContents(3, 2.0, 3);
    assert Newest(Entries(v), 2.0, 3, c);
    forall d | Newest(Entries(v), 2.0, 3, d) ensures d == c {}
  }

  lemma {:induction false} GapLookup()
    ensures VersionGet(GapInstalled(), 2.0, 3) == NotFound
  {
    var v, k := GapInstalled(), LookupKey(2.0, 3);
    var files := v.levels[2];
    assert Bisect(files, k, 0, 1) == 0;
    assert Bisect(files, k, 0, 2) == 0;
    assert Seek(files[0].entries, k) == 1;
    assert ProbeLevel(files, 2.0, 3) == NotFound;
    assert ProbeLevels(v, 5, 2.0, 3) == NotFound;
    assert ProbeLevels(v, 3, 2.0, 3) == NotFound;
    assert ProbeLevels(v, 1, 2.0, 3) == NotFound;
  }

  function GapFlush(): Edit
  {
    Edit({}, [(2, One(3, 2.0, 3))])
  }

  /** A compaction of the whole range takes both files, and its output spans the gap. */
  lemma {:induction false} GapPicked()
    ensures Touching(GapVersion().levels[1], None, None) == GapInputs()
    ensures Paired(GapVersion(), 1, GapInputs(), []) && GoodOutputs(GapInputs(), [], [GapOutput()])
  {
    GapPaired();
    var a, b := One(1, 1.0, 1), One(2, 3.0, 2);
    assert [a, b][..1] == [a] && [a][..0] == [];
    assert Touching([a], None, None) == [a];
  }

  /** Level 2 is the only level that can be chosen for the flushed table. */
  lemma {:induction false} GapLevel(limit: nat, level: nat)
    requires LevelChosen(GapVersion(), 2.0, 2.0, limit, level)
    ensures level == 2
  {
    var v := GapVersion();
    assert forall g :: g in GapInputs() ==> g == One(1, 1.0, 1) || g == One(2, 3.0, 2);
    assert NoneTouches(v.levels[0], 2.0, 2.0) && NoneTouches(v.levels[1], 2.0, 2.0)
        && NoneTouches(v.levels[2], 2.0, 2.0);
    assert Touching([], Some(2.0), Some(2.0)) == [];
  }

  /** The version with the flushed table is valid and has the key. */
  lemma {:induction false} GapGrows()
    ensures Applicable(GapVersion(), GapFlush())
    ensures var w := Next(GapVersion(), GapFlush());
            Valid(w) && AddedFile(GapVersion(), w, 2, One(3, 2.0, 3)) && AsReading(VersionGet(w, 2.0, 3)) == Some([3])
  {
    GapValid();
    GapFlushable();
    hide Valid, Flushable, One;
    FlushKeepsValid(GapVersion(), 2, One(3, 2.0, 3));
    assert Shaped(GapVersion()) by { ValidIsShaped(GapVersion()); }
    FlushEdit(GapVersion(), 2, One(3, 2.0, 3));
    var w := Next(GapVersion(), GapFlush());
    GetReadsView(w, 2.0, 3);
    GrownReading(Entries(w));
  }

  lemma {:induction false} ValidIsShaped(v: Version)
    requires Valid(v)
    ensures Shaped(v)
  {
  }

  lemma {:induction false} GrownReading(E: set<Entry>)
    requires E == Contents(One(3, 2.0, 3)) + Entries(GapVersion())
    ensures View(E, 2.0, 3) == Some([3])
  {
    GapEntries();
    OneContents(3, 2.0, 3);
    var c := Single(3, 2.0, 3);
    assert Newest(E, 2.0, 3, c);
    forall d | Newest(E, 2.0, 3, d) ensures d == c {}
  }

  /** Recording the compaction on the grown version gives exactly the overlapping level. */
  lemma {:induction false} GapRecorded(w: Version)
    requires Valid(w) && AddedFile(GapVersion(), w, 2, One(3, 2.0, 3))
    ensures |w.levels| == NUM_LEVELS && EditOk(CompactionEdit(1, GapInputs(), [], [GapOutput()]))
    ensures Next(w, CompactionEdit(1, GapInputs(), [], [GapOutput()])) == GapInstalled()
  {
    var e, o := CompactionEdit(1, GapInputs(), [], [GapOutput()]), GapOutput();
    ValidIsShaped(w);
    GapNumbers(w);
    GapInstalls(w);
    hide Valid, Shaped, Installed, One;
    EditInstalls(w, 1, GapInputs(), [], [o]);
    SameInstalled(w, Next(w, e), GapInstalled());
  }

  lemma {:induction false} GapNumbers(w: Version)
    requires AddedFile(GapVersion(), w, 2, One(3, 2.0, 3))
    ensures NumbersFree(w, 1, GapInputs(), [GapOutput()])
    ensures |w.levels| == NUM_LEVELS && Subset(GapInputs(), w.levels[1]) && Subset([], w.levels[2])
  {
    assert forall g :: g in GapInputs() ==> g == One(1, 1.0, 1) || g == One(2, 3.0, 2);
  }

  lemma {:induction false} SameInstalled(w: Version, a: Version, b: Version)
    requires |w.levels| == NUM_LEVELS
    requires Installed(w, a, 1, GapInputs(), [], [GapOutput()]) && Installed(w, b, 1, GapInputs(), [], [GapOutput()])
    ensures a == b
  {
    hide Stays;
    forall l | 0 <= l < NUM_LEVELS ensures a.levels[l] == b.levels[l] {
      forall f ensures f in a.levels[l] <==> f in b.levels[l] {
        assert f in a.levels[l] <==> Stays(w, l, f, 1, GapInputs(), []) || (l == 2 && f in [GapOutput()]);
        assert f in b.levels[l] <==> Stays(w, l, f, 1, GapInputs(), []) || (l == 2 && f in [GapOutput()]);
      }
      OrderedUnique(a.levels[l], b.levels[l]);
    }
  }

  /** A concrete run from a valid version. A compaction of the whole range picks two files of level 1. While it
      runs, a table with a key between theirs is flushed; the only level that can be chosen for it is the
      compaction's output level, and the version is still valid and has the key. Then the compaction is
      recorded: its output spans the key, the bisection of level 2 stops at it, and the key is not found
      although an entry for it is stored. */
  lemma {:induction false} FlushIntoGapLosesKey()
    ensures Valid(GapVersion()) && Touching(GapVersion().levels[1], None, None) == GapInputs()
    ensures Paired(GapVersion(), 1, GapInputs(), []) && GoodOutputs(GapInputs(), [], [GapOutput()])
    ensures forall limit, level :: LevelChosen(GapVersion(), 2.0, 2.0, limit, level) ==> level == 2
    ensures Applicable(GapVersion(), GapFlush()) && EditOk(CompactionEdit(1, GapInputs(), [], [GapOutput()]))
    ensures var w := Next(GapVersion(), GapFlush());
            && Valid(w) && AsReading(VersionGet(w, 2.0, 3)) == Some([3])
            && !FlushesClear(GapVersion(), w, 1, [GapOutput()])
            && var after := Next(w, CompactionEdit(1, GapInputs(), [], [GapOutput()]));
               View(Entries(after), 2.0, 3) == Some([3]) && VersionGet(after, 2.0, 3) == NotFound
  {
    hide Valid, Paired, GoodOutputs, FlushesClear, View, LevelChosen;
    GapValid();
    GapPicked();
    forall limit, level | LevelChosen(GapVersion(), 2.0, 2.0, limit, level)
        ensures level == 2 { GapLevel(limit, level); }
    GapGrows();
    var w := Next(GapVersion(), GapFlush());
    GapRecorded(w);
    GapInstalls(w);
    GapReading();
    GapLookup();
  }
}
