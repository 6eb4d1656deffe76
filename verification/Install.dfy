/** Installing a compaction, a trivial move or a flush: each keeps the version valid and
    keeps every reading that a live snapshot can make. */
module Install {
  import opened Ordering
  import opened Levels
  import opened CompactionInputs
  import opened CompactionWork
  import opened VersionBuilder

  /** `after` is `v` with the inputs taken out and `outs` put into the next level. */
  ghost predicate Installed(v: Version, after: Version, L: nat, I0: seq<File>, I1: seq<File>, outs: seq<File>)
    requires |v.levels| == NUM_LEVELS
  {
    && LevelsOrdered(after)
    && forall l, f :: 0 <= l < NUM_LEVELS ==>
       (f in after.levels[l] <==> Stays(v, l, f, L, I0, I1) || (l == L + 1 && f in outs))
  }

  ghost predicate Stays(v: Version, l: nat, f: File, L: nat, I0: seq<File>, I1: seq<File>)
    requires l < |v.levels|
  {
    f in v.levels[l] && !(l == L && f in I0) && !(l == L + 1 && f in I1)
  }

  /** Output numbers are unused, except that a moved file keeps its own. */
  ghost predicate NumbersFree(v: Version, L: nat, I0: seq<File>, outs: seq<File>)
  {
    && (forall l, f, o :: 0 <= l < |v.levels| && f in v.levels[l] && o in outs && f.number == o.number ==>
       f == o && l == L && f in I0)
    && (forall i, j :: 0 <= i < j < |outs| ==> outs[i].number != outs[j].number)
  }

  ghost function InputEntries(I0: seq<File>, I1: seq<File>): set<Entry>
  {
    LevelEntries(I0) + LevelEntries(I1)
  }

  /** Outputs are ordered disjoint files holding only entries of the inputs. */
  ghost predicate GoodOutputs(I0: seq<File>, I1: seq<File>, outs: seq<File>)
  {
    && AllWellFormed(outs)
    && SortedLevel(outs)
    && LevelEntries(outs) <= InputEntries(I0, I1)
  }

  // ----- the edit

  function Removals(l: nat, files: seq<File>): set<(nat, nat)>
  {
    set f | f in files :: (l, f.number)
  }

  function Additions(l: nat, files: seq<File>): (r: seq<(nat, File)>)
    ensures |r| == |files| && forall i :: 0 <= i < |files| ==> r[i] == (l, files[i])
  {
    seq(|files|, i requires 0 <= i < |files| => (l, files[i]))
  }

  function CompactionEdit(L: nat, I0: seq<File>, I1: seq<File>, outs: seq<File>): Edit
  {
    Edit(Removals(L, I0) + Removals(L + 1, I1), Additions(L + 1, outs))
  }

  lemma {:induction false} RemovedAt(v: Version, L: nat, I0: seq<File>, I1: seq<File>, outs: seq<File>, l: nat, f: File)
    requires |v.levels| == NUM_LEVELS && NumbersUnique(v) && l < NUM_LEVELS && L + 1 < NUM_LEVELS && f in v.levels[l]
    requires Subset(I0, v.levels[L]) && Subset(I1, v.levels[L + 1])
    ensures f.number in DeletedAt(CompactionEdit(L, I0, I1, outs), l) <==>
            (l == L && f in I0) || (l == L + 1 && f in I1)
  {
    var edit := CompactionEdit(L, I0, I1, outs);
    if f.number in DeletedAt(edit, l) {
      var p :| p in edit.deleted && p.0 == l && p.1 == f.number;
      if p in Removals(L, I0) {
        var g :| g in I0 && p == (L, g.number);
      } else {
        var g :| g in I1 && p == (L + 1, g.number);
      }
    }
    if l == L && f in I0 {
      assert (l, f.number) in edit.deleted;
    }
    if l == L + 1 && f in I1 {
      assert (l, f.number) in edit.deleted;
    }
  }

  lemma {:induction false} AddedOutputs(M: nat, outs: seq<File>, l: nat, f: File)
    ensures f in AddedAt(Additions(M, outs), l) <==> l == M && f in outs
  {
    var added := Additions(M, outs);
    if f in AddedAt(added, l) {
      var p :| p in added && p.0 == l && p.1 == f;
      var i :| 0 <= i < |added| && added[i] == p;
    }
    if l == M && f in outs {
      var i :| 0 <= i < |outs| && outs[i] == f;
      assert added[i] in added;
    }
  }

  lemma {:induction false} EditApplicable(v: Version, L: nat, I0: seq<File>, I1: seq<File>, outs: seq<File>)
    requires Shaped(v) && L + 1 < NUM_LEVELS && Subset(I0, v.levels[L]) && Subset(I1, v.levels[L + 1])
    requires NumbersFree(v, L, I0, outs)
    ensures Applicable(v, CompactionEdit(L, I0, I1, outs)) && NumbersUnique(v)
  {
  }

  /** Applying the compaction's edit does what an installation should. */
  lemma {:induction false} EditInstalls(v: Version, L: nat, I0: seq<File>, I1: seq<File>, outs: seq<File>)
    requires Shaped(v) && L + 1 < NUM_LEVELS && Subset(I0, v.levels[L]) && Subset(I1, v.levels[L + 1])
    requires NumbersFree(v, L, I0, outs)
    ensures Applicable(v, CompactionEdit(L, I0, I1, outs))
    ensures Installed(v, Next(v, CompactionEdit(L, I0, I1, outs)), L, I0, I1, outs)
  {
    EditApplicable(v, L, I0, I1, outs);
    hide NumbersFree, NumbersUnique, Applicable, NewTo, NewAt, Next, SortedLevel, AllWellFormed, DeletedAt;
    var edit := CompactionEdit(L, I0, I1, outs);
    NextEffect(v, edit);
    forall l, f | 0 <= l < NUM_LEVELS
      ensures InNext(f, v, edit, l) <==> Stays(v, l, f, L, I0, I1) || (l == L + 1 && f in outs)
    {
      if f in v.levels[l] {
        RemovedAt(v, L, I0, I1, outs, l, f);
      }
      AddedOutputs(L + 1, outs, l, f);
    }
  }

  /** `InstallCompactionResults`: the edit is assembled in loops and applied. */
  method InstallCompactionResults(v: Version, L: nat, I0: seq<File>, I1: seq<File>, outs: seq<File>)
    returns (after: Version)
    requires |v.levels| == NUM_LEVELS && L + 1 < NUM_LEVELS
    ensures after == Next(v, CompactionEdit(L, I0, I1, outs))
  {
    var deleted: set<(nat, nat)> := {};
    for i := 0 to |I0|
      invariant deleted == Removals(L, I0[..i])
    {
      deleted := deleted + {(L, I0[i].number)};
      assert I0[..i + 1] == I0[..i] + [I0[i]];
    }
    assert I0[..|I0|] == I0;
    for i := 0 to |I1|
      invariant deleted == Removals(L, I0) + Removals(L + 1, I1[..i])
    {
      deleted := deleted + {(L + 1, I1[i].number)};
      assert I1[..i + 1] == I1[..i] + [I1[i]];
    }
    assert I1[..|I1|] == I1;
    var added: seq<(nat, File)> := [];
    for i := 0 to |outs|
      invariant added == Additions(L + 1, outs)[..i]
    {
      added := added + [(L + 1, outs[i])];
    }
    assert Additions(L + 1, outs)[..|outs|] == Additions(L + 1, outs);
    var builder := new Builder(v);
    builder.Apply(Edit(deleted, added));
    after := builder.SaveTo();
  }

  // ----- levels stay sorted

  ghost predicate PairwiseApart(files: seq<File>)
  {
    forall f, g :: f in files && g in files && f != g ==> Less(f.largest, g.smallest) || Less(g.largest, f.smallest)
  }

  lemma {:induction false} ApartIsSorted(files: seq<File>)
    requires AllWellFormed(files) && Ordered(files) && PairwiseApart(files)
    ensures SortedLevel(files)
  {
    forall i, j | 0 <= i < j < |files|
      ensures Less(files[i].largest, files[j].smallest)
    {
      var f, g := files[i], files[j];
      assert f in files && g in files;
      assert BySmallest(f, g);
      InRange(f, f.entries[0]);
      InRange(g, g.entries[0]);
    }
  }

  lemma {:induction false} SortedIsApart(files: seq<File>)
    requires SortedLevel(files)
    ensures PairwiseApart(files)
  {
    forall f, g | f in files && g in files && f != g
      ensures Less(f.largest, g.smallest) || Less(g.largest, f.smallest)
    {
      var i :| 0 <= i < |files| && files[i] == f;
      var j :| 0 <= j < |files| && files[j] == g;
    }
  }

  /** A file apart from all inputs is apart from every output, however outputs were cut. */
  lemma {:induction false} OutputClear(g: File, I0: seq<File>, I1: seq<File>, outs: seq<File>, o: File)
    requires AllWellFormed(I0) && AllWellFormed(I1) && GoodOutputs(I0, I1, outs) && o in outs && Apart(g, I0, I1)
    ensures Less(g.largest, o.smallest) || Less(o.largest, g.smallest)
  {
    var first, last := o.entries[0], o.entries[|o.entries| - 1];
    assert first in o.entries && last in o.entries;
    assert first in LevelEntries(outs) && last in LevelEntries(outs);
    var a := InputOf(I0, I1, first);
    var b := InputOf(I0, I1, last);
    InRange(a, first);
    InRange(b, last);
  }

  lemma {:induction false} InputOf(I0: seq<File>, I1: seq<File>, e: Entry) returns (f: File)
    requires e in InputEntries(I0, I1)
    ensures (f in I0 || f in I1) && e in f.entries
  {
    if e in LevelEntries(I0) {
      f :| f in I0 && e in f.entries;
    } else {
      f :| f in I1 && e in f.entries;
    }
  }

  /** No output shares a key range with a file that stays in the next level. */
  ghost predicate Clear(v: Version, L: nat, I1: seq<File>, outs: seq<File>)
    requires L + 1 < |v.levels|
  {
    forall g, o :: g in v.levels[L + 1] && g !in I1 && o in outs ==>
        Less(g.largest, o.smallest) || Less(o.largest, g.smallest)
  }

  lemma {:induction false} GoodIsClear(v: Version, L: nat, I0: seq<File>, I1: seq<File>, outs: seq<File>)
    requires Shaped(v) && L + 1 < NUM_LEVELS && GoodInputs(v, L, I0, I1) && GoodOutputs(I0, I1, outs)
    ensures Clear(v, L, I1, outs)
  {
    assert AllWellFormed(I0) && AllWellFormed(I1) by {
      assert AllWellFormed(v.levels[L]) && AllWellFormed(v.levels[L + 1]);
    }
    forall g, o | g in v.levels[L + 1] && g !in I1 && o in outs
      ensures Less(g.largest, o.smallest) || Less(o.largest, g.smallest)
    {
      OutputClear(g, I0, I1, outs, o);
    }
  }

  lemma {:induction false} AfterApart(v: Version, after: Version, L: nat, I0: seq<File>, I1: seq<File>, outs: seq<File>,
                                      l: nat)
    requires |v.levels| == NUM_LEVELS && L + 1 < NUM_LEVELS && 1 <= l < NUM_LEVELS && SortedLevel(v.levels[l])
    requires SortedLevel(outs) && Clear(v, L, I1, outs) && Installed(v, after, L, I0, I1, outs)
    ensures PairwiseApart(after.levels[l])
  {
    assert PairwiseApart(v.levels[l]) by { SortedIsApart(v.levels[l]); }
    assert PairwiseApart(outs) by { SortedIsApart(outs); }
    forall f, g | f in after.levels[l] && g in after.levels[l] && f != g
      ensures Less(f.largest, g.smallest) || Less(g.largest, f.smallest)
    {
      assert Stays(v, l, f, L, I0, I1) || (l == L + 1 && f in outs);
      assert Stays(v, l, g, L, I0, I1) || (l == L + 1 && g in outs);
    }
  }

  lemma {:induction false} AfterNumbers(v: Version, after: Version, L: nat, I0: seq<File>, I1: seq<File>,
                                        outs: seq<File>)
    requires |v.levels| == NUM_LEVELS && NumbersUnique(v) && NumbersFree(v, L, I0, outs)
    requires Installed(v, after, L, I0, I1, outs)
    ensures NumbersUnique(after)
  {
    forall f, g | f in outs && g in outs && f.number == g.number
      ensures f == g
    {
      var i :| 0 <= i < |outs| && outs[i] == f;
      var j :| 0 <= j < |outs| && outs[j] == g;
    }
    forall l, m, f, g | 0 <= l < NUM_LEVELS && 0 <= m < NUM_LEVELS && f in after.levels[l] && g in after.levels[m]
        && f.number == g.number
      ensures l == m && f == g
    {
      assert Stays(v, l, f, L, I0, I1) || (l == L + 1 && f in outs);
      assert Stays(v, m, g, L, I0, I1) || (m == L + 1 && g in outs);
    }
  }

  lemma {:induction false} AfterWellFormed(v: Version, after: Version, L: nat, I0: seq<File>, I1: seq<File>,
                                           outs: seq<File>)
    requires Shaped(v) && AllWellFormed(outs) && Installed(v, after, L, I0, I1, outs)
    ensures forall l :: 0 <= l < NUM_LEVELS ==> AllWellFormed(after.levels[l])
  {
  }

  /** Installation keeps every level but 0 sorted with disjoint ranges. */
  lemma {:induction false} InstallKeepsShape(v: Version, after: Version, L: nat, I0: seq<File>, I1: seq<File>,
                                             outs: seq<File>)
    requires Shaped(v) && L + 1 < NUM_LEVELS && AllWellFormed(outs) && SortedLevel(outs) && Clear(v, L, I1, outs)
    requires NumbersFree(v, L, I0, outs) && Installed(v, after, L, I0, I1, outs)
    ensures Shaped(after)
  {
    AfterWellFormed(v, after, L, I0, I1, outs);
    AfterNumbers(v, after, L, I0, I1, outs);
    forall l | 1 <= l < NUM_LEVELS
      ensures SortedLevel(after.levels[l])
    {
      AfterApart(v, after, L, I0, I1, outs, l);
      ApartIsSorted(after.levels[l]);
    }
  }

  // ----- shallower stays newer

  /** Entries of the files of level `l` that are not inputs. */
  ghost function Staying(v: Version, l: nat, L: nat, I0: seq<File>, I1: seq<File>): set<Entry>
    requires l < |v.levels|
  {
    set f, e | Stays(v, l, f, L, I0, I1) && f in v.levels[l] && e in f.entries :: e
  }

  lemma {:induction false} AfterLevel(v: Version, after: Version, L: nat, I0: seq<File>, I1: seq<File>, outs: seq<File>,
                                      l: nat)
    requires |v.levels| == NUM_LEVELS && Installed(v, after, L, I0, I1, outs) && l < NUM_LEVELS
    ensures LevelEntries(after.levels[l]) == Staying(v, l, L, I0, I1) + (if l == L + 1 then LevelEntries(outs) else {})
  {
    var A, B := LevelEntries(after.levels[l]),
        Staying(v, l, L, I0, I1) + (if l == L + 1 then LevelEntries(outs) else {});
    forall e ensures e in A <==> e in B {
      if e in A {
        var f :| f in after.levels[l] && e in f.entries;
        assert Stays(v, l, f, L, I0, I1) || (l == L + 1 && f in outs);
      }
      if e in Staying(v, l, L, I0, I1) {
        var f :| Stays(v, l, f, L, I0, I1) && f in v.levels[l] && e in f.entries;
        assert f in after.levels[l];
      }
    }
  }

  /** What stays in a level is newer than input entries that end up below it. */
  lemma {:induction false} StayingAboveInputs(v: Version, L: nat, I0: seq<File>, I1: seq<File>, l: nat)
    requires |v.levels| == NUM_LEVELS && Recency(v) && L + 1 < NUM_LEVELS && CoreInputs(v, L, I0, I1) && l <= L
    ensures Above(Staying(v, l, L, I0, I1), InputEntries(I0, I1))
  {
    forall a, b | a in Staying(v, l, L, I0, I1) && b in InputEntries(I0, I1) && a.key.user == b.key.user
      ensures a.key.sequence > b.key.sequence
    {
      var g :| Stays(v, l, g, L, I0, I1) && g in v.levels[l] && a in g.entries;
      assert a in LevelEntries(v.levels[l]);
      if b in LevelEntries(I1) {
        assert b in LevelEntries(v.levels[L + 1]);
        assert Above(LevelEntries(v.levels[l]), LevelEntries(v.levels[L + 1]));
      } else {
        var f :| f in I0 && b in f.entries;
        if l == L {
          assert a in Contents(g) && b in Contents(f);
        } else {
          assert b in LevelEntries(v.levels[L]);
          assert Above(LevelEntries(v.levels[l]), LevelEntries(v.levels[L]));
        }
      }
    }
  }

  lemma {:induction false} InputsAboveDeeper(v: Version, L: nat, I0: seq<File>, I1: seq<File>, m: nat)
    requires |v.levels| == NUM_LEVELS && Recency(v) && L + 2 <= m < NUM_LEVELS && Subset(I0, v.levels[L])
    requires Subset(I1, v.levels[L + 1])
    ensures Above(InputEntries(I0, I1), LevelEntries(v.levels[m]))
  {
    forall a, b | a in InputEntries(I0, I1) && b in LevelEntries(v.levels[m]) && a.key.user == b.key.user
      ensures a.key.sequence > b.key.sequence
    {
      if a in LevelEntries(I0) {
        assert a in LevelEntries(v.levels[L]);
        assert Above(LevelEntries(v.levels[L]), LevelEntries(v.levels[m]));
      } else {
        assert a in LevelEntries(v.levels[L + 1]);
        assert Above(LevelEntries(v.levels[L + 1]), LevelEntries(v.levels[m]));
      }
    }
  }

  lemma {:induction false} AfterAbove(v: Version, after: Version, L: nat, I0: seq<File>, I1: seq<File>, outs: seq<File>,
                                      l: nat, m: nat)
    requires |v.levels| == NUM_LEVELS && Recency(v) && L + 1 < NUM_LEVELS && CoreInputs(v, L, I0, I1)
    requires LevelEntries(outs) <= InputEntries(I0, I1)
    requires Installed(v, after, L, I0, I1, outs) && l < m < NUM_LEVELS
    ensures Above(LevelEntries(after.levels[l]), LevelEntries(after.levels[m]))
  {
    var I, A, B := InputEntries(I0, I1), Staying(v, l, L, I0, I1), Staying(v, m, L, I0, I1);
    AfterLevel(v, after, L, I0, I1, outs, l);
    AfterLevel(v, after, L, I0, I1, outs, m);
    assert Above(A, B) by {
      assert Above(LevelEntries(v.levels[l]), LevelEntries(v.levels[m]));
      StayingSubset(v, l, L, I0, I1);
      StayingSubset(v, m, L, I0, I1);
    }
    if m == L + 1 {
      StayingAboveInputs(v, L, I0, I1, l);
    } else if l == L + 1 {
      InputsAboveDeeper(v, L, I0, I1, m);
      StayingSubset(v, m, L, I0, I1);
    }
  }

  lemma {:induction false} InstallKeepsRecency(v: Version, after: Version, L: nat, I0: seq<File>, I1: seq<File>,
                                               outs: seq<File>)
    requires |v.levels| == NUM_LEVELS && Recency(v) && L + 1 < NUM_LEVELS && CoreInputs(v, L, I0, I1)
    requires LevelEntries(outs) <= InputEntries(I0, I1) && Installed(v, after, L, I0, I1, outs)
    ensures Recency(after)
  {
    forall l, m | 0 <= l < m < NUM_LEVELS
      ensures Above(LevelEntries(after.levels[l]), LevelEntries(after.levels[m]))
    {
      AfterAbove(v, after, L, I0, I1, outs, l, m);
    }
  }

  lemma {:induction false} StayingSubset(v: Version, l: nat, L: nat, I0: seq<File>, I1: seq<File>)
    requires l < |v.levels|
    ensures Staying(v, l, L, I0, I1) <= LevelEntries(v.levels[l])
  {
  }

  // ----- readings are kept

  ghost function Rest(v: Version, L: nat, I0: seq<File>, I1: seq<File>): set<Entry>
  {
    set l, e | 0 <= l < |v.levels| && e in Staying(v, l, L, I0, I1) :: e
  }

  lemma {:induction false} SplitEntries(v: Version, L: nat, I0: seq<File>, I1: seq<File>)
    requires |v.levels| == NUM_LEVELS && L + 1 < NUM_LEVELS && Subset(I0, v.levels[L]) && Subset(I1, v.levels[L + 1])
    ensures Entries(v) == Rest(v, L, I0, I1) + InputEntries(I0, I1)
  {
    var A, B := Entries(v), Rest(v, L, I0, I1) + InputEntries(I0, I1);
    forall e ensures e in A <==> e in B {
      if e in A {
        var l :| 0 <= l < NUM_LEVELS && e in LevelEntries(v.levels[l]);
        var f :| f in v.levels[l] && e in f.entries;
        if Stays(v, l, f, L, I0, I1) {
          assert e in Staying(v, l, L, I0, I1);
        }
      }
      if e in Rest(v, L, I0, I1) {
        var l :| 0 <= l < |v.levels| && e in Staying(v, l, L, I0, I1);
        StayingSubset(v, l, L, I0, I1);
      }
      if e in LevelEntries(I0) {
        assert e in LevelEntries(v.levels[L]);
      }
      if e in LevelEntries(I1) {
        assert e in LevelEntries(v.levels[L + 1]);
      }
    }
  }

  lemma {:induction false} AfterEntries(v: Version, after: Version, L: nat, I0: seq<File>, I1: seq<File>,
                                        outs: seq<File>)
    requires |v.levels| == NUM_LEVELS && L + 1 < NUM_LEVELS && Installed(v, after, L, I0, I1, outs)
    ensures Entries(after) == Rest(v, L, I0, I1) + LevelEntries(outs)
  {
    var A, B := Entries(after), Rest(v, L, I0, I1) + LevelEntries(outs);
    forall e ensures e in A <==> e in B {
      if e in A {
        var l :| 0 <= l < NUM_LEVELS && e in LevelEntries(after.levels[l]);
        AfterLevel(v, after, L, I0, I1, outs, l);
      }
      if e in Rest(v, L, I0, I1) {
        var l :| 0 <= l < |v.levels| && e in Staying(v, l, L, I0, I1);
        AfterLevel(v, after, L, I0, I1, outs, l);
      }
      AfterLevel(v, after, L, I0, I1, outs, L + 1);
    }
  }

  /** Nothing that stays is older than a deletion whose key has no deeper file. */
  lemma {:induction false} RestNotOlder(v: Version, L: nat, I0: seq<File>, I1: seq<File>, e: Entry, r: Entry)
    requires Shaped(v) && Recency(v) && L + 1 < NUM_LEVELS && CoreInputs(v, L, I0, I1)
    requires e in InputEntries(I0, I1) && r in Rest(v, L, I0, I1) && e.key.user == r.key.user
    requires BaseLevelFor(v, L, e.key.user)
    ensures r.key.sequence > e.key.sequence
  {
    var l :| 0 <= l < |v.levels| && r in Staying(v, l, L, I0, I1);
    if l <= L {
      StayingAboveInputs(v, L, I0, I1, l);
    } else {
      assert AllWellFormed(v.levels[L]) && AllWellFormed(v.levels[l]);
      DeeperNotOlder(v, L, I0, I1, e, l, r);
    }
  }

  lemma {:induction false} DeeperNotOlder(v: Version, L: nat, I0: seq<File>, I1: seq<File>, e: Entry, l: nat, r: Entry)
    requires |v.levels| == NUM_LEVELS && L < l < NUM_LEVELS && CoreInputs(v, L, I0, I1)
    requires AllWellFormed(v.levels[L]) && AllWellFormed(v.levels[l])
    requires e in InputEntries(I0, I1) && r in Staying(v, l, L, I0, I1) && e.key.user == r.key.user
    requires BaseLevelFor(v, L, e.key.user)
    ensures r.key.sequence > e.key.sequence
  {
    var g :| Stays(v, l, g, L, I0, I1) && g in v.levels[l] && r in g.entries;
    assert l == L + 1 by {
      UserRange(g);
    }
    NextLevelNotOlder(v, L, I0, I1, e, g, r);
  }

  lemma {:induction false} NextLevelNotOlder(v: Version, L: nat, I0: seq<File>, I1: seq<File>, e: Entry, g: File,
                                             r: Entry)
    requires |v.levels| == NUM_LEVELS && L + 1 < NUM_LEVELS && CoreInputs(v, L, I0, I1)
    requires AllWellFormed(v.levels[L]) && WellFormed(g)
    requires e in InputEntries(I0, I1) && g in v.levels[L + 1] && g !in I1 && r in g.entries && e.key.user == r.key.user
    ensures r.key.sequence > e.key.sequence
  {
    var f := InputOf(I0, I1, e);
    if f in I1 {
      assert r in Contents(g) && e in Contents(f);
    } else {
      UserRange(f);
      UserRange(g);
    }
  }

  /** The main theorem on compaction: a snapshot no older than the compaction's cutoff reads
      every user key as before, although shadowed entries and spent deletions are gone. */
  lemma {:induction false} CompactionKeepsView(v: Version, after: Version, L: nat, I0: seq<File>, I1: seq<File>,
                                               outs: seq<File>, snap: nat,
                            u: UserKey, s: nat)
    requires Valid(v) && L + 1 < NUM_LEVELS && CoreInputs(v, L, I0, I1) && Installed(v, after, L, I0, I1, outs)
    requires LevelEntries(outs) == Survivors(InputEntries(I0, I1), snap, BaseKeys(v, L))
    requires snap <= s
    ensures View(Entries(after), u, s) == View(Entries(v), u, s)
  {
    var I, R := InputEntries(I0, I1), Rest(v, L, I0, I1);
    SplitEntries(v, L, I0, I1);
    AfterEntries(v, after, L, I0, I1, outs);
    forall e, r | e in I && r in R && e.key.user == r.key.user && Spent(e, snap, BaseKeys(v, L))
      ensures r.key.sequence > e.key.sequence
    {
      RestNotOlder(v, L, I0, I1, e, r);
    }
    SurvivorsKeepView(I, R, snap, BaseKeys(v, L), u, s);
  }

  lemma {:induction false} InstallKeepsValid(v: Version, after: Version, L: nat, I0: seq<File>, I1: seq<File>,
                                             outs: seq<File>)
    requires Valid(v) && L + 1 < NUM_LEVELS && CoreInputs(v, L, I0, I1) && GoodOutputs(I0, I1, outs)
    requires Clear(v, L, I1, outs)
    requires NumbersFree(v, L, I0, outs) && Installed(v, after, L, I0, I1, outs)
    ensures Valid(after)
  {
    InstallKeepsShape(v, after, L, I0, I1, outs);
    InstallKeepsRecency(v, after, L, I0, I1, outs);
    SplitEntries(v, L, I0, I1);
    AfterEntries(v, after, L, I0, I1, outs);
    assert Entries(after) <= Entries(v);
    assert forall f :: f in after.levels[0] ==> Stays(v, 0, f, L, I0, I1);
  }
}
