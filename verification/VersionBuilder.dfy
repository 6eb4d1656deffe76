/** Edits and how they turn one version into the next: the builder that accumulates edits
    per level and merges them with the base version's files, and replay of a whole
    MANIFEST through a single builder. */
module VersionBuilder {
  import opened Ordering
  import opened Levels

  /** Files removed and added, each at a level. */
  datatype Edit = Edit(deleted: set<(nat, nat)>, added: seq<(nat, File)>)

  /** Per level: numbers deleted so far, and files added so far in key order. */
  datatype State = State(deleted: seq<set<nat>>, added: seq<seq<File>>)

  ghost predicate EditOk(edit: Edit)
  {
    && (forall p :: p in edit.deleted ==> p.0 < NUM_LEVELS)
    && (forall i :: 0 <= i < |edit.added| ==> edit.added[i].0 < NUM_LEVELS)
  }

  ghost predicate StateOk(st: State)
  {
    |st.deleted| == NUM_LEVELS && |st.added| == NUM_LEVELS && forall l :: 0 <= l < NUM_LEVELS ==> Ordered(st.added[l])
  }

  /** Insertion into an ordered set of files; an equivalent element blocks it. */
  function InsertOrdered(f: File, fs: seq<File>): seq<File>
  {
    if fs == [] || BySmallest(f, fs[0]) then [f] + fs
    else if BySmallest(fs[0], f) then [fs[0]] + InsertOrdered(f, fs[1..])
    else fs
  }

  function DeletedAt(edit: Edit, l: nat): set<nat>
  {
    set p | p in edit.deleted && p.0 == l :: p.1
  }

  function AddOne(st: State, l: nat, f: File): State
    requires |st.deleted| == NUM_LEVELS && |st.added| == NUM_LEVELS && l < NUM_LEVELS
  {
    State(st.deleted[l := st.deleted[l] - {f.number}], st.added[l := InsertOrdered(f, st.added[l])])
  }

  function AddAll(st: State, added: seq<(nat, File)>): (r: State)
    requires |st.deleted| == NUM_LEVELS && |st.added| == NUM_LEVELS
    requires forall i :: 0 <= i < |added| ==> added[i].0 < NUM_LEVELS
    ensures |r.deleted| == NUM_LEVELS && |r.added| == NUM_LEVELS
  {
    if added == [] then st
    else
      var n := |added| - 1;
      AddOne(AddAll(st, added[..n]), added[n].0, added[n].1)
  }

  function DeleteAll(st: State, edit: Edit): (r: seq<set<nat>>)
    requires |st.deleted| == NUM_LEVELS
    ensures |r| == NUM_LEVELS && forall l :: 0 <= l < NUM_LEVELS ==> r[l] == st.deleted[l] + DeletedAt(edit, l)
  {
    seq(NUM_LEVELS, l requires 0 <= l < NUM_LEVELS => st.deleted[l] + DeletedAt(edit, l))
  }

  function ApplyEdit(st: State, edit: Edit): (r: State)
    requires EditOk(edit) && |st.deleted| == NUM_LEVELS && |st.added| == NUM_LEVELS
    ensures |r.deleted| == NUM_LEVELS && |r.added| == NUM_LEVELS
  {
    AddAll(State(DeleteAll(st, edit), st.added), edit.added)
  }

  function Keep(f: File, deleted: set<nat>): seq<File>
  {
    if f.number in deleted then [] else [f]
  }

  /** `SaveTo` on one level: added files go in before the first base file they precede. */
  function MergeLevel(base: seq<File>, added: seq<File>, deleted: set<nat>): seq<File>
    decreases |base| + |added|
  {
    if base != [] && (added == [] || !BySmallest(added[0], base[0])) then
      Keep(base[0], deleted) + MergeLevel(base[1..], added, deleted)
    else if added != [] then
      Keep(added[0], deleted) + MergeLevel(base, added[1..], deleted)
    else []
  }

  function Save(base: Version, st: State): (v: Version)
    requires |base.levels| == NUM_LEVELS && |st.deleted| == NUM_LEVELS && |st.added| == NUM_LEVELS
    ensures |v.levels| == NUM_LEVELS
  {
    Version(seq(NUM_LEVELS, l requires 0 <= l < NUM_LEVELS => MergeLevel(base.levels[l], st.added[l], st.deleted[l])))
  }

  function EmptyState(): (st: State)
    ensures |st.deleted| == NUM_LEVELS && |st.added| == NUM_LEVELS
    ensures forall l :: 0 <= l < NUM_LEVELS ==> st.deleted[l] == {} && st.added[l] == []
  {
    State(seq(NUM_LEVELS, _ => {}), seq(NUM_LEVELS, _ => []))
  }

  class Builder {
    const base: Version
    var levels: State

    ghost predicate Valid()
      reads this
    {
      |base.levels| == NUM_LEVELS && |levels.deleted| == NUM_LEVELS && |levels.added| == NUM_LEVELS
    }

    constructor (base: Version)
      requires |base.levels| == NUM_LEVELS
      ensures Valid() && this.base == base && levels == EmptyState()
    {
      this.base := base;
      levels := EmptyState();
    }

    method Apply(edit: Edit)
      requires Valid() && EditOk(edit)
      modifies this
      ensures Valid() && levels == ApplyEdit(old(levels), edit)
    {
      var deleted := levels.deleted;
      for l := 0 to NUM_LEVELS
        invariant |deleted| == NUM_LEVELS
        invariant forall m :: 0 <= m < l ==> deleted[m] == levels.deleted[m] + DeletedAt(edit, m)
        invariant forall m :: l <= m < NUM_LEVELS ==> deleted[m] == levels.deleted[m]
      {
        deleted := deleted[l := deleted[l] + DeletedAt(edit, l)];
      }
      ghost var start := State(deleted, levels.added);
      assert deleted == DeleteAll(levels, edit);
      levels := State(deleted, levels.added);
      for i := 0 to |edit.added|
        invariant Valid() && levels == AddAll(start, edit.added[..i])
      {
        assert edit.added[..i + 1][..i] == edit.added[..i];
        var (l, f) := edit.added[i];
        levels := State(levels.deleted[l := levels.deleted[l] - {f.number}],
                        levels.added[l := InsertOrdered(f, levels.added[l])]);
      }
      assert edit.added[..|edit.added|] == edit.added;
    }

    method SaveTo() returns (v: Version)
      requires Valid()
      ensures v == Save(base, levels)
    {
      var saved: seq<seq<File>> := [];
      for l := 0 to NUM_LEVELS
        invariant |saved| == l
        invariant forall m :: 0 <= m < l ==> saved[m] == MergeLevel(base.levels[m], levels.added[m], levels.deleted[m])
      {
        var files := SaveLevel(base.levels[l], levels.added[l], levels.deleted[l]);
        saved := saved + [files];
      }
      v := Version(saved);
    }
  }

  lemma {:induction false} TakeBase(base: seq<File>, b: nat, added: seq<File>, a: nat, deleted: set<nat>,
                                    files: seq<File>)
    requires b < |base| && a <= |added| && (a == |added| || !BySmallest(added[a], base[b]))
    ensures files + MergeLevel(base[b..], added[a..], deleted) ==
            files + Keep(base[b], deleted) + MergeLevel(base[b + 1..], added[a..], deleted)
  {
    assert base[b..][1..] == base[b + 1..];
  }

  lemma {:induction false} TakeAdded(base: seq<File>, b: nat, added: seq<File>, a: nat, deleted: set<nat>,
                                     files: seq<File>)
    requires b <= |base| && a < |added| && (b == |base| || BySmallest(added[a], base[b]))
    ensures files + MergeLevel(base[b..], added[a..], deleted) ==
            files + Keep(added[a], deleted) + MergeLevel(base[b..], added[a + 1..], deleted)
  {
    assert added[a..][1..] == added[a + 1..];
  }

  /** The merge loop of `SaveTo`: for each added file first the base files up to its upper
      bound, then the file itself, and finally the remaining base files. */
  method SaveLevel(base: seq<File>, added: seq<File>, deleted: set<nat>) returns (files: seq<File>)
    ensures files == MergeLevel(base, added, deleted)
  {
    files := [];
    var b := 0;
    for a := 0 to |added|
      invariant 0 <= b <= |base|
      invariant files + MergeLevel(base[b..], added[a..], deleted) == MergeLevel(base, added, deleted)
    {
      while b < |base| && !BySmallest(added[a], base[b])
        invariant 0 <= b <= |base|
        invariant files + MergeLevel(base[b..], added[a..], deleted) == MergeLevel(base, added, deleted)
      {
        TakeBase(base, b, added, a, deleted, files);
        files := files + Keep(base[b], deleted);
        b := b + 1;
      }
      TakeAdded(base, b, added, a, deleted, files);
      files := files + Keep(added[a], deleted);
    }
    while b < |base|
      invariant 0 <= b <= |base|
      invariant files + MergeLevel(base[b..], added[|added|..], deleted) == MergeLevel(base, added, deleted)
    {
      TakeBase(base, b, added, |added|, deleted, files);
      files := files + Keep(base[b], deleted);
      b := b + 1;
    }
  }

  // ----- what a saved level holds

  ghost predicate LiveIn(f: File, base: seq<File>, added: seq<File>, deleted: set<nat>)
  {
    (f in base || f in added) && f.number !in deleted
  }

  lemma {:induction false} InsertOrderedKeeps(f: File, fs: seq<File>)
    requires Ordered(fs)
    requires forall g :: g in fs && g.smallest == f.smallest && g.number == f.number ==> g == f
    ensures Ordered(InsertOrdered(f, fs))
    ensures forall g :: g in InsertOrdered(f, fs) <==> g == f || g in fs
  {
    if fs == [] || BySmallest(f, fs[0]) {
    } else if BySmallest(fs[0], f) {
      InsertOrderedKeeps(f, fs[1..]);
      assert fs == [fs[0]] + fs[1..];
      var tail := InsertOrdered(f, fs[1..]);
      assert forall i :: 0 <= i < |tail| ==> tail[i] in tail;
    } else {
      assert fs[0] in fs;
    }
  }

  /** A saved level holds exactly the live files of base and edits. */
  lemma {:induction false} MergeMembers(base: seq<File>, added: seq<File>, deleted: set<nat>)
    ensures forall f :: f in MergeLevel(base, added, deleted) <==> LiveIn(f, base, added, deleted)
    decreases |base| + |added|
  {
    if base != [] && (added == [] || !BySmallest(added[0], base[0])) {
      MergeMembers(base[1..], added, deleted);
      assert base == [base[0]] + base[1..];
    } else if added != [] {
      MergeMembers(base, added[1..], deleted);
      assert added == [added[0]] + added[1..];
    }
  }

  /** ... in key order, when no live file comes from both sides. */
  lemma {:induction false} MergeOrdered(base: seq<File>, added: seq<File>, deleted: set<nat>)
    requires Ordered(base) && Ordered(added)
    requires forall f, g :: f in base && g in added && f.number !in deleted && g.number !in deleted ==>
             f.number != g.number
    ensures Ordered(MergeLevel(base, added, deleted))
    decreases |base| + |added|
  {
    if base != [] && (added == [] || !BySmallest(added[0], base[0])) {
      MergeOrdered(base[1..], added, deleted);
      MergeMembers(base[1..], added, deleted);
      assert base == [base[0]] + base[1..];
      var T := MergeLevel(base[1..], added, deleted);
      if base[0].number !in deleted {
        forall t | t in T ensures BySmallest(base[0], t) {
          if t in added {
            FirstIsLeast(added, t);
          }
        }
        ConsOrdered(base[0], T);
      }
    } else if added != [] {
      MergeOrdered(base, added[1..], deleted);
      MergeMembers(base, added[1..], deleted);
      assert added == [added[0]] + added[1..];
      var T := MergeLevel(base, added[1..], deleted);
      if added[0].number !in deleted {
        forall t | t in T ensures BySmallest(added[0], t) {
          if t in base {
            FirstIsLeast(base, t);
          }
        }
        ConsOrdered(added[0], T);
      }
    }
  }

  lemma {:induction false} FirstIsLeast(fs: seq<File>, t: File)
    requires Ordered(fs) && t in fs
    ensures t == fs[0] || BySmallest(fs[0], t)
  {
  }

  lemma {:induction false} ConsOrdered(h: File, T: seq<File>)
    requires Ordered(T) && forall t :: t in T ==> BySmallest(h, t)
    ensures Ordered([h] + T)
  {
    assert forall i :: 0 <= i < |T| ==> T[i] in T;
  }

  ghost function FileSet(files: seq<File>): set<File>
  {
    set f | f in files
  }

  lemma {:induction false} OrderedSize(a: seq<File>)
    requires Ordered(a)
    ensures |FileSet(a)| == |a|
  {
    if a != [] {
      OrderedSize(a[1..]);
      forall f ensures f in FileSet(a) <==> f in FileSet(a[1..]) || f == a[0] { TailMembers(a, f); }
      TailMembers(a, a[0]);
      assert FileSet(a) == FileSet(a[1..]) + {a[0]};
    }
  }

  /** Two ordered levels with the same files are the same level. */
  lemma {:induction false} OrderedUnique(a: seq<File>, b: seq<File>)
    requires Ordered(a) && Ordered(b)
    requires forall f :: f in a <==> f in b
    ensures a == b
  {
    OrderedSize(a);
    OrderedSize(b);
    assert FileSet(a) == FileSet(b);
    if a != [] {
      assert a[0] in b && b != [];
      assert b[0] in a;
      FirstIsLeast(a, b[0]);
      FirstIsLeast(b, a[0]);
      assert a == [a[0]] + a[1..] && b == [b[0]] + b[1..];
      forall f
        ensures f in a[1..] <==> f in b[1..]
      {
        TailMembers(a, f);
        TailMembers(b, f);
      }
      OrderedUnique(a[1..], b[1..]);
    }
  }

  lemma {:induction false} TailMembers(a: seq<File>, f: File)
    requires Ordered(a) && a != []
    ensures f in a[1..] <==> f in a && f != a[0]
  {
    assert a == [a[0]] + a[1..];
    if f in a[1..] {
      var i :| 0 <= i < |a[1..]| && a[1..][i] == f;
      assert BySmallest(a[0], a[i + 1]);
    }
  }

  // ----- applying an edit, as sets of files

  ghost function AddedAt(added: seq<(nat, File)>, l: nat): set<File>
  {
    set p | p in added && p.0 == l :: p.1
  }

  ghost function Numbers(files: set<File>): set<nat>
  {
    set f | f in files :: f.number
  }

  /** Numbers added at a level are new to it and distinct. */
  ghost predicate NewAt(st: State, added: seq<(nat, File)>)
    requires |st.added| == NUM_LEVELS
  {
    && (forall i :: 0 <= i < |added| ==> added[i].0 < NUM_LEVELS)
    && (forall i, g :: 0 <= i < |added| && g in st.added[added[i].0] ==> g.number != added[i].1.number)
    && DistinctAt(added)
  }

  ghost predicate DistinctAt(added: seq<(nat, File)>)
  {
    forall i, j :: 0 <= i < j < |added| && added[i].0 == added[j].0 ==> added[i].1.number != added[j].1.number
  }

  lemma {:induction false} AddAllEffect(st: State, added: seq<(nat, File)>, l: nat)
    requires StateOk(st) && NewAt(st, added) && l < NUM_LEVELS
    ensures var r := AddAll(st, added);
            && Ordered(r.added[l])
            && (forall g :: g in r.added[l] <==> g in st.added[l] || g in AddedAt(added, l))
            && r.deleted[l] == st.deleted[l] - Numbers(AddedAt(added, l))
  {
    if added != [] {
      var n := |added| - 1;
      var init, m, f := added[..n], added[n].0, added[n].1;
      assert added == init + [added[n]];
      AddAllEffect(st, init, l);
      AddedAtSnoc(init, added[n], l);
      if l == m {
        var r := AddAll(st, init);
        NewToInit(st, added, n);
        InsertOrderedKeeps(f, r.added[m]);
        assert Numbers(AddedAt(added, l)) == Numbers(AddedAt(init, l)) + {f.number};
      }
    }
  }

  lemma {:induction false} NewToInit(st: State, added: seq<(nat, File)>, n: nat)
    requires |st.added| == NUM_LEVELS && NewAt(st, added) && n < |added|
    ensures forall g :: g in AddedAt(added[..n], added[n].0) || g in st.added[added[n].0] ==>
            g.number != added[n].1.number
  {
    forall g | g in AddedAt(added[..n], added[n].0)
      ensures g.number != added[n].1.number
    {
      var p :| p in added[..n] && p.0 == added[n].0 && p.1 == g;
      var i :| 0 <= i < n && added[..n][i] == p;
      assert added[i] == p;
    }
  }

  lemma {:induction false} AddedAtSnoc(init: seq<(nat, File)>, p: (nat, File), l: nat)
    ensures AddedAt(init + [p], l) == AddedAt(init, l) + (if l == p.0 then {p.1} else {})
  {
    var both := init + [p];
    forall f
      ensures f in AddedAt(both, l) <==> f in AddedAt(init, l) || (l == p.0 && f == p.1)
    {
      if f in AddedAt(both, l) {
        var q :| q in both && q.0 == l && q.1 == f;
      }
      if f in AddedAt(init, l) {
        var q :| q in init && q.0 == l && q.1 == f;
        assert q in both;
      }
      assert p in both;
    }
  }

  ghost predicate LevelsOrdered(v: Version)
  {
    |v.levels| == NUM_LEVELS && forall l :: 0 <= l < NUM_LEVELS ==> Ordered(v.levels[l])
  }

  /** No file added by the edit has a number that the version uses at that level. */
  ghost predicate NewTo(v: Version, added: seq<(nat, File)>)
    requires |v.levels| == NUM_LEVELS
  {
    && (forall i :: 0 <= i < |added| ==> added[i].0 < NUM_LEVELS)
    && (forall i, g :: 0 <= i < |added| && g in v.levels[added[i].0] ==> g.number != added[i].1.number)
  }

  ghost predicate Separate(base: Version, st: State)
    requires |base.levels| == NUM_LEVELS && |st.added| == NUM_LEVELS
  {
    forall l, f, g :: 0 <= l < NUM_LEVELS && f in base.levels[l] && g in st.added[l] ==> f.number != g.number
  }

  /** The files of a saved version, and their order. */
  lemma {:induction false} SaveEffect(base: Version, st: State)
    requires LevelsOrdered(base) && StateOk(st) && Separate(base, st)
    ensures LevelsOrdered(Save(base, st))
    ensures forall l, f :: 0 <= l < NUM_LEVELS ==>
              (f in Save(base, st).levels[l] <==> LiveIn(f, base.levels[l], st.added[l], st.deleted[l]))
  {
    forall l | 0 <= l < NUM_LEVELS
      ensures Ordered(Save(base, st).levels[l])
      ensures forall f :: f in Save(base, st).levels[l] <==> LiveIn(f, base.levels[l], st.added[l], st.deleted[l])
    {
      MergeMembers(base.levels[l], st.added[l], st.deleted[l]);
      MergeOrdered(base.levels[l], st.added[l], st.deleted[l]);
    }
  }

  lemma {:induction false} ApplyEffect(base: Version, st: State, edit: Edit)
    requires StateOk(st) && EditOk(edit) && NewAt(st, edit.added)
    requires LevelsOrdered(base) && Separate(base, st) && NewTo(base, edit.added)
    ensures var r := ApplyEdit(st, edit);
            && StateOk(r) && Separate(base, r)
            && (forall l, g :: 0 <= l < NUM_LEVELS ==>
               (g in r.added[l] <==> g in st.added[l] || g in AddedAt(edit.added, l)))
            && (forall l :: 0 <= l < NUM_LEVELS ==>
                  r.deleted[l] == st.deleted[l] + DeletedAt(edit, l) - Numbers(AddedAt(edit.added, l)))
  {
    var r := ApplyEdit(st, edit);
    forall l | 0 <= l < NUM_LEVELS
      ensures Ordered(r.added[l])
      ensures forall g :: g in r.added[l] <==> g in st.added[l] || g in AddedAt(edit.added, l)
      ensures r.deleted[l] == st.deleted[l] + DeletedAt(edit, l) - Numbers(AddedAt(edit.added, l))
    {
      AddAllEffect(State(DeleteAll(st, edit), st.added), edit.added, l);
    }
    forall l, f, g | 0 <= l < NUM_LEVELS && f in base.levels[l] && g in r.added[l]
      ensures f.number != g.number
    {
      if g in AddedAt(edit.added, l) {
        var p :| p in edit.added && p.0 == l && p.1 == g;
      }
    }
  }

  /** One edit applied to a version, as `LogAndApply` does. */
  function Next(v: Version, edit: Edit): Version
    requires |v.levels| == NUM_LEVELS && EditOk(edit)
  {
    Save(v, ApplyEdit(EmptyState(), edit))
  }

  ghost predicate Applicable(v: Version, edit: Edit)
  {
    EditOk(edit) && LevelsOrdered(v) && NewTo(v, edit.added) && NewAt(EmptyState(), edit.added)
  }

  ghost predicate InNext(f: File, v: Version, edit: Edit, l: nat)
    requires l < |v.levels|
  {
    (f in v.levels[l] && f.number !in DeletedAt(edit, l)) || f in AddedAt(edit.added, l)
  }

  /** The next version holds, per level, the files not removed plus the files added. */
  lemma {:induction false} NextEffect(v: Version, edit: Edit)
    requires Applicable(v, edit)
    ensures LevelsOrdered(Next(v, edit))
    ensures forall l, f :: 0 <= l < NUM_LEVELS ==> (f in Next(v, edit).levels[l] <==> InNext(f, v, edit, l))
  {
    ApplyEffect(v, EmptyState(), edit);
    var r := ApplyEdit(EmptyState(), edit);
    SaveEffect(v, r);
    forall l, f | 0 <= l < NUM_LEVELS
      ensures f in Next(v, edit).levels[l] <==> InNext(f, v, edit, l)
    {
      NewNumbersUnused(v, edit.added, l, f);
      assert f in AddedAt(edit.added, l) ==> f.number in Numbers(AddedAt(edit.added, l));
    }
  }

  lemma {:induction false} NewNumbersUnused(v: Version, added: seq<(nat, File)>, l: nat, f: File)
    requires |v.levels| == NUM_LEVELS && l < NUM_LEVELS && NewTo(v, added)
    ensures f in v.levels[l] ==> f.number !in Numbers(AddedAt(added, l))
  {
    forall g | g in AddedAt(added, l) && f in v.levels[l]
      ensures g.number != f.number
    {
      var p :| p in added && p.0 == l && p.1 == g;
      var i :| 0 <= i < |added| && added[i] == p;
    }
  }
}
