/** The MANIFEST: a log of edits. Recovery replays it through one builder; the result is
    the version that was current when the last record was written. */
module Manifest {
  import opened Ordering
  import opened Levels
  import opened VersionBuilder
  import opened Wrappers

  /** A MANIFEST record: an edit with the counters it may carry. */
  datatype Record = Record(edit: Edit, logNumber: Option<nat>, prevLogNumber: Option<nat>,
                           nextFile: Option<nat>, lastSequence: Option<nat>)

  datatype Recovery =
    | Corruption
    | Recovered(version: Version, logNumber: nat, prevLogNumber: nat, nextFile: nat, lastSequence: nat)

  ghost predicate RecordsOk(records: seq<Record>)
  {
    forall i :: 0 <= i < |records| ==> EditOk(records[i].edit)
  }

  // ----- one builder against successive versions

  /** Accumulating all edits in one builder. */
  function Through(st: State, records: seq<Record>): (r: State)
    requires |st.deleted| == NUM_LEVELS && |st.added| == NUM_LEVELS
    requires forall i :: 0 <= i < |records| ==> EditOk(records[i].edit)
    ensures |r.deleted| == NUM_LEVELS && |r.added| == NUM_LEVELS
  {
    if records == [] then st
    else
      var n := |records| - 1;
      ApplyEdit(Through(st, records[..n]), records[n].edit)
  }

  /** Applying each edit to the version the previous one produced. */
  function Steps(v: Version, records: seq<Record>): (r: Version)
    requires |v.levels| == NUM_LEVELS
    requires forall i :: 0 <= i < |records| ==> EditOk(records[i].edit)
    ensures |r.levels| == NUM_LEVELS
  {
    if records == [] then v
    else
      var n := |records| - 1;
      Next(Steps(v, records[..n]), records[n].edit)
  }

  /** Every file number is new to its level when it is added: to the base version and to
      everything added before. */
  ghost predicate FreshNumbers(base: Version, records: seq<Record>)
    requires |base.levels| == NUM_LEVELS
  {
    && (forall i :: 0 <= i < |records| ==> EditOk(records[i].edit) && NewTo(base, records[i].edit.added))
    && NeverReadded(records)
    && (forall i :: 0 <= i < |records| ==> NewAt(EmptyState(), records[i].edit.added))
  }

  ghost predicate NeverReadded(records: seq<Record>)
  {
    forall i, j, p, q ::
      0 <= i < j < |records| && p in records[i].edit.added && q in records[j].edit.added && p.0 == q.0 ==>
        p.1.number != q.1.number
  }

  ghost predicate AddedBy(records: seq<Record>, l: nat, f: File)
  {
    exists i :: 0 <= i < |records| && (l, f) in records[i].edit.added
  }

  lemma {:induction false} SaveThenNext(base: Version, st: State, edit: Edit)
    requires LevelsOrdered(base) && StateOk(st) && Separate(base, st)
    requires EditOk(edit) && NewAt(st, edit.added) && NewTo(base, edit.added) && NewAt(EmptyState(), edit.added)
    ensures Save(base, ApplyEdit(st, edit)) == Next(Save(base, st), edit)
  {
    var v := Save(base, st);
    SaveEffect(base, st);
    ApplyEffect(base, st, edit);
    SaveEffect(base, ApplyEdit(st, edit));
    assert NewTo(v, edit.added);
    NextEffect(v, edit);
    var a, b := Save(base, ApplyEdit(st, edit)), Next(v, edit);
    forall l | 0 <= l < NUM_LEVELS
      ensures a.levels[l] == b.levels[l]
    {
      SameFiles(base, st, edit, l);
      OrderedUnique(a.levels[l], b.levels[l]);
    }
    assert a.levels == b.levels;
  }

  lemma {:induction false} SameFiles(base: Version, st: State, edit: Edit, l: nat)
    requires LevelsOrdered(base) && StateOk(st) && Separate(base, st) && l < NUM_LEVELS
    requires EditOk(edit) && NewAt(st, edit.added) && NewTo(base, edit.added) && NewAt(EmptyState(), edit.added)
    requires var r := ApplyEdit(st, edit);
             && (forall g :: g in r.added[l] <==> g in st.added[l] || g in AddedAt(edit.added, l))
             && r.deleted[l] == st.deleted[l] + DeletedAt(edit, l) - Numbers(AddedAt(edit.added, l))
             && (forall f :: f in Save(base, r).levels[l] <==> LiveIn(f, base.levels[l], r.added[l], r.deleted[l]))
    requires forall f :: f in Save(base, st).levels[l] <==> LiveIn(f, base.levels[l], st.added[l], st.deleted[l])
    requires forall f :: f in Next(Save(base, st), edit).levels[l] <==> InNext(f, Save(base, st), edit, l)
    ensures forall f :: f in Save(base, ApplyEdit(st, edit)).levels[l] <==> f in Next(Save(base, st), edit).levels[l]
  {
    var r := ApplyEdit(st, edit);
    forall f
      ensures LiveIn(f, base.levels[l], r.added[l], r.deleted[l]) <==> InNext(f, Save(base, st), edit, l)
    {
      NewNumbersUnused(base, edit.added, l, f);
      AddedUnused(st, edit.added, l, f);
      assert f in AddedAt(edit.added, l) ==> f.number in Numbers(AddedAt(edit.added, l));
    }
  }

  lemma {:induction false} AddedUnused(st: State, added: seq<(nat, File)>, l: nat, f: File)
    requires |st.added| == NUM_LEVELS && l < NUM_LEVELS && NewAt(st, added)
    ensures f in st.added[l] ==> f.number !in Numbers(AddedAt(added, l))
  {
    forall g | g in AddedAt(added, l) && f in st.added[l]
      ensures g.number != f.number
    {
      var p :| p in added && p.0 == l && p.1 == g;
      var i :| 0 <= i < |added| && added[i] == p;
    }
  }

  /** Replaying all edits through one builder gives the version that applying them one at a
      time gives. */
  lemma {:induction false} ReplayEqualsSteps(base: Version, records: seq<Record>)
    requires LevelsOrdered(base) && FreshNumbers(base, records)
    ensures Save(base, Through(EmptyState(), records)) == Steps(base, records)
    ensures StateOk(Through(EmptyState(), records)) && Separate(base, Through(EmptyState(), records))
    ensures forall l, g :: 0 <= l < NUM_LEVELS ==>
            (g in Through(EmptyState(), records).added[l] <==> AddedBy(records, l, g))
  {
    if records == [] {
      SaveEffect(base, EmptyState());
      forall l | 0 <= l < NUM_LEVELS
        ensures Save(base, EmptyState()).levels[l] == base.levels[l]
      {
        OrderedUnique(Save(base, EmptyState()).levels[l], base.levels[l]);
      }
      assert Save(base, EmptyState()).levels == base.levels;
    } else {
      var n := |records| - 1;
      var init, edit := records[..n], records[n].edit;
      ReplayEqualsSteps(base, init);
      var st := Through(EmptyState(), init);
      NewToBuilder(st, records, n);
      SaveThenNext(base, st, edit);
      ApplyEffect(base, st, edit);
      forall l, g | 0 <= l < NUM_LEVELS
        ensures AddedBy(records, l, g) <==> AddedBy(init, l, g) || g in AddedAt(edit.added, l)
      {
        AddedBySnoc(records, n, l, g);
      }
    }
  }

  lemma {:induction false} NewToBuilder(st: State, records: seq<Record>, n: nat)
    requires |st.added| == NUM_LEVELS && n < |records|
    requires forall l, g :: 0 <= l < NUM_LEVELS && g in st.added[l] ==> AddedBy(records[..n], l, g)
    requires NewAt(EmptyState(), records[n].edit.added)
    requires NeverReadded(records)
    ensures NewAt(st, records[n].edit.added)
  {
    var added := records[n].edit.added;
    forall k, g | 0 <= k < |added| && g in st.added[added[k].0]
      ensures g.number != added[k].1.number
    {
      assert AddedBy(records[..n], added[k].0, g);
      var i :| 0 <= i < n && (added[k].0, g) in records[..n][i].edit.added;
      assert records[..n][i] == records[i];
      assert added[k] in records[n].edit.added;
    }
  }

  lemma {:induction false} AddedBySnoc(records: seq<Record>, n: nat, l: nat, g: File)
    requires |records| == n + 1
    ensures AddedBy(records, l, g) <==> AddedBy(records[..n], l, g) || g in AddedAt(records[n].edit.added, l)
  {
    if AddedBy(records, l, g) {
      var i :| 0 <= i < |records| && (l, g) in records[i].edit.added;
      if i < n {
        assert records[..n][i] == records[i];
      }
    }
    if AddedBy(records[..n], l, g) {
      var i :| 0 <= i < n && (l, g) in records[..n][i].edit.added;
      assert records[i] == records[..n][i];
    }
    if g in AddedAt(records[n].edit.added, l) {
      var p :| p in records[n].edit.added && p.0 == l && p.1 == g;
      assert (l, g) == p;
    }
  }

  // ----- a fresh MANIFEST starts with a snapshot

  function EmptyVersion(): (v: Version)
    ensures |v.levels| == NUM_LEVELS && forall l :: 0 <= l < NUM_LEVELS ==> v.levels[l] == []
  {
    Version(seq(NUM_LEVELS, _ => []))
  }

  function AtLevel(l: nat, files: seq<File>): (r: seq<(nat, File)>)
    ensures |r| == |files| && forall i :: 0 <= i < |files| ==> r[i] == (l, files[i])
  {
    seq(|files|, i requires 0 <= i < |files| => (l, files[i]))
  }

  function FilesBelow(v: Version, n: nat): seq<(nat, File)>
    requires n <= |v.levels|
  {
    if n == 0 then [] else FilesBelow(v, n - 1) + AtLevel(n - 1, v.levels[n - 1])
  }

  /** `WriteSnapshot`: one record that adds every file of the version, level by level. */
  method WriteSnapshot(v: Version) returns (r: Record)
    requires |v.levels| == NUM_LEVELS
    ensures r == SnapshotRecord(v)
  {
    var added: seq<(nat, File)> := [];
    for l := 0 to NUM_LEVELS
      invariant added == FilesBelow(v, l)
    {
      ghost var before := added;
      for i := 0 to |v.levels[l]|
        invariant added == before + AtLevel(l, v.levels[l])[..i]
      {
        added := added + [(l, v.levels[l][i])];
      }
      assert AtLevel(l, v.levels[l])[..|v.levels[l]|] == AtLevel(l, v.levels[l]);
    }
    r := Record(Edit({}, added), None, None, None, None);
  }

  function SnapshotRecord(v: Version): Record
    requires |v.levels| == NUM_LEVELS
  {
    Record(Edit({}, FilesBelow(v, NUM_LEVELS)), None, None, None, None)
  }

  lemma {:induction false} FilesBelowMembers(v: Version, n: nat)
    requires |v.levels| == NUM_LEVELS && n <= NUM_LEVELS
    ensures forall l, f :: (l, f) in FilesBelow(v, n) <==> 0 <= l < n && f in v.levels[l]
    ensures forall i :: 0 <= i < |FilesBelow(v, n)| ==> FilesBelow(v, n)[i].0 < n
  {
    if n > 0 {
      FilesBelowMembers(v, n - 1);
      var here := AtLevel(n - 1, v.levels[n - 1]);
      forall l, f
        ensures (l, f) in here <==> l == n - 1 && f in v.levels[n - 1]
      {
        if l == n - 1 && f in v.levels[l] {
          var i :| 0 <= i < |v.levels[l]| && v.levels[l][i] == f;
          assert here[i] == (l, f);
        }
      }
    }
  }

  lemma {:induction false} DistinctConcat(a: seq<(nat, File)>, b: seq<(nat, File)>)
    requires DistinctAt(a) && DistinctAt(b)
    requires forall i, j :: 0 <= i < |a| && 0 <= j < |b| ==> a[i].0 != b[j].0
    ensures DistinctAt(a + b)
  {
  }

  lemma {:induction false} FilesBelowDistinct(v: Version, n: nat)
    requires |v.levels| == NUM_LEVELS && n <= NUM_LEVELS
    requires forall l :: 0 <= l < NUM_LEVELS ==> DistinctNumbers(v.levels[l])
    ensures DistinctAt(FilesBelow(v, n))
  {
    if n > 0 {
      FilesBelowDistinct(v, n - 1);
      FilesBelowMembers(v, n - 1);
      DistinctConcat(FilesBelow(v, n - 1), AtLevel(n - 1, v.levels[n - 1]));
    }
  }

  lemma {:induction false} SnapshotFiles(v: Version, l: nat)
    requires |v.levels| == NUM_LEVELS && l < NUM_LEVELS
    ensures forall f :: f in AddedAt(FilesBelow(v, NUM_LEVELS), l) <==> f in v.levels[l]
  {
    var added := FilesBelow(v, NUM_LEVELS);
    FilesBelowMembers(v, NUM_LEVELS);
    forall f ensures f in AddedAt(added, l) <==> f in v.levels[l] {
      if f in AddedAt(added, l) {
        var p :| p in added && p.0 == l && p.1 == f;
        assert p == (l, f);
      }
      if f in v.levels[l] {
        assert (l, f) in added;
      }
    }
  }

  lemma {:induction false} SnapshotApplicable(v: Version)
    requires Shaped(v)
    ensures Applicable(EmptyVersion(), SnapshotRecord(v).edit)
  {
    FilesBelowMembers(v, NUM_LEVELS);
    forall l | 0 <= l < NUM_LEVELS ensures DistinctNumbers(v.levels[l]) { LevelNumbersDistinct(v, l); }
    FilesBelowDistinct(v, NUM_LEVELS);
  }

  lemma {:induction false} SnapshotRebuilds(v: Version)
    requires Shaped(v)
    ensures Applicable(EmptyVersion(), SnapshotRecord(v).edit)
    ensures Next(EmptyVersion(), SnapshotRecord(v).edit) == v
  {
    var edit := SnapshotRecord(v).edit;
    SnapshotApplicable(v);
    NextEffect(EmptyVersion(), edit);
    var r := Next(EmptyVersion(), edit);
    forall l | 0 <= l < NUM_LEVELS
      ensures r.levels[l] == v.levels[l]
    {
      SnapshotFiles(v, l);
      assert forall f :: InNext(f, EmptyVersion(), edit, l) <==> f in v.levels[l];
      OrderedUnique(r.levels[l], v.levels[l]);
    }
    assert r.levels == v.levels;
  }

  lemma {:induction false} StepsCons(v: Version, r: Record, rs: seq<Record>)
    requires |v.levels| == NUM_LEVELS && EditOk(r.edit) && RecordsOk(rs)
    ensures Steps(v, [r] + rs) == Steps(Next(v, r.edit), rs)
  {
    var all := [r] + rs;
    var n := |rs| - 1;
    if rs == [] {
      assert all == [r] && all[..0] == [];
      assert Steps(v, all[..0]) == v;
    } else {
      assert all[..n + 1] == [r] + rs[..n] && all[n + 1] == rs[n];
      StepsCons(v, r, rs[..n]);
      assert Steps(v, all) == Next(Steps(v, all[..n + 1]), rs[n].edit);
    }
  }

  lemma {:induction false} SnapshotNumbersDiffer(v: Version, records: seq<Record>, j: nat, p: (nat, File),
                                                 q: (nat, File))
    requires |v.levels| == NUM_LEVELS && FreshNumbers(v, records) && j < |records|
    requires p in SnapshotRecord(v).edit.added && q in records[j].edit.added && p.0 == q.0
    ensures p.1.number != q.1.number
  {
    FilesBelowMembers(v, NUM_LEVELS);
    assert p == (p.0, p.1) && p.1 in v.levels[p.0];
    assert NewTo(v, records[j].edit.added);
    var k :| 0 <= k < |records[j].edit.added| && records[j].edit.added[k] == q;
  }

  lemma {:induction false} SnapshotFresh(v: Version, records: seq<Record>)
    requires Shaped(v) && FreshNumbers(v, records)
    ensures FreshNumbers(EmptyVersion(), [SnapshotRecord(v)] + records)
  {
    var all := [SnapshotRecord(v)] + records;
    SnapshotApplicable(v);
    SnapshotNeverReadded(v, records);
    forall i | 0 <= i < |all|
      ensures EditOk(all[i].edit) && NewTo(EmptyVersion(), all[i].edit.added) && NewAt(EmptyState(), all[i].edit.added)
    {
      if i > 0 {
        assert all[i] == records[i - 1];
      }
    }
  }

  lemma {:induction false} SnapshotNeverReadded(v: Version, records: seq<Record>)
    requires |v.levels| == NUM_LEVELS && FreshNumbers(v, records)
    ensures NeverReadded([SnapshotRecord(v)] + records)
  {
    forall j, p, q | 0 <= j < |records| && p in SnapshotRecord(v).edit.added && q in records[j].edit.added && p.0 == q.0
      ensures p.1.number != q.1.number
    {
      SnapshotNumbersDiffer(v, records, j, p, q);
    }
    ConsNeverReadded(SnapshotRecord(v), records);
  }

  lemma {:induction false} ConsNeverReadded(r: Record, records: seq<Record>)
    requires NeverReadded(records)
    requires forall j, p, q :: 0 <= j < |records| && p in r.edit.added && q in records[j].edit.added && p.0 == q.0 ==>
                                 p.1.number != q.1.number
    ensures NeverReadded([r] + records)
  {
    var all := [r] + records;
    forall i, j, p, q | 0 <= i < j < |all| && p in all[i].edit.added && q in all[j].edit.added && p.0 == q.0
      ensures p.1.number != q.1.number
    {
      assert all[j] == records[j - 1];
      if i > 0 {
        assert all[i] == records[i - 1];
      }
    }
  }

  // ----- recovery

  function LastOr(older: Option<nat>, newer: Option<nat>): Option<nat>
  {
    if newer.Some? then newer else older
  }

  /** The counters after reading some records: each is what the last record that had it said. */
  function Counters(records: seq<Record>): (Option<nat>, Option<nat>, Option<nat>, Option<nat>)
  {
    if records == [] then (None, None, None, None)
    else
      var n := |records| - 1;
      var c, r := Counters(records[..n]), records[n];
      (LastOr(c.0, r.logNumber), LastOr(c.1, r.prevLogNumber), LastOr(c.2, r.nextFile), LastOr(c.3, r.lastSequence))
  }

  /** `VersionSet::Recover`: one builder over all records, then the completeness checks. */
  method Recover(records: seq<Record>) returns (r: Recovery)
    requires RecordsOk(records)
    ensures var (log, prev, next, last) := Counters(records);
            r == if next.None? || log.None? || last.None? then Corruption
                 else Recovered(Save(EmptyVersion(), Through(EmptyState(), records)), log.value,
                                if prev.Some? then prev.value else 0, next.value + 1, last.value)
  {
    var log, prev, next, last: Option<nat> := None, None, None, None;
    var builder := new Builder(EmptyVersion());
    for i := 0 to |records|
      invariant builder.Valid() && builder.base == EmptyVersion()
      invariant builder.levels == Through(EmptyState(), records[..i])
      invariant (log, prev, next, last) == Counters(records[..i])
    {
      assert records[..i + 1][..i] == records[..i];
      builder.Apply(records[i].edit);
      log := LastOr(log, records[i].logNumber);
      prev := LastOr(prev, records[i].prevLogNumber);
      next := LastOr(next, records[i].nextFile);
      last := LastOr(last, records[i].lastSequence);
    }
    assert records[..|records|] == records;
    if next.None? || log.None? || last.None? {
      return Corruption;
    }
    var v := builder.SaveTo();
    r := Recovered(v, log.value, if prev.Some? then prev.value else 0, next.value + 1, last.value);
  }

  /** The record `LogAndApply` writes carries every counter. */
  predicate Full(r: Record)
  {
    r.logNumber.Some? && r.prevLogNumber.Some? && r.nextFile.Some? && r.lastSequence.Some?
  }

  /** Recovering a MANIFEST that starts with a snapshot of `v` and continues with logged
      edits yields the version those edits led to, with the counters of the last record. */
  lemma {:induction false} FreshManifestRecovers(v: Version, logged: seq<Record>)
    requires Shaped(v) && FreshNumbers(v, logged) && |logged| > 0 && Full(logged[|logged| - 1])
    ensures var records, r := [SnapshotRecord(v)] + logged, logged[|logged| - 1];
            && RecordsOk(records)
            && Save(EmptyVersion(), Through(EmptyState(), records)) == Steps(v, logged)
            && Counters(records) == (r.logNumber, r.prevLogNumber, r.nextFile, r.lastSequence)
  {
    SnapshotRebuilds(v);
    SnapshotFresh(v, logged);
    ReplayEqualsSteps(EmptyVersion(), [SnapshotRecord(v)] + logged);
    StepsCons(EmptyVersion(), SnapshotRecord(v), logged);
  }
}
