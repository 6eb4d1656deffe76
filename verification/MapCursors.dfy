/** What a user of the iterator sees: a cursor on the sorted map from user keys to the values
    they read as at the snapshot, under any sequence of moves. */
module MapCursors {
  import opened DbIter
  import opened Ordering
  import opened Wrappers

  datatype Move = First | Last | To(target: UserKey) | Forward | Back

  /** The cursor is on the least key of the map among those from `lo` on, or past it if the bound
      is strict; on none if there is no such key. */
  ghost predicate IsLeastFrom(m: map<UserKey, Val>, lo: Option<UserKey>, strict: bool, to: Option<UserKey>)
  {
    && (to.Some? ==> to.value in m && Beyond(lo, strict, to.value))
    && forall u :: Beyond(lo, strict, u) && (to.Some? ==> u < to.value) ==> u !in m
  }

  predicate Beyond(lo: Option<UserKey>, strict: bool, u: UserKey)
  {
    lo.Some? ==> lo.value < u || (!strict && lo.value == u)
  }

  /** The cursor is on the greatest key of the map below `hi`; on none if there is none. */
  ghost predicate IsGreatestBelow(m: map<UserKey, Val>, hi: Option<UserKey>, to: Option<UserKey>)
  {
    && (to.Some? ==> to.value in m && (hi.Some? ==> to.value < hi.value))
    && forall u :: (hi.Some? ==> u < hi.value) && (to.Some? ==> to.value < u) ==> u !in m
  }

  /** One move of a cursor on the map. Stepping is asked only of a cursor on a key. */
  ghost predicate Moves(m: map<UserKey, Val>, from: Option<UserKey>, move: Move, to: Option<UserKey>)
  {
    match move
    case First => IsLeastFrom(m, None, false, to)
    case Last => IsGreatestBelow(m, None, to)
    case To(target) => IsLeastFrom(m, Some(target), false, to)
    case Forward => if from.Some? then IsLeastFrom(m, from, true, to) else to.None?
    case Back => if from.Some? then IsGreatestBelow(m, from, to) else to.None?
  }

  /** The map determines where each move leads. */
  lemma {:induction false} MovesDetermined(m: map<UserKey, Val>, from: Option<UserKey>, move: Move,
                                           a: Option<UserKey>, b: Option<UserKey>)
    requires Moves(m, from, move, a) && Moves(m, from, move, b)
    ensures a == b
  {
    if a.Some? { var u: UserKey := a.value; assert u in m; }
    if b.Some? { var u: UserKey := b.value; assert u in m; }
  }

  function KeysShown(shown: seq<Option<(UserKey, Val)>>, i: nat): Option<UserKey>
    requires i <= |shown|
  {
    if i == 0 || shown[i - 1].None? then None else Some(shown[i - 1].value.0)
  }

  /** What move number `i` led to and what was shown there. */
  ghost predicate Follows(m: map<UserKey, Val>, moves: seq<Move>, shown: seq<Option<(UserKey, Val)>>, i: nat)
    requires i < |shown| && i < |moves|
  {
    && Moves(m, KeysShown(shown, i), moves[i], KeysShown(shown, i + 1))
    && (shown[i].Some? ==> Lookup(m, shown[i].value.0) == Some(shown[i].value.1))
  }

  /** One move of the iterator, in whichever direction it went before. */
  method Step(it: DBIter, move: Move, ghost i: nat) returns (ghost k: nat)
    requires it.Stands(i) && UniqueSeqs(SetOf(it.entries))
    modifies it
    ensures it.Stands(k)
    ensures Moves(MapAt(SetOf(it.entries), it.sequence), KeyAt(it.entries, i), move, KeyAt(it.entries, k))
  {
    hide Moves, UniqueSeqs, Shown, View, MapAt;
    match move {
      case First =>
        k := it.SeekToFirst();
        FirstMoves(it.entries, it.sequence, KeyAt(it.entries, i), k);
      case Last =>
        k := it.SeekToLast();
        LastMoves(it.entries, it.sequence, KeyAt(it.entries, i), k);
      case To(target) =>
        k := it.Seek(target);
        SeekMoves(it.entries, it.sequence, KeyAt(it.entries, i), target, k);
      case Forward =>
        k := i;
        if it.valid {
          k := it.Next(i);
          ForwardMoves(it.entries, it.sequence, i, k);
        } else {
          StaysOut(it.entries, it.sequence, i);
        }
      case Back =>
        k := i;
        if it.valid {
          k := it.Prev(i);
          BackMoves(it.entries, it.sequence, i, k);
        } else {
          StaysOut(it.entries, it.sequence, i);
        }
    }
  }

  lemma {:induction false} StaysOut(es: seq<Entry>, s: nat, i: nat)
    requires i >= |es|
    ensures Moves(MapAt(SetOf(es), s), KeyAt(es, i), Forward, KeyAt(es, i))
    ensures Moves(MapAt(SetOf(es), s), KeyAt(es, i), Back, KeyAt(es, i))
  {
  }

  /** Any sequence of moves shows what a cursor on the map shows. */
  method Drive(entries: seq<Entry>, sequence: nat, moves: seq<Move>) returns (shown: seq<Option<(UserKey, Val)>>)
    requires Sorted(entries) && UniqueSeqs(SetOf(entries))
    ensures |shown| == |moves|
    ensures forall i :: 0 <= i < |moves| ==> Follows(MapAt(SetOf(entries), sequence), moves, shown, i)
  {
    hide UniqueSeqs, MapAt;
    var it := new DBIter(entries, sequence);
    ghost var k: nat := |entries|;
    shown := [];
    for n := 0 to |moves|
      invariant it.entries == entries && it.sequence == sequence && it.Stands(k)
      invariant |shown| == n && KeysShown(shown, n) == KeyAt(entries, k)
      invariant forall i :: 0 <= i < n ==> Follows(MapAt(SetOf(entries), sequence), moves, shown, i)
    {
      ghost var was := shown;
      k := Step(it, moves[n], k);
      var now := Current(it, k);
      shown := shown + [now];
      ShownMore(MapAt(SetOf(entries), sequence), moves, was, now);
    }
  }

  method Current(it: DBIter, ghost k: nat) returns (now: Option<(UserKey, Val)>)
    requires it.Stands(k) && UniqueSeqs(SetOf(it.entries))
    ensures now.Some? <==> k < |it.entries|
    ensures now.Some? ==>
            now.value.0 == it.entries[k].key.user
                && Lookup(MapAt(SetOf(it.entries), it.sequence), now.value.0) == Some(now.value.1)
  {
    now := None;
    if it.valid {
      assert it.At(k);
      ShownIsView(it.entries, it.sequence, k);
      now := Some((it.Key(), it.Value()));
    }
  }

  lemma {:induction false} ShownMore(m: map<UserKey, Val>, moves: seq<Move>, was: seq<Option<(UserKey, Val)>>,
                                     now: Option<(UserKey, Val)>)
    requires |was| < |moves| && forall i :: 0 <= i < |was| ==> Follows(m, moves, was, i)
    requires Moves(m, KeysShown(was, |was|), moves[|was|], if now.None? then None else Some(now.value.0))
    requires now.Some? ==> Lookup(m, now.value.0) == Some(now.value.1)
    ensures forall i :: 0 <= i <= |was| ==> Follows(m, moves, was + [now], i)
  {
    hide Moves, Lookup;
    var more := was + [now];
    forall i | 0 <= i <= |was| ensures Follows(m, moves, more, i) {
      assert i < |was| ==> Follows(m, moves, was, i);
      assert KeysShown(more, i) == KeysShown(was, i);
      assert i < |was| ==> KeysShown(more, i + 1) == KeysShown(was, i + 1);
    }
  }

  // ----- moves of the iterator are moves of the cursor

  lemma {:induction false} FirstMoves(es: seq<Entry>, s: nat, from: Option<UserKey>, k: nat)
    requires Sorted(es) && UniqueSeqs(SetOf(es)) && FirstShown(es, s, 0, k)
    ensures Moves(MapAt(SetOf(es), s), from, First, KeyAt(es, k))
  {
    hide MapAt, Lookup, View, UniqueSeqs, SetOf;
    var last := SomeLast(es, s);
    EndsAreEndKeys(es, s, k, last);
    if k < |es| { ShownIsView(es, s, k); }
    assert forall u :: (k < |es| ==> u < es[k].key.user) ==> View(SetOf(es), u, s) == None;
  }

  lemma {:induction false} LastMoves(es: seq<Entry>, s: nat, from: Option<UserKey>, k: nat)
    requires Sorted(es) && UniqueSeqs(SetOf(es)) && LastShown(es, s, |es|, k)
    ensures Moves(MapAt(SetOf(es), s), from, Last, KeyAt(es, k))
  {
    hide MapAt, Lookup, View, UniqueSeqs, SetOf;
    var first := SomeFirst(es, s, 0);
    EndsAreEndKeys(es, s, first, k);
    if k < |es| { ShownIsView(es, s, k); }
    assert forall u :: (k < |es| ==> es[k].key.user < u) ==> View(SetOf(es), u, s) == None;
  }

  lemma {:induction false} SomeFirst(es: seq<Entry>, s: nat, lo: nat) returns (i: nat)
    requires lo <= |es|
    ensures FirstShown(es, s, lo, i)
    decreases |es| - lo
  {
    if lo == |es| || Shown(es, s, lo) {
      i := lo;
    } else {
      i := SomeFirst(es, s, lo + 1);
    }
  }

  lemma {:induction false} SomeLast(es: seq<Entry>, s: nat) returns (i: nat)
    ensures LastShown(es, s, |es|, i)
  {
    i := LastFrom(es, s, |es|);
  }

  lemma {:induction false} LastFrom(es: seq<Entry>, s: nat, hi: nat) returns (i: nat)
    requires hi <= |es|
    ensures LastShown(es, s, hi, i)
  {
    if hi == 0 {
      i := |es|;
    } else if Shown(es, s, hi - 1) {
      i := hi - 1;
    } else {
      i := LastFrom(es, s, hi - 1);
    }
  }

  lemma {:induction false} SeekMoves(es: seq<Entry>, s: nat, from: Option<UserKey>, target: UserKey, k: nat)
    requires Sorted(es) && UniqueSeqs(SetOf(es)) && k <= |es|
    requires (k < |es| ==> Shown(es, s, k) && target <= es[k].key.user)
    requires forall j :: 0 <= j < k && Shown(es, s, j) ==> es[j].key.user < target
    ensures Moves(MapAt(SetOf(es), s), from, To(target), KeyAt(es, k))
  {
    hide UniqueSeqs, View, Shown, MapAt, Lookup, SetOf, Sorted, FirstShown, LastShown;
    SeekIsSeekKey(es, s, target, k);
    assert forall u :: target <= u && (k < |es| ==> u < es[k].key.user) ==> View(SetOf(es), u, s) == None;
  }

  lemma {:induction false} ForwardMoves(es: seq<Entry>, s: nat, i: nat, k: nat)
    requires Sorted(es) && UniqueSeqs(SetOf(es)) && i < |es| && Shown(es, s, i) && FirstShown(es, s, i + 1, k)
    ensures Moves(MapAt(SetOf(es), s), KeyAt(es, i), Forward, KeyAt(es, k))
  {
    hide UniqueSeqs, View, Shown, MapAt, Lookup, SetOf, Sorted, FirstShown, LastShown;
    NextIsNextKey(es, s, i, k);
    assert forall u :: es[i].key.user < u && (k < |es| ==> u < es[k].key.user) ==> View(SetOf(es), u, s) == None;
  }

  lemma {:induction false} BackMoves(es: seq<Entry>, s: nat, i: nat, k: nat)
    requires Sorted(es) && UniqueSeqs(SetOf(es)) && i < |es| && Shown(es, s, i) && LastShown(es, s, i, k)
    ensures Moves(MapAt(SetOf(es), s), KeyAt(es, i), Back, KeyAt(es, k))
  {
    hide UniqueSeqs, View, Shown, MapAt, Lookup, SetOf, Sorted, FirstShown, LastShown;
    PrevIsPrevKey(es, s, i, k);
    assert forall u :: u < es[i].key.user && (k < |es| ==> es[k].key.user < u) ==> View(SetOf(es), u, s) == None;
  }
}
