/** The merging iterator: children over sorted runs with pairwise distinct keys, walked in
    both directions, are one cursor over the merged run. */
module Merging {
  import opened Ordering

  /** `all` is the sorted run of everything in the lists, which share no key. */
  ghost predicate Merged(lists: seq<seq<Entry>>, all: seq<Entry>)
  {
    && Sorted(all)
    && (forall i :: 0 <= i < |lists| ==> Sorted(lists[i]))
    && (forall i, j :: 0 <= i < |lists| && 0 <= j < |lists[i]| ==> lists[i][j] in all)
    && (forall k :: 0 <= k < |all| ==> InSome(lists, all[k]))
    && (forall i, j, x, y ::
          0 <= i < |lists| && 0 <= j < |lists| && 0 <= x < |lists[i]| && 0 <= y < |lists[j]| ==>
            lists[i][x].key == lists[j][y].key ==> i == j && x == y)
  }

  ghost predicate InSome(lists: seq<seq<Entry>>, e: Entry)
  {
    exists i :: 0 <= i < |lists| && e in lists[i]
  }

  /** The first `cut[i]` entries of each list make up the first `k` of the merged run. */
  ghost predicate Split(lists: seq<seq<Entry>>, cut: seq<nat>, all: seq<Entry>, k: nat)
    requires k <= |all|
  {
    && |cut| == |lists|
    && (forall i :: 0 <= i < |lists| ==> cut[i] <= |lists[i]|)
    && (forall i, j :: 0 <= i < |lists| && 0 <= j < |lists[i]| ==> (j < cut[i] <==> lists[i][j] in all[..k]))
  }

  lemma {:induction false} PlaceOf(all: seq<Entry>, e: Entry) returns (m: nat)
    requires e in all
    ensures m < |all| && all[m] == e
  {
    m :| 0 <= m < |all| && all[m] == e;
  }

  /** In a sorted run, being among the first `k` is being less than the entry at `k`. */
  lemma {:induction false} FirstAreLess(all: seq<Entry>, k: nat, e: Entry)
    requires Sorted(all) && k < |all| && e in all
    ensures e in all[..k] <==> Less(e.key, all[k].key)
  {
    var m := PlaceOf(all, e);
    if m < k {
      assert all[..k][m] == e && Less(all[m].key, all[k].key);
    } else {
      if m > k { assert Less(all[k].key, all[m].key); }
      if e in all[..k] {
        var x := PlaceOf(all[..k], e);
        assert Less(all[x].key, all[m].key);
      }
    }
  }

  /** The smallest of the lists' next entries is the next entry of the merged run. */
  lemma {:induction false} SmallestIsNext(lists: seq<seq<Entry>>, cut: seq<nat>, all: seq<Entry>, k: nat, c: nat)
    requires Merged(lists, all) && k <= |all| && Split(lists, cut, all, k) && c < |lists| && cut[c] < |lists[c]|
    requires forall i :: 0 <= i < |lists| && cut[i] < |lists[i]| ==> !Less(lists[i][cut[i]].key, lists[c][cut[c]].key)
    ensures k < |all| && lists[c][cut[c]] == all[k]
  {
    hide Merged;
    var e := lists[c][cut[c]];
    MergedMember(lists, all, c, cut[c]);
    assert all[..|all|] == all;
    var i := NextHead(lists, cut, all, k);
    MergedSorted(lists, all);
    FirstAreLess(all, k, e);
    Trichotomy(all, k, e);
  }

  lemma {:induction false} Trichotomy(all: seq<Entry>, k: nat, e: Entry)
    requires Sorted(all) && k < |all| && e in all
    ensures e == all[k] || Less(e.key, all[k].key) || Less(all[k].key, e.key)
  {
    var m := PlaceOf(all, e);
  }

  lemma {:induction false} MergedMember(lists: seq<seq<Entry>>, all: seq<Entry>, i: nat, j: nat)
    requires Merged(lists, all) && i < |lists| && j < |lists[i]|
    ensures lists[i][j] in all
  {
  }

  lemma {:induction false} MergedSorted(lists: seq<seq<Entry>>, all: seq<Entry>)
    requires Merged(lists, all)
    ensures Sorted(all)
  {
  }

  /** Some list's next entry is the merged run's next entry. */
  lemma {:induction false} NextHead(lists: seq<seq<Entry>>, cut: seq<nat>, all: seq<Entry>, k: nat) returns (i: nat)
    requires Merged(lists, all) && k < |all| && Split(lists, cut, all, k)
    ensures i < |lists| && cut[i] < |lists[i]| && lists[i][cut[i]] == all[k]
  {
    assert InSome(lists, all[k]);
    i :| 0 <= i < |lists| && all[k] in lists[i];
    var j := PlaceOf(lists[i], all[k]);
    hide Merged;
    MergedSorted(lists, all);
    FirstAreLess(all, k, lists[i][j]);
    assert cut[i] <= j;
    MergedMember(lists, all, i, cut[i]);
    FirstAreLess(all, k, lists[i][cut[i]]);
    ListSorted(lists, all, i, cut[i], j);
  }

  lemma {:induction false} ListSorted(lists: seq<seq<Entry>>, all: seq<Entry>, i: nat, x: nat, y: nat)
    requires Merged(lists, all) && i < |lists| && x <= y < |lists[i]|
    ensures x == y || Less(lists[i][x].key, lists[i][y].key)
  {
  }

  /** The largest of the lists' last taken entries is the last of the first `k`. */
  lemma {:induction false} LargestIsLast(lists: seq<seq<Entry>>, cut: seq<nat>, all: seq<Entry>, k: nat, c: nat)
    requires Merged(lists, all) && k <= |all| && Split(lists, cut, all, k) && c < |lists| && cut[c] > 0
    requires forall i :: 0 <= i < |lists| && cut[i] > 0 ==> !Less(lists[c][cut[c] - 1].key, lists[i][cut[i] - 1].key)
    ensures k > 0 && lists[c][cut[c] - 1] == all[k - 1]
  {
    hide Merged;
    var e := lists[c][cut[c] - 1];
    assert e in all[..k];
    var i := LastTail(lists, cut, all, k);
    MergedSorted(lists, all);
    MergedMember(lists, all, c, cut[c] - 1);
    NotPastLast(all, k, e);
    Trichotomy(all, k - 1, e);
  }

  lemma {:induction false} NotPastLast(all: seq<Entry>, k: nat, e: Entry)
    requires Sorted(all) && 0 < k <= |all| && e in all
    ensures e in all[..k] <==> !Less(all[k - 1].key, e.key)
  {
    var m := PlaceOf(all, e);
    if m < k {
      assert all[..k][m] == e;
      if m < k - 1 { assert Less(all[m].key, all[k - 1].key); }
    } else {
      assert Less(all[k - 1].key, all[m].key);
    }
  }

  /** Some list's last taken entry is the last of the first `k`. */
  lemma {:induction false} LastTail(lists: seq<seq<Entry>>, cut: seq<nat>, all: seq<Entry>, k: nat) returns (i: nat)
    requires Merged(lists, all) && 0 < k <= |all| && Split(lists, cut, all, k)
    ensures i < |lists| && cut[i] > 0 && lists[i][cut[i] - 1] == all[k - 1]
  {
    assert InSome(lists, all[k - 1]);
    i :| 0 <= i < |lists| && all[k - 1] in lists[i];
    var j := PlaceOf(lists[i], all[k - 1]);
    hide Merged;
    MergedSorted(lists, all);
    NotPastLast(all, k, lists[i][j]);
    assert j < cut[i];
    MergedMember(lists, all, i, cut[i] - 1);
    NotPastLast(all, k, lists[i][cut[i] - 1]);
    ListSorted(lists, all, i, j, cut[i] - 1);
  }

  /** Only position `x` of list `c` holds entry `k` of the merged run. */
  lemma {:induction false} OnlyPlace(lists: seq<seq<Entry>>, all: seq<Entry>, k: nat, c: nat, x: nat, i: nat, j: nat)
    requires Merged(lists, all) && k < |all| && c < |lists| && x < |lists[c]| && lists[c][x] == all[k] && i < |lists|
    requires j < |lists[i]|
    ensures lists[i][j] in all[..k + 1] <==> lists[i][j] in all[..k] || (i == c && j == x)
    ensures i == c && j == x ==> lists[i][j] !in all[..k]
  {
    assert all[..k + 1] == all[..k] + [all[k]];
    FirstAreLess(all, k, all[k]);
  }

  /** Moving one child over the merged run's next entry, and back. */
  lemma {:induction false} TakeOne(lists: seq<seq<Entry>>, cut: seq<nat>, all: seq<Entry>, k: nat, c: nat)
    requires Merged(lists, all) && k < |all| && c < |lists| == |cut| && cut[c] < |lists[c]|
    requires lists[c][cut[c]] == all[k]
    ensures Split(lists, cut, all, k) <==> Split(lists, cut[c := cut[c] + 1], all, k + 1)
  {
    var cut' := cut[c := cut[c] + 1];
    hide Merged;
    forall i, j | 0 <= i < |lists| && 0 <= j < |lists[i]|
      ensures (j < cut[i] <==> lists[i][j] in all[..k]) <==> (j < cut'[i] <==> lists[i][j] in all[..k + 1])
    {
      OnlyPlace(lists, all, k, c, cut[c], i, j);
    }
  }

  /** Each child stands at its first entry that is not below the target. */
  ghost predicate CutAt(lists: seq<seq<Entry>>, cut: seq<nat>, target: InternalKey)
  {
    && |cut| == |lists|
    && (forall i :: 0 <= i < |lists| ==> cut[i] <= |lists[i]|)
    && (forall i, j :: 0 <= i < |lists| && 0 <= j < |lists[i]| ==> (j < cut[i] <==> Less(lists[i][j].key, target)))
  }

  lemma {:induction false} CutIsSplit(lists: seq<seq<Entry>>, cut: seq<nat>, all: seq<Entry>, target: InternalKey,
                                      k: nat)
    requires Merged(lists, all) && k <= |all| && CutAt(lists, cut, target)
    requires forall m :: 0 <= m < |all| ==> (m < k <==> Less(all[m].key, target))
    ensures Split(lists, cut, all, k)
  {
    hide Merged;
    forall i, j | 0 <= i < |lists| && 0 <= j < |lists[i]|
      ensures Less(lists[i][j].key, target) <==> lists[i][j] in all[..k]
    {
      MergedMember(lists, all, i, j);
      var m := PlaceOf(all, lists[i][j]);
      if m < k { assert all[..k][m] == lists[i][j]; }
    }
  }

  /** How many entries of a sorted run are below the target. */
  ghost function Below(all: seq<Entry>, target: InternalKey): (k: nat)
    requires Sorted(all)
    ensures k <= |all| && forall m :: 0 <= m < |all| ==> (m < k <==> Less(all[m].key, target))
  {
    if all == [] || !Less(all[|all| - 1].key, target) then
      if all == [] then 0
          else (assert forall m :: 0 <= m < |all| - 1 ==>
              Less(all[m].key, all[|all| - 1].key); Below(all[..|all| - 1], target))
    else |all|
  }

  // ----- the iterator

  /** A child's `Seek`: its first entry that is not below the target. */
  method ChildSeek(list: seq<Entry>, target: InternalKey) returns (p: nat)
    requires Sorted(list)
    ensures p <= |list| && forall j :: 0 <= j < |list| ==> (j < p <==> Less(list[j].key, target))
  {
    p := 0;
    while p < |list| && Less(list[p].key, target)
      invariant p <= |list| && forall j :: 0 <= j < p ==> Less(list[j].key, target)
    {
      p := p + 1;
    }
    assert p < |list| ==> forall j :: p < j < |list| ==> Less(list[p].key, list[j].key);
  }

  /** A child's `Prev`: before the first entry it is not valid. */
  function ChildPrev(list: seq<Entry>, p: nat): (q: nat)
    requires p < |list|
    ensures q <= |list| && Upto(list, q) == p
  {
    if p == 0 then |list| else p - 1
  }

  function ChildLast(list: seq<Entry>): (q: nat)
    ensures q <= |list| && Upto(list, q) == |list|
  {
    if list == [] then 0 else |list| - 1
  }

  /** A child that stands at `p` going backward has this many entries up to it. */
  function Upto(list: seq<Entry>, p: nat): nat
  {
    if p < |list| then p + 1 else 0
  }

  ghost function Cuts(lists: seq<seq<Entry>>, pos: seq<nat>): seq<nat>
    requires |pos| == |lists|
  {
    seq(|lists|, i requires 0 <= i < |lists| => Upto(lists[i], pos[i]))
  }

  class MergingIterator {
    const lists: seq<seq<Entry>>
    var pos: seq<nat>    // the children's positions; at the end of its list a child is not valid
    var current: int     // the child whose entry is shown, or -1
    var reverse: bool

    ghost predicate Valid()
      reads this
    {
      && |pos| == |lists|
      && (forall i :: 0 <= i < |lists| ==> pos[i] <= |lists[i]|)
      && -1 <= current < |lists|
      && (current >= 0 ==> pos[current] < |lists[current]|)
    }

    /** The iterator shows entry `k` of the merged run. */
    ghost predicate At(all: seq<Entry>, k: nat)
      reads this
    {
      && Valid() && current >= 0 && Merged(lists, all) && k < |all|
      && lists[current][pos[current]] == all[k]
      && (!reverse ==> Split(lists, pos, all, k))
      && (reverse ==> Split(lists, Cuts(lists, pos), all, k + 1))
    }

    /** It shows entry `k`, or nothing when `k` is the end. */
    ghost predicate Stands(all: seq<Entry>, k: nat)
      reads this
    {
      && Valid() && Merged(lists, all) && k <= |all|
      && (k < |all| ==> At(all, k))
      && (k == |all| ==> current == -1)
    }

    constructor (lists: seq<seq<Entry>>)
      ensures this.lists == lists && Valid() && current == -1
    {
      this.lists := lists;
      pos := seq(|lists|, i requires 0 <= i < |lists| => |lists[i]|);
      current, reverse := -1, false;
    }

    function Key(): (key: InternalKey)
      requires Valid() && current >= 0
      reads this
      ensures forall all: seq<Entry>, k: nat :: At(all, k) ==> key == all[k].key
    {
      lists[current][pos[current]].key
    }

    method FindSmallest(ghost all: seq<Entry>, ghost k: nat)
      requires |pos| == |lists| && Merged(lists, all) && k <= |all| && Split(lists, pos, all, k) && !reverse
      requires forall i :: 0 <= i < |lists| ==> pos[i] <= |lists[i]|
      modifies this`current
      ensures Stands(all, k)
    {
      hide Merged, Split;
      var smallest := -1;
      for i := 0 to |lists|
        invariant -1 <= smallest < i
        invariant smallest == -1 ==> forall j :: 0 <= j < i ==> pos[j] == |lists[j]|
        invariant smallest >= 0 ==> pos[smallest] < |lists[smallest]|
        invariant smallest >= 0 ==> forall j :: 0 <= j < i && pos[j] < |lists[j]| ==>
                  !Less(lists[j][pos[j]].key, lists[smallest][pos[smallest]].key)
      {
        if pos[i] < |lists[i]| {
          if smallest == -1 {
            smallest := i;
          } else if Less(lists[i][pos[i]].key, lists[smallest][pos[smallest]].key) {
            smallest := i;
          }
        }
      }
      current := smallest;
      if current >= 0 {
        SmallestIsNext(lists, pos, all, k, current);
      } else {
        AllTaken(lists, pos, all, k);
      }
    }

    method FindLargest(ghost all: seq<Entry>, ghost k: nat)
      requires |pos| == |lists| && Merged(lists, all) && k <= |all| && Split(lists, Cuts(lists, pos), all, k) && reverse
      requires forall i :: 0 <= i < |lists| ==> pos[i] <= |lists[i]|
      modifies this`current
      ensures Stands(all, if k == 0 then |all| else k - 1)
    {
      hide Merged, Split;
      var largest := -1;
      var i := |lists|;
      while i > 0
        invariant 0 <= i <= |lists| && (largest == -1 || i <= largest < |lists|)
        invariant largest == -1 ==> forall j :: i <= j < |lists| ==> pos[j] == |lists[j]|
        invariant largest >= 0 ==> pos[largest] < |lists[largest]|
        invariant largest >= 0 ==> forall j :: i <= j < |lists| && pos[j] < |lists[j]| ==>
                  !Less(lists[largest][pos[largest]].key, lists[j][pos[j]].key)
      {
        i := i - 1;
        if pos[i] < |lists[i]| {
          if largest == -1 {
            largest := i;
          } else if Less(lists[largest][pos[largest]].key, lists[i][pos[i]].key) {
            largest := i;
          }
        }
      }
      current := largest;
      if current >= 0 {
        LargestIsLast(lists, Cuts(lists, pos), all, k, current);
      } else {
        NoneTaken(lists, Cuts(lists, pos), all, k);
      }
    }

    /** Every child moves to its first entry not below the target. */
    method SeekChildren(target: InternalKey, ghost all: seq<Entry>)
      requires Merged(lists, all) && |pos| == |lists|
      modifies this`pos
      ensures CutAt(lists, pos, target)
    {
      for i := 0 to |lists|
        invariant |pos| == |lists|
        invariant forall x :: 0 <= x < i ==> pos[x] <= |lists[x]|
        invariant forall x, j :: 0 <= x < i && 0 <= j < |lists[x]| ==> (j < pos[x] <==> Less(lists[x][j].key, target))
      {
        var p := ChildSeek(lists[i], target);
        pos := pos[i := p];
      }
    }

    method Seek(target: InternalKey, ghost all: seq<Entry>)
      requires Valid() && Merged(lists, all)
      modifies this
      ensures Stands(all, Below(all, target))
    {
      SeekChildren(target, all);
      hide Merged, Split;
      MergedSorted(lists, all);
      CutIsSplit(lists, pos, all, target, Below(all, target));
      reverse := false;
      FindSmallest(all, Below(all, target));
    }

    method SeekToFirst(ghost all: seq<Entry>)
      requires Valid() && Merged(lists, all)
      modifies this
      ensures Stands(all, 0)
    {
      for i := 0 to |lists|
        invariant |pos| == |lists| && forall x :: 0 <= x < i ==> pos[x] == 0
      {
        pos := pos[i := 0];
      }
      assert Split(lists, pos, all, 0);
      reverse := false;
      FindSmallest(all, 0);
    }

    method SeekToLast(ghost all: seq<Entry>)
      requires Valid() && Merged(lists, all)
      modifies this
      ensures Stands(all, if |all| == 0 then 0 else |all| - 1)
    {
      for i := 0 to |lists|
        invariant |pos| == |lists| && forall x :: 0 <= x < i ==> pos[x] == ChildLast(lists[x])
      {
        pos := pos[i := ChildLast(lists[i])];
      }
      assert all[..|all|] == all;
      assert Split(lists, Cuts(lists, pos), all, |all|);
      reverse := true;
      FindLargest(all, |all|);
    }

    /** Going forward after going backward: the other children are put past the shown key. */
    method TurnForward(ghost all: seq<Entry>, ghost k: nat)
      requires At(all, k) && reverse
      modifies this`pos, this`reverse
      ensures At(all, k) && !reverse
    {
      hide Split;
      var key := Key();
      for i := 0 to |lists|
        invariant |pos| == |lists| && pos[current] == old(pos[current])
        invariant forall x :: 0 <= x < i && x != current ==> pos[x] <= |lists[x]|
        invariant forall x, j :: 0 <= x < i && x != current && 0 <= j < |lists[x]| ==>
                  (j < pos[x] <==> Less(lists[x][j].key, key))
      {
        if i != current {
          var p := ChildSeek(lists[i], key);
          if p < |lists[i]| && lists[i][p].key == key {
            assert false;  // children share no key
          }
          pos := pos[i := p];
        }
      }
      AtOwnKey(lists, all, current, pos[current]);
      reverse := false;
      assert CutAt(lists, pos, key);
      KeyCut(all, k);
      CutIsSplit(lists, pos, all, key, k);
    }

    /** Going backward after going forward: the other children are put before the shown key. */
    method TurnBackward(ghost all: seq<Entry>, ghost k: nat) returns (ghost cut: seq<nat>)
      requires At(all, k) && !reverse
      modifies this`pos, this`reverse
      ensures Valid() && reverse && |cut| == |lists| && Split(lists, cut, all, k)
      ensures pos[current] == cut[current] == old(pos[current])
      ensures forall x :: 0 <= x < |lists| && x != current ==> Upto(lists[x], pos[x]) == cut[x]
    {
      var key := Key();
      cut := pos;
      ghost var before := pos;
      for i := 0 to |lists|
        invariant |pos| == |lists| && pos[current] == before[current] && cut == before
        invariant forall x :: 0 <= x < i && x != current ==> pos[x] <= |lists[x]| && Upto(lists[x], pos[x]) == cut[x]
      {
        if i != current {
          var p := ChildSeek(lists[i], key);
          SeekIsCut(lists, before, all, k, i, p);
          if p < |lists[i]| {
            p := ChildPrev(lists[i], p);
          } else {
            p := ChildLast(lists[i]);
          }
          pos := pos[i := p];
        }
      }
      reverse := true;
    }

    method Next(ghost all: seq<Entry>, ghost k: nat)
      requires At(all, k)
      modifies this
      ensures Stands(all, k + 1)
    {
      hide Merged, Split;
      if reverse {
        TurnForward(all, k);
      }
      TakeOne(lists, pos, all, k, current);
      SplitBounds(lists, pos[current := pos[current] + 1], all, k + 1);
      pos := pos[current := pos[current] + 1];
      FindSmallest(all, k + 1);
    }

    method Prev(ghost all: seq<Entry>, ghost k: nat)
      requires At(all, k)
      modifies this
      ensures Stands(all, if k == 0 then |all| else k - 1)
    {
      ghost var cut;
      if !reverse {
        cut := TurnBackward(all, k);
      } else {
        cut := Cuts(lists, pos)[current := pos[current]];
        assert cut[current := cut[current] + 1] == Cuts(lists, pos);
        TakeOne(lists, cut, all, k, current);
      }
      hide Merged, Split;
      pos := pos[current := ChildPrev(lists[current], pos[current])];
      assert Cuts(lists, pos) == cut;
      FindLargest(all, k);
    }
  }

  lemma {:induction false} SplitBounds(lists: seq<seq<Entry>>, cut: seq<nat>, all: seq<Entry>, k: nat)
    requires k <= |all| && Split(lists, cut, all, k)
    ensures |cut| == |lists| && forall i :: 0 <= i < |lists| ==> cut[i] <= |lists[i]|
  {
  }

  lemma {:induction false} AtOwnKey(lists: seq<seq<Entry>>, all: seq<Entry>, c: nat, p: nat)
    requires Merged(lists, all) && c < |lists| && p < |lists[c]|
    ensures forall j :: 0 <= j < |lists[c]| ==> (j < p <==> Less(lists[c][j].key, lists[c][p].key))
  {
  }

  lemma {:induction false} KeyCut(all: seq<Entry>, k: nat)
    requires Sorted(all) && k < |all|
    ensures forall m :: 0 <= m < |all| ==> (m < k <==> Less(all[m].key, all[k].key))
  {
  }

  /** Seeking the shown key puts a child exactly where the forward cut has it. */
  lemma {:induction false} SeekIsCut(lists: seq<seq<Entry>>, cut: seq<nat>, all: seq<Entry>, k: nat, i: nat, p: nat)
    requires Merged(lists, all) && k < |all| && Split(lists, cut, all, k) && i < |lists| && p <= |lists[i]|
    requires forall j :: 0 <= j < |lists[i]| ==> (j < p <==> Less(lists[i][j].key, all[k].key))
    ensures cut[i] == p
  {
    if p < |lists[i]| { TakenAreLess(lists, cut, all, k, i, p); }
    if cut[i] < |lists[i]| { TakenAreLess(lists, cut, all, k, i, cut[i]); }
  }

  lemma {:induction false} TakenAreLess(lists: seq<seq<Entry>>, cut: seq<nat>, all: seq<Entry>, k: nat, i: nat, j: nat)
    requires Merged(lists, all) && k < |all| && Split(lists, cut, all, k) && i < |lists| && j < |lists[i]|
    ensures j < cut[i] <==> Less(lists[i][j].key, all[k].key)
  {
    hide Merged;
    MergedSorted(lists, all);
    MergedMember(lists, all, i, j);
    FirstAreLess(all, k, lists[i][j]);
  }

  lemma {:induction false} AllTaken(lists: seq<seq<Entry>>, cut: seq<nat>, all: seq<Entry>, k: nat)
    requires Merged(lists, all) && k <= |all| && Split(lists, cut, all, k)
    requires forall i :: 0 <= i < |lists| ==> cut[i] == |lists[i]|
    ensures k == |all|
  {
    if k < |all| {
      var i := NextHead(lists, cut, all, k);
      assert false;
    }
  }

  lemma {:induction false} NoneTaken(lists: seq<seq<Entry>>, cut: seq<nat>, all: seq<Entry>, k: nat)
    requires Merged(lists, all) && k <= |all| && Split(lists, cut, all, k)
    requires forall i :: 0 <= i < |lists| ==> cut[i] == 0
    ensures k == 0
  {
    if k > 0 {
      var i := LastTail(lists, cut, all, k);
      assert false;
    }
  }
}
