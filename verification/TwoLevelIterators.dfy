/** The two-level iterator: an index iterator whose values name data blocks, and an iterator
    over the block named last. It is one cursor over all the blocks' entries. */
module TwoLevelIterators {
  import opened Ordering
  import Levels
  import Keys
  import opened Separators
  import opened Tables
  import opened Wrappers

  /** Entries up to block `i` are not above its index key, those of later blocks are. */
  ghost predicate IndexOk(blocks: seq<seq<Entry>>, index: seq<InternalKey>)
  {
    && |index| == |blocks| && Sorted(Flatten(blocks))
    && (forall i, e :: 0 <= i < |blocks| && e in blocks[i] ==> AtMost(e.key, index[i]))
    && (forall i, j, e :: 0 <= i < j < |blocks| && e in blocks[j] ==> Less(index[i], e.key))
  }

  class TwoLevelIterator {
    const blocks: seq<seq<Entry>>
    const index: seq<InternalKey>
    var at: nat                 // the index iterator; at the end it is not valid
    var data: Option<nat>       // the block the data iterator is over
    var pos: nat                // the data iterator's position; at the block's end it is not valid

    ghost predicate Valid()
      reads this
    {
      && |index| == |blocks| && at <= |blocks|
      && (data.Some? ==> data.value == at < |blocks| && pos <= |blocks[at]|)
    }

    predicate Shows()
      reads this
    {
      data.Some? && data.value < |blocks| && pos < |blocks[data.value]|
    }

    /** The iterator shows entry `k` of all, or nothing when `k` is their number. */
    ghost predicate Stands(k: nat)
      reads this
    {
      && Valid() && k <= |Flatten(blocks)|
      && (k < |Flatten(blocks)| ==> Shows() && k == Size(blocks, at) + pos)
      && (k == |Flatten(blocks)| ==> !Shows())
    }

    constructor (blocks: seq<seq<Entry>>, index: seq<InternalKey>)
      requires |index| == |blocks|
      ensures this.blocks == blocks && this.index == index && Valid() && !Shows()
    {
      this.blocks, this.index := blocks, index;
      at, data, pos := |blocks|, None, 0;
    }

    /** A new block is read unless the data iterator is over it already. */
    method InitDataBlock()
      requires |index| == |blocks| && at <= |blocks|
      requires (data.Some? ==> data.value < |blocks| && pos <= |blocks[data.value]|)
      modifies this`data, this`pos
      ensures Valid() && (data.Some? <==> at < |blocks|)
    {
      if at == |blocks| {
        data := None;
      } else if data == Some(at) {
      } else {
        data, pos := Some(at), |blocks[at]|;
      }
    }

    /** Past exhausted blocks, to the first entry that is left. */
    method SkipForward(ghost k: nat)
      requires Valid() && k <= |Flatten(blocks)|
      requires (if data.Some? then k == Size(blocks, at) + pos else at == |blocks| && k == |Flatten(blocks)|)
      modifies this
      ensures Stands(k)
    {
      hide Flatten, Size;
      while !Shows()
        invariant Valid()
        invariant (if data.Some? then k == Size(blocks, at) + pos else at == |blocks| && k == |Flatten(blocks)|)
        decreases |blocks| - at, data.Some?
      {
        if at == |blocks| {
          data := None;
          break;
        }
        BlockPlace(blocks, at);
        WholeSize(blocks);
        at := at + 1;
        InitDataBlock();
        if data.Some? {
          pos := 0;
        }
      }
      if Shows() { RowAt(blocks, at, pos); }
    }

    /** Back past exhausted blocks, to the last of the first `k` entries. */
    method SkipBackward(ghost k: nat)
      requires Valid() && k <= |Flatten(blocks)|
      requires if Shows() then k == Size(blocks, at) + pos + 1 else if at < |blocks| then k == Size(blocks, at)
               else k == 0
      modifies this
      ensures Stands(if k == 0 then |Flatten(blocks)| else k - 1)
    {
      hide Flatten, Size;
      NoSize(blocks);
      while !Shows()
        invariant Valid()
        invariant if Shows() then k == Size(blocks, at) + pos + 1 else if at < |blocks| then k == Size(blocks, at)
                  else k == 0
        decreases if at < |blocks| then at + 1 else 0, !Shows()
      {
        if at == |blocks| {
          data := None;
          break;
        }
        at := if at == 0 then |blocks| else at - 1;
        InitDataBlock();
        if data.Some? {
          BlockPlace(blocks, at);
          pos := if |blocks[at]| == 0 then 0 else |blocks[at]| - 1;
        }
      }
      if Shows() { RowAt(blocks, at, pos); }
    }

    method SeekToFirst()
      requires Valid()
      modifies this
      ensures Stands(0)
    {
      hide Flatten, Size;
      NoSize(blocks);
      WholeSize(blocks);
      at := 0;
      InitDataBlock();
      if data.Some? {
        pos := 0;
      }
      SkipForward(0);
    }

    method SeekToLast()
      requires Valid()
      modifies this
      ensures Stands(if |Flatten(blocks)| == 0 then 0 else |Flatten(blocks)| - 1)
    {
      hide Flatten, Size;
      NoSize(blocks);
      WholeSize(blocks);
      at := if |blocks| == 0 then 0 else |blocks| - 1;
      InitDataBlock();
      if data.Some? {
        BlockPlace(blocks, at);
        pos := if |blocks[at]| == 0 then 0 else |blocks[at]| - 1;
      }
      SkipBackward(|Flatten(blocks)|);
    }

    method Next(ghost k: nat)
      requires Stands(k) && k < |Flatten(blocks)|
      modifies this
      ensures Stands(k + 1)
    {
      pos := pos + 1;
      SkipForward(k + 1);
    }

    method Prev(ghost k: nat)
      requires Stands(k) && k < |Flatten(blocks)|
      modifies this
      ensures Stands(if k == 0 then |Flatten(blocks)| else k - 1)
    {
      pos := if pos == 0 then |blocks[at]| else pos - 1;
      SkipBackward(k);
    }

    method Seek(target: InternalKey)
      requires Valid() && IndexOk(blocks, index)
      modifies this
      ensures Stands(Levels.Seek(Flatten(blocks), target))
    {
      hide Flatten, Size, IndexOk;
      var i := 0;
      while i < |index| && Less(index[i], target)
        invariant i <= |index| && forall j :: 0 <= j < i ==> Less(index[j], target)
      {
        i := i + 1;
      }
      SeekPlace(blocks, index, target, i);
      at := i;
      InitDataBlock();
      if data.Some? {
        pos := Levels.Seek(blocks[at], target);
      }
      SkipForward(Levels.Seek(Flatten(blocks), target));
    }
  }

  /** Every entry of the flattened blocks is in some block. */
  lemma {:induction false} Locate(blocks: seq<seq<Entry>>, j: nat) returns (b: nat, x: nat)
    requires j < |Flatten(blocks)|
    ensures b < |blocks| && x < |blocks[b]| && j == Size(blocks, b) + x && Flatten(blocks)[j] == blocks[b][x]
    decreases |blocks|
  {
    var n := |blocks| - 1;
    var front := Flatten(blocks[..n]);
    if j < |front| {
      b, x := Locate(blocks[..n], j);
      assert blocks[..n][..b] == blocks[..b];
    } else {
      b, x := n, j - |front|;
    }
  }

  lemma {:induction false} SizeMonotone<T>(blocks: seq<seq<T>>, i: nat, j: nat)
    requires i <= j <= |blocks|
    ensures Size(blocks, i) <= Size(blocks, j)
    decreases j
  {
    if i < j {
      BlockPlace(blocks, j - 1);
      SizeMonotone(blocks, i, j - 1);
    }
  }

  /** The block that the index names for a target holds the target's place. */
  lemma {:induction false} SeekPlace(blocks: seq<seq<Entry>>, index: seq<InternalKey>, target: InternalKey, i: nat)
    requires IndexOk(blocks, index) && i <= |index| && (forall j :: 0 <= j < i ==> Less(index[j], target))
    requires (i < |index| ==> !Less(index[i], target))
    ensures |index| == |blocks| && Levels.Seek(Flatten(blocks), target) <= |Flatten(blocks)|
    ensures Levels.Seek(Flatten(blocks), target) == if i < |blocks|
            then Size(blocks, i) + Levels.Seek(blocks[i], target) else |Flatten(blocks)|
  {
    var all := Flatten(blocks);
    WholeSize(blocks);
    if i < |blocks| { BlockPlace(blocks, i); }
    var p := if i < |blocks| then Size(blocks, i) + Levels.Seek(blocks[i], target) else |all|;
    hide Flatten, Size;
    forall j | 0 <= j < p ensures Less(all[j].key, target) {
      PlaceBelow(blocks, index, target, i, j);
    }
    if p < |all| {
      PlaceNotBelow(blocks, index, target, i, p);
    }
    SeekIs(all, target, p);
  }

  lemma {:induction false} PlaceBelow(blocks: seq<seq<Entry>>, index: seq<InternalKey>, target: InternalKey, i: nat,
                                      j: nat)
    requires IndexOk(blocks, index) && i <= |index| && (forall x :: 0 <= x < i ==> Less(index[x], target))
    requires j < |Flatten(blocks)|
    requires i < |blocks| ==> j < Size(blocks, i) + Levels.Seek(blocks[i], target)
    ensures Less(Flatten(blocks)[j].key, target)
  {
    hide Flatten, Size;
    var b, x := Locate(blocks, j);
    assert blocks[b][x] in blocks[b];
    if i < b {
      BlockPlace(blocks, i);
      SizeMonotone(blocks, i + 1, b);
    }
  }

  lemma {:induction false} PlaceNotBelow(blocks: seq<seq<Entry>>, index: seq<InternalKey>, target: InternalKey, i: nat,
                                         p: nat)
    requires IndexOk(blocks, index) && i < |blocks| && !Less(index[i], target) && p < |Flatten(blocks)|
    requires p == Size(blocks, i) + Levels.Seek(blocks[i], target)
    ensures !Less(Flatten(blocks)[p].key, target)
  {
    hide Flatten, Size;
    var b, x := Locate(blocks, p);
    assert blocks[b][x] in blocks[b];
    BlockPlace(blocks, i);
    if b < i {
      BlockPlace(blocks, b);
      SizeMonotone(blocks, b + 1, i);
    }
  }

  // ----- over a table

  function EntryBlocks(blocks: seq<seq<Row>>): (r: seq<seq<Entry>>)
    ensures |r| == |blocks| && forall i :: 0 <= i < |blocks| ==> r[i] == EntriesOf(blocks[i])
  {
    seq(|blocks|, i requires 0 <= i < |blocks| => EntriesOf(blocks[i]))
  }

  function IndexKeys(index: seq<Keys.StoredKey>): (r: seq<InternalKey>)
    ensures |r| == |index| && forall i :: 0 <= i < |index| ==> r[i] == Keys.Abstract(index[i])
  {
    seq(|index|, i requires 0 <= i < |index| => Keys.Abstract(index[i]))
  }

  lemma {:induction false} FlattenEntries(blocks: seq<seq<Row>>)
    ensures Flatten(EntryBlocks(blocks)) == EntriesOf(Flatten(blocks))
  {
    if blocks != [] {
      var n := |blocks| - 1;
      FlattenEntries(blocks[..n]);
      assert EntryBlocks(blocks)[..n] == EntryBlocks(blocks[..n]);
    }
  }

  /** A built table's iterator is a two-level iterator with a fitting index. */
  lemma {:induction false} TableIterates(t: Table)
    requires TableOk(t)
    ensures IndexOk(EntryBlocks(t.blocks), IndexKeys(t.index))
    ensures Flatten(EntryBlocks(t.blocks)) == EntriesOf(Flatten(t.blocks))
  {
    FlattenEntries(t.blocks);
    SortedEntries(Flatten(t.blocks));
    var blocks, index := EntryBlocks(t.blocks), IndexKeys(t.index);
    hide Flatten, Indexed, RowsSorted, Sorted;
    forall i, e: Entry | 0 <= i < |blocks| && e in blocks[i]
      ensures AtMost(e.key, index[i])
    {
      var x :| 0 <= x < |blocks[i]| && blocks[i][x] == e;
      BlockUpToIndex(t, i, x);
    }
    forall i, j, e: Entry | 0 <= i < j < |blocks| && e in blocks[j]
      ensures Less(index[i], e.key)
    {
      var x :| 0 <= x < |blocks[j]| && blocks[j][x] == e;
      LaterAboveIndex(t, i, j, x);
    }
  }

  lemma {:induction false} SortedEntries(rows: seq<Row>)
    requires RowsSorted(rows)
    ensures Sorted(EntriesOf(rows))
  {
  }

  lemma {:induction false} RowsInOrder(t: Table, i: nat, x: nat, j: nat, y: nat)
    requires TableOk(t) && i < |t.blocks| && j < |t.blocks| && x < |t.blocks[i]| && y < |t.blocks[j]|
    requires (i < j || (i == j && x <= y))
    ensures AtMost(Keys.Abstract(t.blocks[i][x].key), Keys.Abstract(t.blocks[j][y].key))
  {
    hide Flatten, Size, Indexed;
    RowAt(t.blocks, i, x);
    RowAt(t.blocks, j, y);
    if i < j {
      BlockPlace(t.blocks, i);
      SizeMonotone(t.blocks, i + 1, j);
    }
    var rows, a, b := Flatten(t.blocks), Size(t.blocks, i) + x, Size(t.blocks, j) + y;
    if a < b {
      assert Less(Keys.Abstract(rows[a].key), Keys.Abstract(rows[b].key));
    }
  }

  lemma {:induction false} BlockUpToIndex(t: Table, i: nat, x: nat)
    requires TableOk(t) && i < |t.blocks| && x < |t.blocks[i]|
    ensures AtMost(Keys.Abstract(t.blocks[i][x].key), Keys.Abstract(t.index[i]))
  {
    hide TableOk;
    IndexFact(t, i);
    RowsInOrder(t, i, x, i, |t.blocks[i]| - 1);
  }

  lemma {:induction false} LaterAboveIndex(t: Table, i: nat, j: nat, x: nat)
    requires TableOk(t) && i < j < |t.blocks| && x < |t.blocks[j]|
    ensures i < |t.index| && Less(Keys.Abstract(t.index[i]), Keys.Abstract(t.blocks[j][x].key))
  {
    hide TableOk;
    IndexFact(t, i);
    IndexFact(t, i + 1);
    FirstAboveLast(t, i);
    SeparatesInOrder(Last(t.blocks[i]), Keys.Abstract(t.index[i]), First(t.blocks[i + 1]));
    hide Separates;
    RowsInOrder(t, i + 1, 0, j, x);
  }

  lemma {:induction false} FirstAboveLast(t: Table, i: nat)
    requires TableOk(t) && i + 1 < |t.blocks| && t.blocks[i] != [] && t.blocks[i + 1] != []
    ensures Less(Last(t.blocks[i]), First(t.blocks[i + 1]))
  {
    hide Flatten, Size, Indexed;
    RowAt(t.blocks, i, |t.blocks[i]| - 1);
    RowAt(t.blocks, i + 1, 0);
  }
}
