/** Tables as rows in data blocks with an index of separators, and the point lookup through index, filter and
    one data block. `TableFiles` puts them into bytes. */
module Tables {
  import opened Ordering
  import opened Levels
  import opened Keys
  import opened Separators
  import opened Wrappers

  datatype Row = Row(key: StoredKey, value: Coding.bytes)

  function EntryOf(row: Row): Entry
  {
    Entry(Abstract(row.key), row.value)
  }

  function EntriesOf(rows: seq<Row>): (es: seq<Entry>)
    ensures |es| == |rows| && forall i :: 0 <= i < |rows| ==> es[i] == EntryOf(rows[i])
  {
    seq(|rows|, i requires 0 <= i < |rows| => EntryOf(rows[i]))
  }

  datatype Table = Table(blocks: seq<seq<Row>>, index: seq<StoredKey>)

  function Flatten<T>(blocks: seq<seq<T>>): seq<T>
  {
    if blocks == [] then [] else Flatten(blocks[..|blocks| - 1]) + blocks[|blocks| - 1]
  }

  ghost predicate RowsSorted(rows: seq<Row>)
  {
    forall i, j :: 0 <= i < j < |rows| ==> Less(Abstract(rows[i].key), Abstract(rows[j].key))
  }

  function First(block: seq<Row>): InternalKey
    requires block != []
  {
    Abstract(block[0].key)
  }

  function Last(block: seq<Row>): InternalKey
    requires block != []
  {
    Abstract(block[|block| - 1].key)
  }

  /** What follows block `i`: the next block's first key, if there is one. */
  function Follows(blocks: seq<seq<Row>>, data: seq<Row>, i: nat): Option<InternalKey>
    requires i < |blocks| && forall b :: b in blocks ==> b != []
  {
    if i + 1 < |blocks| then
      assert blocks[i + 1] in blocks;
      Some(First(blocks[i + 1]))
    else if data != [] then Some(First(data))
    else None
  }

  ghost predicate Indexed(blocks: seq<seq<Row>>, data: seq<Row>, index: seq<StoredKey>)
  {
    && |index| <= |blocks| && (forall b :: b in blocks ==> b != [])
    && forall i :: 0 <= i < |index| ==>
       blocks[i] in blocks && Separates(Last(blocks[i]), Abstract(index[i]), Follows(blocks, data, i))
  }

  ghost predicate TableOk(t: Table)
  {
    RowsSorted(Flatten(t.blocks)) && |t.index| == |t.blocks| && Indexed(t.blocks, [], t.index)
  }

  // ----- what building a table keeps

  lemma {:induction false} SortedSnoc(rows: seq<Row>, row: Row)
    requires RowsSorted(rows) && (rows != [] ==> Less(Abstract(rows[|rows| - 1].key), Abstract(row.key)))
    ensures RowsSorted(rows + [row])
  {
  }

  /** With nothing in the data block, the last row is the last block's. */
  lemma {:induction false} LastRow(blocks: seq<seq<Row>>, data: seq<Row>, index: seq<StoredKey>)
    requires data == [] && blocks != [] && Indexed(blocks, data, index)
    ensures blocks[|blocks| - 1] in blocks && blocks[|blocks| - 1] != []
    ensures Flatten(blocks) + data == Flatten(blocks) != []
    ensures Abstract(Flatten(blocks)[|Flatten(blocks)| - 1].key) == Last(blocks[|blocks| - 1])
  {
    var b := blocks[|blocks| - 1];
    assert b in blocks;
  }

  lemma {:induction false} IndexOne(blocks: seq<seq<Row>>, index: seq<StoredKey>, sep: StoredKey, data: seq<Row>)
    requires Indexed(blocks, [], index) && |index| + 1 == |blocks| && blocks[|blocks| - 1] in blocks
    requires blocks[|blocks| - 1] != []
    requires Separates(Last(blocks[|blocks| - 1]), Abstract(sep), if data == [] then None else Some(First(data)))
    ensures Indexed(blocks, data, index + [sep])
  {
    var more := index + [sep];
    forall i | 0 <= i < |more|
      ensures blocks[i] in blocks && Separates(Last(blocks[i]), Abstract(more[i]), Follows(blocks, data, i))
    {
      if i < |index| {
        assert Follows(blocks, data, i) == Follows(blocks, [], i);
      }
    }
  }

  lemma {:induction false} FlushIndexed(blocks: seq<seq<Row>>, data: seq<Row>, index: seq<StoredKey>)
    requires Indexed(blocks, data, index) && data != []
    ensures Indexed(blocks + [data], [], index) && Flatten(blocks + [data]) == Flatten(blocks) + data
  {
    var more := blocks + [data];
    assert more[..|more| - 1] == blocks;
    forall i | 0 <= i < |index|
      ensures more[i] in more && Separates(Last(more[i]), Abstract(index[i]), Follows(more, [], i))
    {
      assert more[i] == blocks[i] && blocks[i] in blocks;
      assert Follows(more, [], i) == Follows(blocks, data, i);
    }
  }

  lemma {:induction false} IndexGrows(blocks: seq<seq<Row>>, data: seq<Row>, index: seq<StoredKey>, row: Row)
    requires Indexed(blocks, data, index) && (data == [] ==> blocks == [])
    ensures Indexed(blocks, data + [row], index)
  {
    forall i | 0 <= i < |index|
      ensures blocks[i] in blocks && Separates(Last(blocks[i]), Abstract(index[i]), Follows(blocks, data + [row], i))
    {
      assert Follows(blocks, data + [row], i) == Follows(blocks, data, i);
    }
  }

  // ----- lookup

  /** The index iterator's seek: the first block whose index key is not below `k`. */
  function SeekIndex(index: seq<StoredKey>, k: InternalKey): (i: nat)
    ensures i <= |index| && (forall j :: 0 <= j < i ==> Less(Abstract(index[j]), k))
    ensures i < |index| ==> !Less(Abstract(index[i]), k)
  {
    if index == [] || !Less(Abstract(index[0]), k) then 0 else 1 + SeekIndex(index[1..], k)
  }

  /** `InternalGet` with the caller's check of the user key: `mayMatch(i)` is the filter's
      answer for block `i`. */
  function InternalGet(t: Table, u: UserKey, s: nat, mayMatch: nat -> bool): Outcome
  {
    var i := SeekIndex(t.index, LookupKey(u, s));
    if i < |t.index| && i < |t.blocks| && mayMatch(i) then TableGet(EntriesOf(t.blocks[i]), u, s) else NotFound
  }

  /** The filter never denies a block that holds the user key. */
  ghost predicate NoFalseNegatives(t: Table, u: UserKey, mayMatch: nat -> bool)
  {
    forall i: nat, j: nat :: i < |t.blocks| && j < |t.blocks[i]| && Abstract(t.blocks[i][j].key).user == u ==>
        mayMatch(i)
  }

  function Size<T>(blocks: seq<seq<T>>, i: nat): nat
    requires i <= |blocks|
  {
    |Flatten(blocks[..i])|
  }

  /** Block `i` stands in the flattened table after the rows of the blocks before it. */
  lemma {:induction false} BlockPlace<T>(blocks: seq<seq<T>>, i: nat)
    requires i < |blocks|
    ensures Size(blocks, i) + |blocks[i]| == Size(blocks, i + 1) <= |Flatten(blocks)|
    ensures Flatten(blocks)[Size(blocks, i)..Size(blocks, i) + |blocks[i]|] == blocks[i]
    decreases |blocks|
  {
    var n := |blocks| - 1;
    assert blocks[..i + 1][..i] == blocks[..i];
    if i == n {
      assert blocks[..i + 1] == blocks;
    } else {
      BlockPlace(blocks[..n], i);
      assert blocks[..n][..i] == blocks[..i] && blocks[..n][..i + 1] == blocks[..i + 1];
    }
  }

  lemma {:induction false} SeekIs(es: seq<Entry>, k: InternalKey, p: nat)
    requires p <= |es| && (forall j :: 0 <= j < p ==> Less(es[j].key, k)) && (p < |es| ==> !Less(es[p].key, k))
    ensures Seek(es, k) == p
  {
    var q := Seek(es, k);
  }

  /** In a sorted table, all rows up to one below `k` are below it. */
  lemma {:induction false} BelowUpTo(rows: seq<Row>, k: InternalKey, n: nat)
    requires RowsSorted(rows) && n <= |rows| && (n > 0 ==> Less(Abstract(rows[n - 1].key), k))
    ensures forall j :: 0 <= j < n ==> Less(Abstract(rows[j].key), k)
  {
  }

  lemma {:induction false} RowAt<T>(blocks: seq<seq<T>>, i: nat, j: nat)
    requires i < |blocks| && j < |blocks[i]|
    ensures Size(blocks, i) + j < Size(blocks, i + 1) <= |Flatten(blocks)|
    ensures Flatten(blocks)[Size(blocks, i) + j] == blocks[i][j]
  {
    hide Flatten, Size;
    BlockPlace(blocks, i);
    var a, n, rows := Size(blocks, i), |blocks[i]|, Flatten(blocks);
    assert rows[a..a + n][j] == rows[a + j];
  }

  /** What an index key says about its block and the next. */
  lemma {:induction false} IndexFact(t: Table, i: nat)
    requires TableOk(t) && i < |t.blocks|
    ensures t.blocks[i] != [] && i < |t.index|
    ensures i + 1 < |t.blocks| ==>
            t.blocks[i + 1] != [] && Separates(Last(t.blocks[i]), Abstract(t.index[i]), Some(First(t.blocks[i + 1])))
    ensures i + 1 == |t.blocks| ==> Separates(Last(t.blocks[i]), Abstract(t.index[i]), None)
  {
    hide Flatten, RowsSorted;
    assert t.blocks[i] in t.blocks;
    assert Separates(Last(t.blocks[i]), Abstract(t.index[i]), Follows(t.blocks, [], i));
    if i + 1 < |t.blocks| {
      assert t.blocks[i + 1] in t.blocks;
    }
  }

  /** Blocks whose index key is below `k` hold only rows below `k`. */
  lemma {:induction false} EarlierBlocksBelow(t: Table, k: InternalKey, i: nat)
    requires TableOk(t) && i <= |t.blocks| && (i > 0 ==> Less(Abstract(t.index[i - 1]), k))
    ensures Size(t.blocks, i) <= |Flatten(t.blocks)|
    ensures forall j :: 0 <= j < Size(t.blocks, i) ==> Less(Abstract(Flatten(t.blocks)[j].key), k)
  {
    hide Flatten, Size, Indexed, RowsSorted;
    if i == 0 {
      NoSize(t.blocks);
    } else {
      IndexFact(t, i - 1);
      var b := t.blocks[i - 1];
      BlockPlace(t.blocks, i - 1);
      RowAt(t.blocks, i - 1, |b| - 1);
      BelowUpTo(Flatten(t.blocks), k, Size(t.blocks, i));
    }
  }

  lemma {:induction false} NoSize<T>(blocks: seq<seq<T>>)
    ensures Size(blocks, 0) == 0
  {
    assert blocks[..0] == [];
  }

  lemma {:induction false} WholeSize<T>(blocks: seq<seq<T>>)
    ensures Size(blocks, |blocks|) == |Flatten(blocks)|
  {
    assert blocks[..|blocks|] == blocks;
  }

  lemma {:induction false} UsersInOrder(rows: seq<Row>, i: nat, j: nat)
    requires RowsSorted(rows) && i <= j < |rows|
    ensures Abstract(rows[i].key).user <= Abstract(rows[j].key).user
  {
    if i < j {
      assert Less(Abstract(rows[i].key), Abstract(rows[j].key));
    }
  }

  /** What comes after a block whose index key is at or above `k` but whose rows are all below
      it belongs to later user keys. */
  lemma {:induction false} LaterBlocksBeyond(t: Table, u: UserKey, s: nat, i: nat, p: nat)
    requires TableOk(t) && i < |t.blocks| && t.blocks[i] != [] && Less(Last(t.blocks[i]), LookupKey(u, s))
    requires !Less(Abstract(t.index[i]), LookupKey(u, s)) && Size(t.blocks, i + 1) <= p < |Flatten(t.blocks)|
    ensures u < Abstract(Flatten(t.blocks)[p].key).user
  {
    hide Flatten, Size, Indexed, RowsSorted;
    IndexFact(t, i);
    WholeSize(t.blocks);
    RowAt(t.blocks, i + 1, 0);
    UsersInOrder(Flatten(t.blocks), Size(t.blocks, i + 1), p);
  }

  /** Looking up through index, filter and one block is looking up in all the rows. */
  lemma {:induction false} InternalGetIsTableGet(t: Table, u: UserKey, s: nat, mayMatch: nat -> bool)
    requires TableOk(t) && NoFalseNegatives(t, u, mayMatch)
    ensures InternalGet(t, u, s, mayMatch) == TableGet(EntriesOf(Flatten(t.blocks)), u, s)
  {
    hide Flatten, Size, Indexed, RowsSorted, NoFalseNegatives;
    var k := LookupKey(u, s);
    var i := SeekIndex(t.index, k);
    EarlierBlocksBelow(t, k, i);
    if i == |t.blocks| {
      WholeSize(t.blocks);
      var es := EntriesOf(Flatten(t.blocks));
      SeekIs(es, k, |es|);
    } else {
      InBlock(t, u, s, mayMatch, i);
    }
  }

  lemma {:induction false} InBlock(t: Table, u: UserKey, s: nat, mayMatch: nat -> bool, i: nat)
    requires TableOk(t) && NoFalseNegatives(t, u, mayMatch) && i < |t.blocks|
    requires !Less(Abstract(t.index[i]), LookupKey(u, s)) && Size(t.blocks, i) <= |Flatten(t.blocks)|
    requires forall j :: 0 <= j < Size(t.blocks, i) ==> Less(Abstract(Flatten(t.blocks)[j].key), LookupKey(u, s))
    ensures (if mayMatch(i) then TableGet(EntriesOf(t.blocks[i]), u, s) else NotFound) ==
            TableGet(EntriesOf(Flatten(t.blocks)), u, s)
  {
    hide Flatten, Size, Indexed, RowsSorted, Seek;
    var k, rows, block, a := LookupKey(u, s), Flatten(t.blocks), t.blocks[i], Size(t.blocks, i);
    var es, bs := EntriesOf(rows), EntriesOf(block);
    BlockPlace(t.blocks, i);
    forall j | 0 <= j < |block| ensures es[a + j] == bs[j] { RowAt(t.blocks, i, j); }
    var q := Seek(bs, k);
    if q < |block| {
      BlockSeek(es, bs, k, a, q);
    } else {
      IndexFact(t, i);
      BlockSeekPast(es, bs, k, a);
      var p := Seek(es, k);
      if p < |es| {
        LaterBlocksBeyond(t, u, s, i, p);
      }
    }
  }

  lemma {:induction false} BlockSeek(es: seq<Entry>, bs: seq<Entry>, k: InternalKey, a: nat, q: nat)
    requires a + |bs| <= |es| && q == Seek(bs, k) < |bs|
    requires (forall j :: 0 <= j < a ==> Less(es[j].key, k)) && (forall j :: 0 <= j < |bs| ==> es[a + j] == bs[j])
    ensures Seek(es, k) == a + q && es[a + q] == bs[q]
  {
    forall j | 0 <= j < a + q ensures Less(es[j].key, k) {
      if j >= a { assert es[a + (j - a)] == bs[j - a]; }
    }
    SeekIs(es, k, a + q);
  }

  lemma {:induction false} BlockSeekPast(es: seq<Entry>, bs: seq<Entry>, k: InternalKey, a: nat)
    requires a + |bs| <= |es| && Seek(bs, k) == |bs|
    requires (forall j :: 0 <= j < a ==> Less(es[j].key, k)) && (forall j :: 0 <= j < |bs| ==> es[a + j] == bs[j])
    ensures Seek(es, k) >= a + |bs| && (bs != [] ==> Less(bs[|bs| - 1].key, k))
  {
    forall j | 0 <= j < a + |bs| ensures Less(es[j].key, k) {
      if j >= a { assert es[a + (j - a)] == bs[j - a]; }
    }
    SeekPast(es, k, a + |bs|);
  }

  lemma {:induction false} SeekPast(es: seq<Entry>, k: InternalKey, n: nat)
    requires n <= |es| && forall j :: 0 <= j < n ==> Less(es[j].key, k)
    ensures Seek(es, k) >= n
  {
    var q := Seek(es, k);
  }
}
