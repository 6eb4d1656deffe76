/** Table files: the builder that writes rows into framed blocks with index, filter, metaindex and footer. */
module TableFiles {
  import opened Blocks
  import opened Coding
  import opened Filters
  import opened Keys
  import opened Ordering
  import opened Separators
  import opened TableFormat
  import opened TableKeys
  import opened Tables
  import opened Wrappers

  // ----- what stands in a file

  /** A block with these pairs stands at the handle. */
  ghost predicate PairsAt(file: bytes, h: Handle, pairs: seq<Pair>)
  {
    exists L :: Good(L) && L.entries == pairs && BlockAt(file, h, Block(L))
  }

  ghost predicate BlocksAt(file: bytes, handles: seq<Handle>, blocks: seq<seq<Row>>)
  {
    |handles| == |blocks| && forall i :: 0 <= i < |blocks| ==> PairsAt(file, handles[i], PairsOf(blocks[i]))
  }

  lemma {:induction false} PairsStay(file: bytes, more: bytes, h: Handle, pairs: seq<Pair>)
    requires PairsAt(file, h, pairs)
    ensures PairsAt(file + more, h, pairs)
  {
    hide Good, Block, BlockAt;
    var L :| Good(L) && L.entries == pairs && BlockAt(file, h, Block(L));
    BlockStays(file, more, h, Block(L));
  }

  lemma {:induction false} BlocksStay(file: bytes, more: bytes, handles: seq<Handle>, blocks: seq<seq<Row>>)
    requires BlocksAt(file, handles, blocks)
    ensures BlocksAt(file + more, handles, blocks)
  {
    hide PairsAt, PairsOf;
    forall i | 0 <= i < |blocks| ensures PairsAt(file + more, handles[i], PairsOf(blocks[i])) {
      PairsStay(file, more, handles[i], PairsOf(blocks[i]));
    }
  }

  function IndexPairs(index: seq<StoredKey>, handles: seq<Handle>): (ps: seq<Pair>)
    requires |index| <= |handles|
    ensures |ps| == |index|
    ensures forall i :: 0 <= i < |index| ==> ps[i] == Pair(EncodeKey(index[i]), EncodeHandle(handles[i]))
  {
    seq(|index|, i requires 0 <= i < |index| => Pair(EncodeKey(index[i]), EncodeHandle(handles[i])))
  }

  // ----- a table being built

  /** Blocks written, rows of the open block, index keys so far, handles of the blocks; `pending` says that the last
      block's index key is still to be chosen. */
  datatype Building = Building(blocks: seq<seq<Row>>, data: seq<Row>, index: seq<StoredKey>, handles: seq<Handle>,
      pending: bool)

  function RowsOf(b: Building): seq<Row>
  {
    Flatten(b.blocks) + b.data
  }

  ghost predicate BuildingOk(b: Building)
  {
    && RowsSorted(RowsOf(b)) && RowsOk(RowsOf(b)) && KeysOk(b.index) && Indexed(b.blocks, b.data, b.index)
       && |b.handles| == |b.blocks|
    && (b.pending ==> b.data == [] && |b.index| + 1 == |b.blocks|)
    && (!b.pending ==> |b.index| == |b.blocks| && (b.data == [] ==> b.blocks == []))
  }

  /** The row comes after all rows so far. */
  ghost predicate ComesNext(rows: seq<Row>, row: Row)
  {
    rows != [] ==> Less(Abstract(rows[|rows| - 1].key), Abstract(row.key))
  }

  function WithIndex(b: Building, sep: StoredKey): Building
  {
    b.(index := b.index + [sep], pending := false)
  }

  function WithRow(b: Building, row: Row): Building
  {
    b.(data := b.data + [row])
  }

  function WithBlock(b: Building, h: Handle): Building
  {
    Building(b.blocks + [b.data], [], b.index, b.handles + [h], true)
  }

  lemma {:induction false} RowsMore(rows: seq<Row>, row: Row)
    requires RowsSorted(rows) && RowsOk(rows) && ComesNext(rows, row) && KeyOk(row.key)
    ensures RowsSorted(rows + [row]) && RowsOk(rows + [row])
  {
    SortedSnoc(rows, row);
  }

  /** Choosing the pending index key and adding the row. */
  lemma {:induction false} IndexAndRow(b: Building, sep: StoredKey, row: Row)
    requires BuildingOk(b) && b.pending && ComesNext(RowsOf(b), row) && KeyOk(row.key) && KeyOk(sep)
    requires RowsOf(b) != []
    requires Separates(Abstract(RowsOf(b)[|RowsOf(b)| - 1].key), Abstract(sep), Some(Abstract(row.key)))
    ensures BuildingOk(WithRow(WithIndex(b, sep), row)) && RowsOf(WithRow(WithIndex(b, sep), row)) == RowsOf(b) + [row]
  {
    RowsMore(RowsOf(b), row);
    hide Indexed, RowsSorted, RowsOk, Flatten;
    LastRow(b.blocks, b.data, b.index);
    assert [] + [row] == [row];
    IndexOne(b.blocks, b.index, sep, [row]);
    assert RowsOf(WithRow(WithIndex(b, sep), row)) == RowsOf(b) + [row];
  }

  lemma {:induction false} JustRow(b: Building, row: Row)
    requires BuildingOk(b) && !b.pending && ComesNext(RowsOf(b), row) && KeyOk(row.key)
    ensures BuildingOk(WithRow(b, row)) && RowsOf(WithRow(b, row)) == RowsOf(b) + [row]
  {
    RowsMore(RowsOf(b), row);
    hide Indexed, RowsSorted, RowsOk, Flatten;
    IndexGrows(b.blocks, b.data, b.index, row);
    assert RowsOf(WithRow(b, row)) == RowsOf(b) + [row];
  }

  lemma {:induction false} BlockWritten(b: Building, h: Handle)
    requires BuildingOk(b) && b.data != []
    ensures BuildingOk(WithBlock(b, h)) && RowsOf(WithBlock(b, h)) == RowsOf(b)
  {
    hide Indexed, RowsSorted, RowsOk, Flatten;
    FlushIndexed(b.blocks, b.data, b.index);
    assert RowsOf(WithBlock(b, h)) == RowsOf(b);
  }

  lemma {:induction false} PendingRows(b: Building)
    requires BuildingOk(b) && b.pending
    ensures RowsOf(b) != [] && |b.handles| == |b.blocks| == |b.index| + 1
  {
    hide RowsSorted, RowsOk;
    LastRow(b.blocks, b.data, b.index);
  }

  /** The last index key of a table is above all its rows. */
  lemma {:induction false} IndexFinished(b: Building, sep: StoredKey)
    requires BuildingOk(b) && b.pending && KeyOk(sep)
    requires RowsOf(b) != [] && Separates(Abstract(RowsOf(b)[|RowsOf(b)| - 1].key), Abstract(sep), None)
    ensures TableOk(Table(b.blocks, b.index + [sep])) && KeysOk(b.index + [sep]) && Flatten(b.blocks) == RowsOf(b)
  {
    hide Indexed, RowsSorted, RowsOk, Flatten;
    LastRow(b.blocks, b.data, b.index);
    IndexOne(b.blocks, b.index, sep, []);
  }

  // ----- the filter

  /** The user keys of written blocks are added under their blocks' offsets, those of the open block under the
      offset it will have. */
  ghost predicate FilterAdded(added: seq<Added>, b: Building, offset: nat)
  {
    && |b.handles| == |b.blocks|
    && (forall i, j :: 0 <= i < |b.blocks| && 0 <= j < |b.blocks[i]| ==>
       Added(b.handles[i].offset, b.blocks[i][j].key.user) in added)
    && (forall j :: 0 <= j < |b.data| ==> Added(offset, b.data[j].key.user) in added)
  }

  lemma {:induction false} AddedRow(added: seq<Added>, b: Building, offset: nat, row: Row)
    requires FilterAdded(added, b, offset)
    ensures FilterAdded(added + [Added(offset, row.key.user)], WithRow(b, row), offset)
  {
  }

  lemma {:induction false} AddedBlock(added: seq<Added>, b: Building, h: Handle, next: nat)
    requires FilterAdded(added, b, h.offset)
    ensures FilterAdded(added, WithBlock(b, h), next)
  {
  }

  /** The filter denies no row at its block's offset. */
  ghost predicate FilterAdmits(hash: Hash, filter: bytes, blocks: seq<seq<Row>>, handles: seq<Handle>)
  {
    && |handles| == |blocks|
    && forall i, j :: 0 <= i < |blocks| && 0 <= j < |blocks[i]| ==>
       MayMatch(hash, filter, handles[i].offset, blocks[i][j].key.user)
  }

  // ----- a finished file

  /** Where the parts of a file are. */
  datatype Places = Places(data: seq<Handle>, filter: Option<Handle>, meta: Handle, index: Handle)

  /** The file holds the table: its data blocks, its index, its filter if it has one and the way to find it, and the
      footer that leads to them. */
  ghost predicate TableFileOf(file: bytes, t: Table, p: Places, hash: Hash, filterKey: bytes)
  {
    && TableOk(t) && KeysOk(t.index) && RowsOk(Flatten(t.blocks))
    && BlocksAt(file, p.data, t.blocks)
    && |t.index| == |p.data| && PairsAt(file, p.index, IndexPairs(t.index, p.data))
    && PairsAt(file, p.meta, if p.filter.Some? then [Pair(filterKey, EncodeHandle(p.filter.value))] else [])
    && (p.filter.Some? ==>
       exists filter :: BlockAt(file, p.filter.value, filter)
           && (|filter| < WORD32 ==> FilterAdmits(hash, filter, t.blocks, p.data)))
    && EndsWith(file, EncodeFooter(p.meta, p.index))
  }

  ghost predicate EndsWith(file: bytes, end: bytes)
  {
    |end| <= |file| && file[|file| - |end|..] == end
  }

  // ----- the builder

  class TableBuilder {
    const hash: Hash
    const filterKey: bytes
    const blockSize: nat
    var file: bytes
    const dataBlock: BlockBuilder
    const indexBlock: BlockBuilder
    const filterBlock: FilterBlockBuilder?
    var lastKey: StoredKey
    var pendingIndex: bool
    var pendingHandle: Handle
    ghost var b: Building

    ghost predicate FilterValid()
      reads this, filterBlock
    {
      filterBlock != null ==>
        && filterBlock.Valid() && filterBlock.hash == hash && filterBlock.offset == |file|
           && FilterAdded(filterBlock.added, b, |file|)
    }

    ghost predicate Valid()
      reads this, dataBlock, indexBlock, filterBlock
    {
      && BuildingOk(b) && pendingIndex == b.pending && (RowsOf(b) != [] ==> lastKey == RowsOf(b)[|RowsOf(b)| - 1].key)
      && (b.pending ==> b.handles != [] && pendingHandle == b.handles[|b.handles| - 1])
      && dataBlock != indexBlock && dataBlock.Valid() && dataBlock.L.entries == PairsOf(b.data)
      && indexBlock.Valid() && |b.index| <= |b.handles| && indexBlock.L.entries == IndexPairs(b.index, b.handles)
      && BlocksAt(file, b.handles, b.blocks)
      && FilterValid()
    }

    constructor (hash: Hash, bitsPerKey: Option<nat>, filterKey: bytes, interval: nat, blockSize: nat)
      requires interval >= 1
      ensures Valid() && fresh(dataBlock) && fresh(indexBlock) && (filterBlock != null ==> fresh(filterBlock))
      ensures RowsOf(b) == [] && this.hash == hash && this.filterKey == filterKey
      ensures (filterBlock != null <==> bitsPerKey.Some?)
    {
      this.hash, this.filterKey, this.blockSize := hash, filterKey, blockSize;
      file, pendingIndex, pendingHandle, lastKey := [], false, Handle(0, 0), StoredKey([], 0, Deletion);
      dataBlock := new BlockBuilder(interval);
      indexBlock := new BlockBuilder(1);
      if bitsPerKey.Some? {
        filterBlock := new FilterBlockBuilder(hash, bitsPerKey.value);
      } else {
        filterBlock := null;
      }
      b := Building([], [], [], [], false);
      new;
      if filterBlock != null {
        filterBlock.StartBlock(0);
      }
    }

    /** `WriteBlock`: the block is finished, framed and appended, and starts again empty. */
    method WriteBlock(block: BlockBuilder) returns (handle: Handle)
      requires block.Valid()
      modifies this`file, block
      ensures block.Valid() && block.L.entries == []
      ensures old(file) <= file && handle.offset == |old(file)| && PairsAt(file, handle, old(block.L.entries))
      ensures handle.size == |Block(old(block.L))|
    {
      hide Good, Block, BlockAt, Framed;
      ghost var L, was := block.L, file;
      var raw := block.Finish();
      file, handle := WriteRawBlock(file, raw);
      BlockAppended(was, raw);
      assert PairsAt(file, handle, L.entries);
      assert was <= was + Framed(raw);
      block.Reset();
    }

    /** A row above all added so far; a full data block is flushed. */
    method Add(row: Row)
      requires Valid() && ComesNext(RowsOf(b), row) && KeyOk(row.key)
      modifies this, dataBlock, indexBlock, filterBlock
      ensures Valid() && RowsOf(b) == old(RowsOf(b)) + [row]
      ensures if |b.blocks| == old(|b.blocks|)
              then b.data == old(b.data) + [row] && b.blocks == old(b.blocks)
                  && dataBlock.CurrentSizeEstimate() < blockSize
              else b.data == [] && b.blocks == old(b.blocks) + [old(b.data) + [row]] && pendingHandle.size >= blockSize
    {
      hide BuildingOk, BlocksAt, FilterAdded, PairsOf, IndexPairs, RowsOf, Good, Block, Data, RestartOffsets;
      ghost var next := IndexPending(row);
      PutRow(row, next);
      if dataBlock.CurrentSizeEstimate() >= blockSize {
        Flush();
      }
    }

    method AddAll(rows: seq<Row>)
      requires Valid() && RowsOf(b) == [] && RowsSorted(rows) && RowsOk(rows)
      modifies this, dataBlock, indexBlock, filterBlock
      ensures Valid() && RowsOf(b) == rows
    {
      hide Valid, RowsSorted, RowsOk, RowsOf, ComesNext, KeyOk;
      for i := 0 to |rows|
        invariant Valid() && RowsOf(b) == rows[..i]
      {
        RowComesNext(rows, i);
        Add(rows[i]);
        assert rows[..i + 1] == rows[..i] + [rows[i]];
      }
      assert rows[..|rows|] == rows;
    }

    /** The index key of the block written last, now that the next key is known. */
    method IndexPending(row: Row) returns (ghost next: Building)
      requires Valid() && ComesNext(RowsOf(b), row) && KeyOk(row.key)
      modifies this`pendingIndex, indexBlock
      ensures !pendingIndex && next == b.(index := next.index, pending := false)
      ensures BuildingOk(WithRow(next, row)) && RowsOf(WithRow(next, row)) == RowsOf(b) + [row]
      ensures indexBlock.Valid() && |next.index| <= |next.handles|
      ensures indexBlock.L.entries == IndexPairs(next.index, next.handles)
    {
      hide BuildingOk, BlocksAt, FilterAdded, PairsOf, RowsOf, Good, Block, Data, RestartOffsets;
      if pendingIndex {
        PendingRows(b);
        var sep := InternalSeparator(lastKey, row.key) by { NextIsAbove(RowsOf(b), row); }
        next := WithIndex(b, sep);
        IndexAndRow(b, sep, row) by { LastKeyOk(b); }
        IndexPairsMore(b.index, sep, b.handles);
        indexBlock.Add(EncodeKey(sep), EncodeHandle(pendingHandle));
        pendingIndex := false;
      } else {
        JustRow(b, row);
        next := b;
      }
    }

    method PutRow(row: Row, ghost next: Building)
      requires !pendingIndex && next == b.(index := next.index, pending := false)
      requires BuildingOk(WithRow(next, row)) && RowsOf(WithRow(next, row)) == RowsOf(b) + [row]
      requires dataBlock != indexBlock && dataBlock.Valid() && dataBlock.L.entries == PairsOf(b.data)
      requires indexBlock.Valid() && |next.index| <= |next.handles|
      requires indexBlock.L.entries == IndexPairs(next.index, next.handles)
      requires BlocksAt(file, b.handles, b.blocks) && FilterValid()
      modifies this`lastKey, this`b, dataBlock, filterBlock
      ensures Valid() && RowsOf(b) == old(RowsOf(b)) + [row] && b == WithRow(next, row)
    {
      hide BuildingOk, BlocksAt, FilterAdded, PairsOf, IndexPairs, RowsOf, Good, Block, Data, RestartOffsets;
      if filterBlock != null {
        FilterSame(filterBlock.added, b, next, |file|);
        AddedRow(filterBlock.added, next, |file|, row);
        filterBlock.AddKey(row.key.user);
      }
      lastKey := row.key;
      PairsMore(b.data, row);
      dataBlock.Add(EncodeKey(row.key), row.value);
      b := WithRow(next, row);
    }

    method Flush()
      requires Valid()
      modifies this`file, this`pendingIndex, this`pendingHandle, this`b, dataBlock, filterBlock
      ensures Valid() && RowsOf(b) == old(RowsOf(b)) && b.data == [] && (b.blocks != [] ==> b.pending)
      ensures old(b.data) == [] ==> b == old(b)
      ensures old(b.data) != [] ==>
              b == WithBlock(old(b), pendingHandle) && pendingHandle.size == |Block(old(dataBlock.L))|
    {
      hide BlocksAt, FilterAdded, PairsAt, IndexPairs, RowsOf, Good, Block, Data, RestartOffsets, Indexed, RowsSorted,
           RowsOk, KeysOk;
      EmptyBuffer(dataBlock.L);
      if |dataBlock.buffer| == 0 {
        return;
      }
      ghost var was, old_ := b, file;
      pendingHandle := WriteBlock(dataBlock);
      BlockWritten(was, pendingHandle);
      MoreBlocks(old_, file, was, pendingHandle);
      b := WithBlock(was, pendingHandle);
      pendingIndex := true;
      NoPairs();
      if filterBlock != null {
        AddedBlock(filterBlock.added, was, pendingHandle, |file|);
        filterBlock.StartBlock(|file|);
      }
    }

    /** The filter block, if there is a filter. */
    method FinishFilter() returns (handle: Option<Handle>, ghost filter: bytes)
      requires Valid() && b.data == []
      modifies this`file, filterBlock
      ensures old(file) <= file && (handle.Some? <==> filterBlock != null)
      ensures handle.Some? ==>
              BlockAt(file, handle.value, filter)
                  && (|filter| < WORD32 ==> FilterAdmits(hash, filter, b.blocks, b.handles))
    {
      hide BuildingOk, BlocksAt, BlockAt, MayMatch, PairsOf, IndexPairs, RowsOf, Good, Block, Data, RestartOffsets,
           Framed;
      handle, filter := None, [];
      if filterBlock != null {
        ghost var added, was := filterBlock.added, file;
        var contents := filterBlock.Finish();
        var h;
        file, h := WriteRawBlock(file, contents);
        BlockAppended(was, contents);
        assert was <= was + Framed(contents);
        if |contents| < WORD32 { AllAdmitted(hash, contents, added, b, |was|); }
        handle, filter := Some(h), contents;
      }
    }

    /** The metaindex block: at most one entry, which leads to the filter. */
    method FinishMeta(filter: Option<Handle>) returns (handle: Handle)
      requires dataBlock.interval >= 1
      modifies this`file
      ensures old(file) <= file
      ensures PairsAt(file, handle, if filter.Some? then [Pair(filterKey, EncodeHandle(filter.value))] else [])
    {
      hide PairsAt, Good, Block, Data, RestartOffsets;
      var meta := new BlockBuilder(dataBlock.interval);
      ghost var pairs := [];
      if filter.Some? {
        meta.Add(filterKey, EncodeHandle(filter.value));
        pairs := [Pair(filterKey, EncodeHandle(filter.value))];
        assert [] + pairs == pairs;
      }
      assert meta.L.entries == pairs;
      handle := WriteBlock(meta);
    }

    /** The index block, with the last block's key. */
    method FinishIndex() returns (handle: Handle, ghost index: seq<StoredKey>)
      requires BuildingOk(b) && pendingIndex == b.pending && b.data == [] && (b.blocks != [] ==> b.pending)
      requires (RowsOf(b) != [] ==> lastKey == RowsOf(b)[|RowsOf(b)| - 1].key) && indexBlock.Valid()
      requires b.pending ==> b.handles != [] && pendingHandle == b.handles[|b.handles| - 1]
      requires |b.index| <= |b.handles| && indexBlock.L.entries == IndexPairs(b.index, b.handles)
      modifies this`file, this`pendingIndex, indexBlock
      ensures old(file) <= file && TableOk(Table(b.blocks, index)) && KeysOk(index) && Flatten(b.blocks) == RowsOf(b)
      ensures |index| == |b.handles| && PairsAt(file, handle, IndexPairs(index, b.handles))
    {
      hide BuildingOk, PairsAt, RowsOf, Good, Block, Data, RestartOffsets, Indexed, RowsSorted, KeysOk, Flatten;
      index := b.index;
      if pendingIndex {
        PendingRows(b);
        var sep := InternalSuccessor(lastKey);
        IndexFinished(b, sep) by { LastKeyOk(b); }
        IndexPairsMore(b.index, sep, b.handles);
        indexBlock.Add(EncodeKey(sep), EncodeHandle(pendingHandle));
        pendingIndex := false;
        index := index + [sep];
      } else {
        NothingBuilt(b);
      }
      handle := WriteBlock(indexBlock);
    }

    /** The finished file holds a table of exactly the rows added. */
    method Finish() returns (ghost t: Table, ghost p: Places)
      requires Valid()
      modifies this, dataBlock, indexBlock, filterBlock
      ensures TableFileOf(file, t, p, hash, filterKey) && Flatten(t.blocks) == old(RowsOf(b))
      ensures (p.filter.Some? <==> filterBlock != null)
    {
      hide TableFileOf, BlocksAt, BlockAt, PairsAt, FilterAdded, FilterAdmits, PairsOf, IndexPairs, RowsOf, Good,
           Block, Data, RestartOffsets,
           BuildingOk, TableOk, EncodeFooter, KeysOk, Flatten;
      Flush();
      ghost var f0 := file;
      var filterHandle, filter := FinishFilter();
      ghost var f1 := file;
      var metaHandle := FinishMeta(filterHandle);
      ghost var f2 := file;
      var indexHandle, index := FinishIndex();
      t, p := Table(b.blocks, index), Places(b.handles, filterHandle, metaHandle, indexHandle);
      FileMade(f0, f1, f2, file, b, t, p, hash, filter, filterKey);
      file := file + EncodeFooter(metaHandle, indexHandle);
    }
  }

  /** What was written stays where it is through the rest of the file. */
  lemma {:induction false} AllStay(f0: bytes, f1: bytes, f2: bytes, f3: bytes, file: bytes, t: Table, p: Places,
                                   filter: bytes, filterKey: bytes)
    requires f0 <= f1 <= f2 <= f3 <= file && BlocksAt(f0, p.data, t.blocks)
    requires (p.filter.Some? ==> BlockAt(f1, p.filter.value, filter))
    requires PairsAt(f2, p.meta, if p.filter.Some? then [Pair(filterKey, EncodeHandle(p.filter.value))] else [])
    requires |t.index| == |p.data| && PairsAt(f3, p.index, IndexPairs(t.index, p.data))
    ensures BlocksAt(file, p.data, t.blocks) && (p.filter.Some? ==> BlockAt(file, p.filter.value, filter))
    ensures PairsAt(file, p.meta, if p.filter.Some? then [Pair(filterKey, EncodeHandle(p.filter.value))] else [])
    ensures PairsAt(file, p.index, IndexPairs(t.index, p.data))
  {
    hide BlocksAt, BlockAt, PairsAt, IndexPairs;
    assert file == f0 + file[|f0|..] && file == f1 + file[|f1|..] && file == f2 + file[|f2|..]
        && file == f3 + file[|f3|..];
    BlocksStay(f0, file[|f0|..], p.data, t.blocks);
    if p.filter.Some? { BlockStays(f1, file[|f1|..], p.filter.value, filter); }
    PairsStay(f2, file[|f2|..], p.meta, if p.filter.Some? then [Pair(filterKey, EncodeHandle(p.filter.value))] else []);
    PairsStay(f3, file[|f3|..], p.index, IndexPairs(t.index, p.data));
  }

  lemma {:induction false} FileMade(f0: bytes, f1: bytes, f2: bytes, f3: bytes, b: Building, t: Table, p: Places,
                                    hash: Hash, filter: bytes,
                                    filterKey: bytes)
    requires f0 <= f1 <= f2 <= f3 && BuildingOk(b) && Flatten(b.blocks) == RowsOf(b) && t.blocks == b.blocks
    requires p.data == b.handles
    requires BlocksAt(f0, p.data, t.blocks) && (p.filter.Some? ==> BlockAt(f1, p.filter.value, filter))
    requires p.filter.Some? && |filter| < WORD32 ==> FilterAdmits(hash, filter, t.blocks, p.data)
    requires PairsAt(f2, p.meta, if p.filter.Some? then [Pair(filterKey, EncodeHandle(p.filter.value))] else [])
    requires |t.index| == |p.data| && PairsAt(f3, p.index, IndexPairs(t.index, p.data)) && TableOk(t) && KeysOk(t.index)
    ensures TableFileOf(f3 + EncodeFooter(p.meta, p.index), t, p, hash, filterKey)
  {
    hide BlocksAt, BlockAt, PairsAt, FilterAdmits, IndexPairs, TableOk, EncodeFooter, KeysOk, RowsOk, Flatten;
    var end := EncodeFooter(p.meta, p.index);
    var file := f3 + end;
    assert f3 <= file && file[|file| - |end|..] == end;
    AllStay(f0, f1, f2, f3, file, t, p, filter, filterKey);
    BuiltRows(b);
  }

  lemma {:induction false} BuiltRows(b: Building)
    requires BuildingOk(b)
    ensures RowsOk(RowsOf(b))
  {
  }

  lemma {:induction false} NothingBuilt(b: Building)
    requires BuildingOk(b) && !b.pending && b.blocks == [] && b.data == []
    ensures TableOk(Table(b.blocks, b.index)) && KeysOk(b.index) && Flatten(b.blocks) == RowsOf(b)
    ensures |b.index| == |b.handles|
  {
  }

  lemma {:induction false} AllAdmitted(hash: Hash, filter: bytes, added: seq<Added>, b: Building, offset: nat)
    requires FilterAdded(added, b, offset) && forall a :: a in added ==> MayMatch(hash, filter, a.offset, a.key)
    ensures FilterAdmits(hash, filter, b.blocks, b.handles)
  {
    hide MayMatch;
    forall i, j | 0 <= i < |b.blocks| && 0 <= j < |b.blocks[i]|
      ensures MayMatch(hash, filter, b.handles[i].offset, b.blocks[i][j].key.user)
    {
      assert Added(b.handles[i].offset, b.blocks[i][j].key.user) in added;
    }
  }

  lemma {:induction false} RowComesNext(rows: seq<Row>, i: nat)
    requires RowsSorted(rows) && RowsOk(rows) && i < |rows|
    ensures ComesNext(rows[..i], rows[i]) && KeyOk(rows[i].key)
  {
  }

  lemma {:induction false} NoPairs()
    ensures PairsOf([]) == []
  {
  }

  lemma {:induction false} EmptyBuffer(L: Layout)
    requires Good(L)
    ensures Data(L) == [] <==> L.entries == []
  {
    OffMonotone(L, 0, |L.entries|);
  }

  lemma {:induction false} NextIsAbove(rows: seq<Row>, row: Row)
    requires rows != [] && ComesNext(rows, row)
    ensures Less(Abstract(rows[|rows| - 1].key), Abstract(row.key))
  {
  }

  lemma {:induction false} LastKeyOk(b: Building)
    requires BuildingOk(b) && RowsOf(b) != []
    ensures KeyOk(RowsOf(b)[|RowsOf(b)| - 1].key)
  {
  }

  lemma {:induction false} IndexPairsMore(index: seq<StoredKey>, sep: StoredKey, handles: seq<Handle>)
    requires |index| + 1 == |handles|
    ensures IndexPairs(index + [sep], handles) ==
            IndexPairs(index, handles) + [Pair(EncodeKey(sep), EncodeHandle(handles[|handles| - 1]))]
  {
  }

  lemma {:induction false} PairsMore(rows: seq<Row>, row: Row)
    ensures PairsOf(rows + [row]) == PairsOf(rows) + [Pair(EncodeKey(row.key), row.value)]
  {
  }

  lemma {:induction false} FilterSame(added: seq<Added>, b: Building, next: Building, offset: nat)
    requires FilterAdded(added, b, offset) && next == b.(index := next.index, pending := false)
    ensures FilterAdded(added, next, offset)
  {
  }

  lemma {:induction false} MoreBlocks(old_: bytes, file: bytes, b: Building, h: Handle)
    requires BlocksAt(old_, b.handles, b.blocks) && old_ <= file && PairsAt(file, h, PairsOf(b.data))
    ensures BlocksAt(file, b.handles + [h], b.blocks + [b.data])
  {
    hide PairsAt, PairsOf;
    var more := file[|old_|..];
    assert file == old_ + more;
    BlocksStay(old_, more, b.handles, b.blocks);
  }
}
