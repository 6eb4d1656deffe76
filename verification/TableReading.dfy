/** Reading table files: opening a file by its footer, and the point lookup through index, filter and one data
    block, on bytes. */
module TableReading {
  import opened Blocks
  import opened Coding
  import opened Filters
  import opened Keys
  import opened Levels
  import opened Ordering
  import opened TableFiles
  import opened TableFormat
  import opened TableKeys
  import opened Tables
  import opened TwoLevelIterators
  import opened Wrappers

  /** A file small enough for 32-bit offsets. */
  ghost predicate Readable(file: bytes, t: Table, p: Places, hash: Hash, filterKey: bytes)
  {
    TableFileOf(file, t, p, hash, filterKey) && |file| < WORD32
  }

  lemma {:induction false} SmallPairs(file: bytes, h: Handle, pairs: seq<Pair>) returns (L: Layout)
    requires PairsAt(file, h, pairs) && |file| < WORD32
    ensures Sized(L) && L.entries == pairs && BlockAt(file, h, Block(L)) && HandleOk(h)
  {
    hide Good, Block;
    L :| Good(L) && L.entries == pairs && BlockAt(file, h, Block(L));
  }

  /** The first pair of a block that is not below the target. */
  method SeekBlock(block: bytes, less: Order, target: bytes, ghost L: Layout) returns (r: Option<Pair>, ghost k: nat)
    requires Sized(L) && block == Block(L) && Strict(less) && Increasing(less, L.entries)
    ensures LowerBound(less, L.entries, target, k) && r == if k < |L.entries| then Some(L.entries[k]) else None
  {
    hide Sized, Block, Good, Fit, Off, Data, Bytes, Strict, Increasing, LowerBound;
    var trailer := OpenBlock(block, L);
    DataSmall(L);
    var it := new Iter(less, block, trailer.value.0, trailer.value.1, L);
    k := it.Seek(target, |L.entries|);
    r := None;
    if it.current < it.restarts {
      EndBeyond(it, k);
      r := Some(Pair(it.key, it.data[it.valueStart..it.valueStart + it.valueSize]));
    } else {
      StandsAtEnd(it, k);
    }
  }

  datatype OpenTable = OpenTable(file: bytes, index: bytes, filter: Option<bytes>)

  ghost predicate IndexAt(index: bytes, t: Table, p: Places)
  {
    |t.index| == |p.data| && exists L :: Sized(L) && L.entries == IndexPairs(t.index, p.data) && index == Block(L)
  }

  /** What an opened table has at hand. */
  ghost predicate Opens(o: OpenTable, file: bytes, t: Table, p: Places, hash: Hash)
  {
    o.file == file && IndexAt(o.index, t, p)
        && (o.filter.Some? ==> FilterAdmits(hash, o.filter.value, t.blocks, p.data))
  }

  lemma {:induction false} FooterReads(file: bytes, t: Table, p: Places, hash: Hash, filterKey: bytes)
    requires Readable(file, t, p, hash, filterKey)
    ensures |file| >= FOOTER && DecodeFooter(file[|file| - FOOTER..]) == Some((p.meta, p.index))
  {
    hide BlocksAt, TableOk, PairsAt, IndexPairs, DecodeFooter, EncodeFooter, KeysOk, RowsOk, Flatten, EncodeHandle,
         Sized, Block, BlockAt,
         HandleOk, FilterAdmits;
    var Li := SmallPairs(file, p.index, IndexPairs(t.index, p.data));
    var Lm := SmallPairs(file, p.meta, if p.filter.Some? then [Pair(filterKey, EncodeHandle(p.filter.value))] else []);
    FooterRoundTrip(p.meta, p.index);
  }

  /** `Table::Open`: the footer leads to the index block and, by the metaindex, to the filter of the reader's policy. */
  method Open(file: bytes, policy: Option<bytes>, verify: bool, ghost t: Table, ghost p: Places, ghost hash: Hash,
              ghost filterKey: bytes)
    returns (r: Option<OpenTable>)
    requires Readable(file, t, p, hash, filterKey)
    ensures r.Some? && Opens(r.value, file, t, p, hash)
    ensures r.value.filter.Some? <==> p.filter.Some? && policy == Some(filterKey)
  {
    hide TableFileOf, DecodeFooter, IndexAt, FilterAdmits;
    FooterReads(file, t, p, hash, filterKey);
    var footer := DecodeFooter(file[|file| - FOOTER..]);
    var (meta, index) := footer.value;
    var contents := ReadIndex(file, index, verify, t, p, hash, filterKey);
    var filter := None;
    if policy.Some? {
      filter := ReadMeta(file, meta, policy.value, verify, t, p, hash, filterKey);
    }
    r := Some(OpenTable(file, contents, filter));
  }

  method ReadIndex(file: bytes, index: Handle, verify: bool, ghost t: Table, ghost p: Places, ghost hash: Hash,
                   ghost filterKey: bytes)
    returns (contents: bytes)
    requires Readable(file, t, p, hash, filterKey) && index == p.index
    ensures IndexAt(contents, t, p)
  {
    hide BlocksAt, TableOk, PairsAt, IndexPairs, EndsWith, KeysOk, RowsOk, Flatten, EncodeHandle, Block, Sized;
    ghost var L := SmallPairs(file, p.index, IndexPairs(t.index, p.data));
    var r := ReadBlock(file, index, verify, Block(L)) by { SizedIsGood(L); }
    contents := r.value;
  }

  lemma {:induction false} SizedIsGood(L: Layout)
    requires Sized(L)
    ensures Good(L)
  {
  }

  /** `ReadMeta` and `ReadFilter`: the filter is found under its policy's name and under no other. */
  method ReadMeta(file: bytes, meta: Handle, policy: bytes, verify: bool, ghost t: Table, ghost p: Places,
                  ghost hash: Hash,
                  ghost filterKey: bytes)
    returns (filter: Option<bytes>)
    requires Readable(file, t, p, hash, filterKey) && meta == p.meta
    ensures filter.Some? <==> p.filter.Some? && policy == filterKey
    ensures filter.Some? ==> FilterAdmits(hash, filter.value, t.blocks, p.data)
  {
    hide BlocksAt, TableOk, PairsAt, IndexPairs, EndsWith, KeysOk, RowsOk, Flatten, Block, Sized, FilterAdmits,
         BlockAt, DecodeHandle, EncodeHandle,
         BytewiseLess, HandleOk;
    ghost var pairs := if p.filter.Some? then [Pair(filterKey, EncodeHandle(p.filter.value))] else [];
    ghost var L := SmallPairs(file, p.meta, pairs);
    BytewiseStrict();
    var contents := ReadBlock(file, meta, verify, Block(L)) by { SizedIsGood(L); }
    var found, k := SeekBlock(contents.value, BytewiseLess, policy, L) by { SizedIsGood(L); }
    OneEntry(pairs, policy, k);
    filter := None;
    if found.Some? && found.value.key == policy {
      ghost var f := FilterPlace(file, t, p, hash, filterKey);
      var handle := DecodeHandle(found.value.value);
      filter := ReadBlock(file, handle.value.0, verify, f);
    }
  }

  lemma {:induction false} FilterPlace(file: bytes, t: Table, p: Places, hash: Hash, filterKey: bytes)
    returns (f: bytes)
    requires Readable(file, t, p, hash, filterKey) && p.filter.Some?
    ensures BlockAt(file, p.filter.value, f) && FilterAdmits(hash, f, t.blocks, p.data)
    ensures DecodeHandle(EncodeHandle(p.filter.value)) == Some((p.filter.value, []))
  {
    hide BlocksAt, TableOk, PairsAt, IndexPairs, EndsWith, KeysOk, RowsOk, Flatten, FilterAdmits, EncodeHandle,
         DecodeHandle;
    f :| BlockAt(file, p.filter.value, f) && (|f| < WORD32 ==> FilterAdmits(hash, f, t.blocks, p.data));
    HandleRoundTrip(p.filter.value, []);
    assert EncodeHandle(p.filter.value) + [] == EncodeHandle(p.filter.value);
  }

  /** A seek among at most one entry finds the entry if it has the key. */
  lemma {:induction false} OneEntry(pairs: seq<Pair>, key: bytes, k: nat)
    requires |pairs| <= 1 && LowerBound(BytewiseLess, pairs, key, k)
    ensures |pairs| == 1 && pairs[0].key == key ==> k == 0
  {
    BytewiseOrder(key, key, key);
    hide BytewiseLess;
  }

  // ----- the point lookup

  /** The index block's seek finds the block that the index names. */
  lemma {:induction false} IndexBound(index: seq<StoredKey>, handles: seq<Handle>, target: StoredKey, k: nat)
    requires KeysOk(index) && KeyOk(target) && |index| == |handles|
    requires LowerBound(InternalLess, IndexPairs(index, handles), EncodeKey(target), k)
    ensures k == SeekIndex(index, Abstract(target))
  {
    hide InternalLess, EncodeKey, Abstract, EncodeHandle;
    forall j | 0 <= j < |index|
        ensures Less(Abstract(index[j]), Abstract(target)) <==> InternalLess(EncodeKey(index[j]), EncodeKey(target)) {
      EncodedLess(index[j], target);
    }
    var i := SeekIndex(index, Abstract(target));
    assert i < |index| ==> !InternalLess(IndexPairs(index, handles)[i].key, EncodeKey(target));
    assert k < |index| ==> !Less(Abstract(index[k]), Abstract(target));
  }

  lemma {:induction false} IndexIncreases(t: Table, handles: seq<Handle>)
    requires TableOk(t) && KeysOk(t.index) && |t.index| == |handles|
    ensures Increasing(InternalLess, IndexPairs(t.index, handles))
  {
    var ps := IndexPairs(t.index, handles);
    hide InternalLess, EncodeKey, Abstract, EncodeHandle, TableOk;
    forall i, j | 0 <= i < j < |ps| ensures InternalLess(ps[i].key, ps[j].key) {
      IndexAscends(t, i, j);
      EncodedLess(t.index[i], t.index[j]);
    }
  }

  /** Index keys ascend: each is below the next block's rows, which are not above its own key. */
  lemma {:induction false} IndexAscends(t: Table, i: nat, j: nat)
    requires TableOk(t) && i < j < |t.index|
    ensures Less(Abstract(t.index[i]), Abstract(t.index[j]))
  {
    assert |t.index| == |t.blocks|;
    hide TableOk, Abstract;
    IndexFact(t, j);
    LaterAboveIndex(t, i, j, 0);
    BlockUpToIndex(t, j, 0);
  }

  /** The filter's answer for a block, when there is a filter. */
  ghost predicate Admitted(filter: Option<bytes>, hash: Hash, p: Places, user: bytes, i: nat)
  {
    filter.Some? && i < |p.data| ==> MayMatch(hash, filter.value, p.data[i].offset, user)
  }

  /** The lookup's answer, given where the index leads: nothing, or the answer of one block. */
  lemma {:induction false} LookupAnswers(t: Table, p: Places, filter: Option<bytes>, hash: Hash, user: bytes, s: nat,
                                         i: nat)
    requires TableOk(t) && |p.data| == |t.blocks|
    requires (filter.Some? ==> FilterAdmits(hash, filter.value, t.blocks, p.data))
    requires i == SeekIndex(t.index, LookupKey(Rank(user), s))
    ensures TableGet(EntriesOf(Flatten(t.blocks)), Rank(user), s) ==
              if i < |t.blocks|
                  && Admitted(filter, hash, p, user, i) then TableGet(EntriesOf(t.blocks[i]), Rank(user), s)
                     else NotFound
  {
    assert |t.index| == |t.blocks|;
    hide MayMatch, TableOk, TableGet, Flatten;
    var mayMatch: nat -> bool := (x: nat) => Admitted(filter, hash, p, user, x);
    forall x: nat, j: nat | x < |t.blocks| && j < |t.blocks[x]| && Abstract(t.blocks[x][j].key).user == Rank(user)
      ensures mayMatch(x)
    {
      RankEmbedsOrder(t.blocks[x][j].key.user, user);
    }
    InternalGetIsTableGet(t, Rank(user), s, mayMatch);
  }

  /** What the callback makes of the entry found. */
  function Answer(found: Option<Pair>, user: bytes): Outcome
  {
    if found.None? then NotFound
    else
      match ParseKey(found.value.key)
      case None => NotFound
      case Some(k) => if k.user != user then NotFound else if k.kind.Value? then Found(found.value.value) else Deleted
  }

  lemma {:induction false} BlockAnswers(rows: seq<Row>, user: bytes, s: nat, k: nat)
    requires RowsOk(rows) && s <= MAX_SEQUENCE
    requires LowerBound(InternalLess, PairsOf(rows), EncodeKey(StoredKey(user, s, Value)), k)
    ensures Answer(if k < |rows| then Some(PairsOf(rows)[k]) else None, user) ==
            TableGet(EntriesOf(rows), Rank(user), s)
  {
    hide InternalLess, EncodeKey, ParseKey, Rank;
    BoundIsSeek(rows, StoredKey(user, s, Value), k);
    if k < |rows| {
      ParseRoundTrip(rows[k].key);
      RankEmbedsOrder(rows[k].key.user, user);
    }
  }

  lemma {:induction false} TableFacts(file: bytes, t: Table, p: Places, hash: Hash, filterKey: bytes)
    requires Readable(file, t, p, hash, filterKey)
    ensures TableOk(t) && KeysOk(t.index) && RowsOk(Flatten(t.blocks)) && |p.data| == |t.blocks| == |t.index|
  {
    hide KeysOk, RowsOk, Flatten, PairsAt, EndsWith, IndexPairs, EncodeHandle;
  }

  /** The handle that the index gives for the key, and the block it is of. */
  method SeekIndexBlock(o: OpenTable, ghost hash: Hash, user: bytes, s: nat, ghost t: Table, ghost p: Places,
                        ghost filterKey: bytes)
    returns (r: Option<Handle>, ghost i: nat)
    requires Readable(o.file, t, p, hash, filterKey) && IndexAt(o.index, t, p) && s <= MAX_SEQUENCE
    ensures i == SeekIndex(t.index, LookupKey(Rank(user), s))
    ensures i <= |p.data| && r == if i < |p.data| then Some(p.data[i]) else None
  {
    hide Sized, Block, InternalLess, EncodeKey, Increasing, LowerBound, Strict, TableFileOf, TableOk, KeysOk, RowsOk,
         Flatten, DecodeHandle, EncodeHandle,
         SeekIndex, Rank;
    TableFacts(o.file, t, p, hash, filterKey);
    ghost var L := IndexLayout(o.index, t, p);
    InternalStrict();
    IndexIncreases(t, p.data);
    var target := StoredKey(user, s, Value);
    var found, k := SeekBlock(o.index, InternalLess, EncodeKey(target), L) by { SizedIsGood(L); }
    IndexBound(t.index, p.data, target, k);
    i, r := k, None;
    if found.Some? {
      DataHandleReads(o.file, t, p, hash, filterKey, k);
      var handle := DecodeHandle(found.value.value);
      r := Some(handle.value.0);
    }
  }

  lemma {:induction false} IndexLayout(index: bytes, t: Table, p: Places) returns (L: Layout)
    requires IndexAt(index, t, p)
    ensures Sized(L) && L.entries == IndexPairs(t.index, p.data) && index == Block(L)
  {
    hide Good, Block, IndexPairs;
    L :| Sized(L) && L.entries == IndexPairs(t.index, p.data) && index == Block(L);
  }

  lemma {:induction false} DataHandleReads(file: bytes, t: Table, p: Places, hash: Hash, filterKey: bytes, k: nat)
    requires Readable(file, t, p, hash, filterKey) && k < |p.data|
    ensures DecodeHandle(EncodeHandle(p.data[k])) == Some((p.data[k], []))
  {
    hide KeysOk, RowsOk, Flatten, EndsWith, IndexPairs, EncodeHandle, DecodeHandle, TableOk, PairsOf, PairsAt, Sized,
         Block, BlockAt, HandleOk,
         FilterAdmits;
    var L := SmallPairs(file, p.data[k], PairsOf(t.blocks[k]));
    HandleRoundTrip(p.data[k], []);
    assert EncodeHandle(p.data[k]) + [] == EncodeHandle(p.data[k]);
  }

  /** The answer of one data block. */
  method SeekDataBlock(file: bytes, handle: Handle, user: bytes, s: nat, verify: bool, ghost t: Table, ghost p: Places,
                       ghost i: nat, ghost hash: Hash,
                       ghost filterKey: bytes)
    returns (r: Outcome)
    requires Readable(file, t, p, hash, filterKey) && i < |p.data| == |t.blocks| && handle == p.data[i]
    requires s <= MAX_SEQUENCE
    ensures r == TableGet(EntriesOf(t.blocks[i]), Rank(user), s)
  {
    hide Sized, Block, InternalLess, EncodeKey, Increasing, LowerBound, Strict, TableFileOf, TableOk, KeysOk, RowsOk,
         Flatten, Rank, TableGet, BlockAt,
         HandleOk, ParseKey;
    TableFacts(file, t, p, hash, filterKey);
    ghost var L := DataLayout(file, t, p, hash, filterKey, i);
    InternalStrict();
    BlockRows(t, i);
    RowsIncrease(t.blocks[i]);
    var contents := ReadBlock(file, handle, verify, Block(L)) by { SizedIsGood(L); }
    var found, k :=
        SeekBlock(contents.value, InternalLess, EncodeKey(StoredKey(user, s, Value)), L) by { SizedIsGood(L); }
    BlockAnswers(t.blocks[i], user, s, k);
    r := Answer(found, user);
  }

  lemma {:induction false} DataLayout(file: bytes, t: Table, p: Places, hash: Hash, filterKey: bytes, i: nat)
    returns (L: Layout)
    requires Readable(file, t, p, hash, filterKey) && i < |p.data| == |t.blocks|
    ensures Sized(L) && L.entries == PairsOf(t.blocks[i]) && BlockAt(file, p.data[i], Block(L))
  {
    hide KeysOk, RowsOk, Flatten, EndsWith, IndexPairs, EncodeHandle, TableOk, PairsOf, PairsAt, Sized, Block, BlockAt;
    L := SmallPairs(file, p.data[i], PairsOf(t.blocks[i]));
  }

  /** The rows of one block are rows of the table. */
  lemma {:induction false} BlockRows(t: Table, i: nat)
    requires TableOk(t) && RowsOk(Flatten(t.blocks)) && i < |t.blocks|
    ensures RowsSorted(t.blocks[i]) && RowsOk(t.blocks[i])
  {
    hide Flatten, Size, Indexed, Abstract;
    var rows, a := t.blocks[i], Size(t.blocks, i);
    BlockPlace(t.blocks, i);
    forall j | 0 <= j < |rows| ensures rows[j] == Flatten(t.blocks)[a + j] { RowAt(t.blocks, i, j); }
  }

  /** `InternalGet`: seek the index block, ask the filter, read one data block, seek it. The answer is that of a
      lookup in all the rows of the table. */
  method InternalGet(o: OpenTable, hash: Hash, user: bytes, s: nat, verify: bool, ghost t: Table, ghost p: Places,
                     ghost filterKey: bytes)
    returns (r: Outcome)
    requires Readable(o.file, t, p, hash, filterKey) && Opens(o, o.file, t, p, hash) && s <= MAX_SEQUENCE
    ensures r == TableGet(EntriesOf(Flatten(t.blocks)), Rank(user), s)
  {
    hide TableFileOf, IndexAt, FilterAdmits, MayMatch, InternalLess, EncodeKey, TableGet, Flatten, Answer;
    var target := EncodeKey(StoredKey(user, s, Value));
    var entry, i := SeekIndexBlock(o, hash, user, s, t, p, filterKey);
    TableFacts(o.file, t, p, hash, filterKey);
    LookupAnswers(t, p, o.filter, hash, user, s, i);
    if entry.None? {
      return NotFound;
    }
    var handle := entry.value;
    if o.filter.Some? {
      var may := KeyMayMatch(hash, o.filter.value, handle.offset, user);
      if !may {
        return NotFound;
      }
    }
    r := SeekDataBlock(o.file, handle, user, s, verify, t, p, i, hash, filterKey);
  }

  // ----- round trip

  /** `BuildTable`: the rows in order, then the end of the file. */
  method BuildTable(rows: seq<Row>, hash: Hash, bitsPerKey: Option<nat>, filterKey: bytes, interval: nat,
                    blockSize: nat)
    returns (file: bytes, ghost t: Table, ghost p: Places)
    requires RowsSorted(rows) && RowsOk(rows) && interval >= 1
    ensures TableFileOf(file, t, p, hash, filterKey) && Flatten(t.blocks) == rows
    ensures (p.filter.Some? <==> bitsPerKey.Some?)
  {
    hide TableFileOf, RowsSorted, RowsOk, BuildingOk, BlocksAt, FilterAdded, PairsOf, IndexPairs, RowsOf, Good, Block,
         Data, RestartOffsets, Flatten,
         Spelled, Generated, Grouped;
    var builder := new TableBuilder(hash, bitsPerKey, filterKey, interval, blockSize);
    builder.AddAll(rows);
    t, p := builder.Finish();
    file := builder.file;
  }

  /** Building a table file from sorted rows, opening it and looking a key up gives what looking it up in the rows
      gives, whatever the block size, the restart interval, the filter and the reader's checks. */
  method BuildAndGet(rows: seq<Row>, hash: Hash, bitsPerKey: Option<nat>, filterKey: bytes, interval: nat,
                     blockSize: nat,
                     policy: Option<bytes>, verify: bool, user: bytes, s: nat)
    returns (file: bytes, r: Outcome)
    requires RowsSorted(rows) && RowsOk(rows) && interval >= 1 && s <= MAX_SEQUENCE
    ensures |file| < WORD32 ==> r == TableGet(EntriesOf(rows), Rank(user), s)
  {
    hide TableFileOf, RowsSorted, RowsOk, Flatten, TableGet, IndexAt, FilterAdmits;
    ghost var t, p;
    file, t, p := BuildTable(rows, hash, bitsPerKey, filterKey, interval, blockSize);
    r := NotFound;
    if |file| < WORD32 {
      var o := Open(file, policy, verify, t, p, hash, filterKey);
      r := InternalGet(o.value, hash, user, s, verify, t, p, filterKey);
    }
  }
}
