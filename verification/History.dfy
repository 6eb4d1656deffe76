/** Write batches and the order they impose: each batch takes the sequence numbers that
    follow those of the batch before it. */
module History {
  import opened Ordering

  datatype Op = Put(key: UserKey, value: Val) | Delete(key: UserKey)

  datatype Batch = Batch(sequence: nat, ops: seq<Op>)

  function EntryOf(op: Op, sequence: nat): Entry
  {
    match op
    case Put(k, v) => Entry(InternalKey(k, sequence, Value), v)
    case Delete(k) => Entry(InternalKey(k, sequence, Deletion), [])
  }

  function EntryAt(b: Batch, i: nat): Entry
    requires i < |b.ops|
  {
    EntryOf(b.ops[i], b.sequence + i)
  }

  ghost function BatchEntries(b: Batch): set<Entry>
  {
    set i | 0 <= i < |b.ops| :: EntryAt(b, i)
  }

  /** All entries written by some batches. */
  ghost function Written(h: seq<Batch>): set<Entry>
  {
    set b, e | b in h && e in BatchEntries(b) :: e
  }

  /** The last sequence number used after some batches. */
  function End(h: seq<Batch>): nat
  {
    if h == [] then 0 else End(h[..|h| - 1]) + |h[|h| - 1].ops|
  }

  /** Each batch starts right after the end of those before it. */
  ghost predicate Contiguous(h: seq<Batch>)
  {
    forall i :: 0 <= i < |h| ==> h[i].sequence == End(h[..i]) + 1
  }

  lemma {:induction false} EndMonotone(h: seq<Batch>, i: nat, j: nat)
    requires i <= j <= |h|
    ensures End(h[..i]) <= End(h[..j])
    decreases j
  {
    if i < j {
      assert h[..j][..j - 1] == h[..j - 1];
      EndMonotone(h, i, j - 1);
    }
  }

  lemma {:induction false} EndSnoc(h: seq<Batch>, b: Batch)
    ensures End(h + [b]) == End(h) + |b.ops|
  {
    assert (h + [b])[..|h|] == h;
  }

  lemma {:induction false} ContiguousSnoc(h: seq<Batch>, b: Batch)
    requires Contiguous(h) && b.sequence == End(h) + 1
    ensures Contiguous(h + [b])
  {
    var g := h + [b];
    forall i | 0 <= i < |g|
      ensures g[i].sequence == End(g[..i]) + 1
    {
      assert g[..i] == if i < |h| then h[..i] else h;
    }
  }

  lemma {:induction false} ContiguousPrefix(h: seq<Batch>, k: nat)
    requires Contiguous(h) && k <= |h|
    ensures Contiguous(h[..k])
  {
    forall i | 0 <= i < k
      ensures h[..k][i].sequence == End(h[..k][..i]) + 1
    {
      assert h[..k][..i] == h[..i];
    }
  }

  /** Entry numbers of batch `i` lie between the ends before and after it. */
  lemma {:induction false} BatchRange(h: seq<Batch>, i: nat, e: Entry)
    requires Contiguous(h) && i < |h| && e in BatchEntries(h[i])
    ensures End(h[..i]) < e.key.sequence <= End(h[..i + 1])
  {
    assert h[..i + 1][..i] == h[..i];
  }

  lemma {:induction false} InPrefix(h: seq<Batch>, k: nat, e: Entry)
    requires Contiguous(h) && k <= |h| && e in Written(h[..k])
    ensures 0 < e.key.sequence <= End(h[..k])
  {
    var b :| b in h[..k] && e in BatchEntries(b);
    var i :| 0 <= i < k && h[..k][i] == b;
    assert h[i] == b;
    BatchRange(h, i, e);
    EndMonotone(h, i + 1, k);
  }

  lemma {:induction false} InSuffix(h: seq<Batch>, k: nat, e: Entry)
    requires Contiguous(h) && k <= |h| && e in Written(h[k..])
    ensures End(h[..k]) < e.key.sequence <= End(h)
  {
    var b :| b in h[k..] && e in BatchEntries(b);
    var i :| 0 <= i < |h| - k && h[k..][i] == b;
    assert h[k + i] == b;
    BatchRange(h, k + i, e);
    EndMonotone(h, k, k + i);
    EndMonotone(h, k + i + 1, |h|);
    assert h[..|h|] == h;
  }

  lemma {:induction false} WrittenSplit(h: seq<Batch>, k: nat)
    requires k <= |h|
    ensures Written(h) == Written(h[..k]) + Written(h[k..])
  {
    assert h == h[..k] + h[k..];
  }

  lemma {:induction false} WrittenConcat(g: seq<Batch>, h: seq<Batch>)
    ensures Written(g + h) == Written(g) + Written(h)
  {
  }

  lemma {:induction false} WrittenOne(b: Batch)
    ensures Written([b]) == BatchEntries(b)
  {
    assert [b][0] in [b];
  }

  /** No sequence number is used twice. */
  lemma {:induction false} WrittenUnique(h: seq<Batch>)
    requires Contiguous(h)
    ensures UniqueSeqs(Written(h))
  {
    forall d, e | d in Written(h) && e in Written(h) && d.key.user == e.key.user && d.key.sequence == e.key.sequence
      ensures d == e
    {
      var i := BatchOf(h, d);
      var j := BatchOf(h, e);
      BatchRange(h, i, d);
      BatchRange(h, j, e);
      if i < j {
        EndMonotone(h, i + 1, j);
      } else if j < i {
        EndMonotone(h, j + 1, i);
      } else {
        var x :| 0 <= x < |h[i].ops| && EntryAt(h[i], x) == d;
        var y :| 0 <= y < |h[i].ops| && EntryAt(h[i], y) == e;
      }
    }
  }

  lemma {:induction false} BatchOf(h: seq<Batch>, e: Entry) returns (i: nat)
    requires e in Written(h)
    ensures i < |h| && e in BatchEntries(h[i])
  {
    var b :| b in h && e in BatchEntries(b);
    i :| 0 <= i < |h| && h[i] == b;
  }

  // ----- the history as a list of operations

  /** The operations of some batches, one after the other. */
  function AllOps(h: seq<Batch>): seq<Op>
  {
    if h == [] then [] else AllOps(h[..|h| - 1]) + h[|h| - 1].ops
  }

  lemma {:induction false} AllOpsSnoc(h: seq<Batch>, b: Batch)
    ensures AllOps(h + [b]) == AllOps(h) + b.ops
  {
    assert (h + [b])[..|h|] == h;
  }

  lemma {:induction false} EndIsCount(h: seq<Batch>)
    ensures End(h) == |AllOps(h)|
  {
    if h != [] {
      EndIsCount(h[..|h| - 1]);
    }
  }

  lemma {:induction false} AllOpsConcat(g: seq<Batch>, h: seq<Batch>)
    ensures AllOps(g + h) == AllOps(g) + AllOps(h)
  {
    if h == [] {
      assert g + h == g && AllOps(h) == [];
    } else {
      hide AllOps;
      var k := |h| - 1;
      AllOpsConcat(g, h[..k]);
      assert g + h == g + h[..k] + [h[k]] && h == h[..k] + [h[k]];
      AllOpsSnoc(g + h[..k], h[k]);
      AllOpsSnoc(h[..k], h[k]);
      assert AllOps(g) + AllOps(h[..k]) + h[k].ops == AllOps(g) + (AllOps(h[..k]) + h[k].ops);
    }
  }

  /** The entry of some operation, under the number of its place. */
  ghost predicate Numbered(ops: seq<Op>, e: Entry)
  {
    exists k :: 0 <= k < |ops| && e == EntryOf(ops[k], k + 1)
  }

  /** Operation `k` of the history is written under sequence number `k + 1`, and nothing else is written. */
  lemma {:induction false} WrittenIsNumbered(h: seq<Batch>, e: Entry)
    requires Contiguous(h)
    ensures e in Written(h) <==> Numbered(AllOps(h), e)
  {
    if h != [] {
      hide Numbered, BatchEntries;
      var j := |h| - 1;
      var b, before := h[j], AllOps(h[..j]);
      EndIsCount(h[..j]);
      WrittenSplit(h, j);
      assert h[j..] == [b] && b.sequence == |before| + 1;
      WrittenOne(b);
      hide Written, End;
      ContiguousPrefix(h, j);
      WrittenIsNumbered(h[..j], e);
      NumberedSnoc(before, b, e);
    }
  }

  lemma {:induction false} NumberedSnoc(before: seq<Op>, b: Batch, e: Entry)
    requires b.sequence == |before| + 1
    ensures Numbered(before + b.ops, e) <==> Numbered(before, e) || e in BatchEntries(b)
  {
    var all := before + b.ops;
    if k :| 0 <= k < |all| && e == EntryOf(all[k], k + 1) {
      if k >= |before| { assert e == EntryAt(b, k - |before|); }
    }
    if k :| 0 <= k < |before| && e == EntryOf(before[k], k + 1) {
      assert all[k] == before[k];
    }
    if e in BatchEntries(b) {
      var i :| 0 <= i < |b.ops| && e == EntryAt(b, i);
      assert all[|before| + i] == b.ops[i];
    }
  }

  // ----- the history as a map

  /** What one operation does to a plain map. */
  function Apply(m: map<UserKey, Val>, op: Op): map<UserKey, Val>
  {
    match op
    case Put(k, v) => m[k := v]
    case Delete(k) => m - {k}
  }

  /** The map that some operations leave, done one after the other on an empty one. */
  function Store(ops: seq<Op>): map<UserKey, Val>
  {
    if ops == [] then map[] else Apply(Store(ops[..|ops| - 1]), ops[|ops| - 1])
  }

  lemma {:induction false} StoreSnoc(ops: seq<Op>, s: nat)
    requires s < |ops|
    ensures Store(ops[..s + 1]) == Apply(Store(ops[..s]), ops[s])
  {
    assert ops[..s + 1][..s] == ops[..s];
  }

  /** Reading entries by their sequence numbers is looking up in the map of the first `s` operations. */
  lemma {:induction false} ReadsAsStore(h: seq<Batch>, u: UserKey, s: nat)
    requires Contiguous(h) && s <= End(h)
    ensures s <= |AllOps(h)| && View(Written(h), u, s) == Lookup(Store(AllOps(h)[..s]), u)
  {
    EndIsCount(h);
    WrittenUnique(h);
    forall e ensures e in Written(h) <==> Numbered(AllOps(h), e) {
      WrittenIsNumbered(h, e);
    }
    NumberedReadsAsStore(Written(h), AllOps(h), u, s);
  }

  lemma {:induction false} NumberedReadsAsStore(E: set<Entry>, ops: seq<Op>, u: UserKey, s: nat)
    requires UniqueSeqs(E) && s <= |ops|
    requires forall e :: e in E <==> Numbered(ops, e)
    ensures View(E, u, s) == Lookup(Store(ops[..s]), u)
  {
    hide Store, View;
    if s == 0 {
      ViewOfNone(E, u, s);
      assert ops[..0] == [];
      NothingStored();
    } else {
      StoreSnoc(ops, s - 1);
      var e := EntryOf(ops[s - 1], s);
      assert Numbered(ops, e) by { assert e == EntryOf(ops[s - 1], s - 1 + 1); }
      assert e in E;
      if ops[s - 1].key == u {
        ViewOfNewest(E, u, s, e);
      } else {
        NumberedReadsAsStore(E, ops, u, s - 1);
        forall d | d in E ensures Visible(d, u, s) == Visible(d, u, s - 1) {}
        SameVisible(E, u, s, s - 1);
      }
    }
  }

  lemma {:induction false} NothingStored()
    ensures Store([]) == map[]
  {
  }

  lemma {:induction false} SameVisible(E: set<Entry>, u: UserKey, s: nat, t: nat)
    requires UniqueSeqs(E) && forall d :: d in E ==> Visible(d, u, s) == Visible(d, u, t)
    ensures View(E, u, s) == View(E, u, t)
  {
    ViewCases(E, u, s);
    if e :| Newest(E, u, s, e) && View(E, u, s) == Reading(e) {
      ViewOfNewest(E, u, t, e);
    } else {
      ViewOfNone(E, u, t);
    }
  }

  /** The last operation on a key decides; without one the key is absent. */
  lemma {:induction false} LastDecides(ops: seq<Op>, u: UserKey)
    ensures (forall k :: 0 <= k < |ops| ==> ops[k].key != u) ==> u !in Store(ops)
    ensures forall k :: LastOn(ops, k, u) && ops[k].Delete? ==> u !in Store(ops)
    ensures forall k :: LastOn(ops, k, u) && ops[k].Put? ==> u in Store(ops) && Store(ops)[u] == ops[k].value
  {
    if ops != [] {
      var n := |ops| - 1;
      LastDecides(ops[..n], u);
      forall k | LastOn(ops, k, u) && k < n ensures LastOn(ops[..n], k, u) {}
    }
  }

  /** Operation `k` is on `u` and none after it is. */
  ghost predicate LastOn(ops: seq<Op>, k: int, u: UserKey)
  {
    0 <= k < |ops| && ops[k].key == u && forall j :: k < j < |ops| ==> ops[j].key != u
  }

  // ----- memtables

  /** A memtable is the sorted run of the entries added to it. */
  function InsertEntry(mem: seq<Entry>, e: Entry): seq<Entry>
  {
    if mem == [] || Less(e.key, mem[0].key) then [e] + mem else [mem[0]] + InsertEntry(mem[1..], e)
  }

  function InsertOps(mem: seq<Entry>, b: Batch, n: nat): seq<Entry>
    requires n <= |b.ops|
  {
    if n == 0 then mem else InsertEntry(InsertOps(mem, b, n - 1), EntryAt(b, n - 1))
  }

  /** The entry made of operation `i` of the batch. */
  ghost predicate Stores(b: Batch, i: nat, e: Entry)
    requires i < |b.ops|
  {
    var op := b.ops[i];
    && e.key.user == op.key && e.key.sequence == b.sequence + i
    && (op.Put? ==> e.key.kind == Value && e.value == op.value)
    && (op.Delete? ==> e.key.kind == Deletion && e.value == [])
  }

  /** `WriteBatchInternal::InsertInto`: the operations in order, one sequence number each. */
  method InsertInto(mem: seq<Entry>, b: Batch) returns (r: seq<Entry>)
    ensures r == InsertOps(mem, b, |b.ops|)
    ensures Sorted(mem) && (forall d :: d in mem ==> d.key.sequence < b.sequence) ==>
              Sorted(r) && forall e :: e in r <==> e in mem || exists i :: 0 <= i < |b.ops| && Stores(b, i, e)
  {
    if Sorted(mem) && (forall d :: d in mem ==> d.key.sequence < b.sequence) {
      InsertedExactly(mem, b);
    }
    hide Sorted, Stores, InsertEntry;
    r := mem;
    var sequence := b.sequence;
    for i := 0 to |b.ops|
      invariant r == InsertOps(mem, b, i) && sequence == b.sequence + i
    {
      r := InsertEntry(r, EntryOf(b.ops[i], sequence));
      sequence := sequence + 1;
    }
  }

  lemma {:induction false} InsertEntrySorted(mem: seq<Entry>, e: Entry)
    requires Sorted(mem) && forall d :: d in mem ==> d.key != e.key
    ensures Sorted(InsertEntry(mem, e)) && SetOf(InsertEntry(mem, e)) == SetOf(mem) + {e}
  {
    if mem == [] || Less(e.key, mem[0].key) {
      forall i | 0 <= i < |mem| ensures Less(e.key, mem[i].key) {}
    } else {
      InsertEntrySorted(mem[1..], e);
      assert mem == [mem[0]] + mem[1..] && mem[0] in mem;
      assert SetOf(mem) == {mem[0]} + SetOf(mem[1..]);
      HeadStaysLeast(mem, e, InsertEntry(mem[1..], e));
    }
  }

  lemma {:induction false} HeadStaysLeast(mem: seq<Entry>, e: Entry, tail: seq<Entry>)
    requires mem != [] && Sorted(mem) && Less(mem[0].key, e.key) && Sorted(tail)
    requires SetOf(tail) == SetOf(mem[1..]) + {e}
    ensures Sorted([mem[0]] + tail) && SetOf([mem[0]] + tail) == {mem[0]} + SetOf(tail)
  {
    forall i | 0 <= i < |tail|
      ensures Less(mem[0].key, tail[i].key)
    {
      assert tail[i] in SetOf(tail);
      if tail[i] != e {
        var j :| 0 <= j < |mem[1..]| && mem[1..][j] == tail[i];
        assert mem[j + 1] == tail[i];
      }
    }
  }

  /** Inserting a batch whose numbers are all new keeps the run sorted and adds its entries. */
  lemma {:induction false} InsertOpsSorted(mem: seq<Entry>, b: Batch, n: nat)
    requires Sorted(mem) && n <= |b.ops| && forall d :: d in mem ==> d.key.sequence < b.sequence
    ensures Sorted(InsertOps(mem, b, n))
    ensures SetOf(InsertOps(mem, b, n)) == SetOf(mem) + set i | 0 <= i < n :: EntryAt(b, i)
  {
    hide Sorted, InsertEntry;
    if n > 0 {
      InsertOpsSorted(mem, b, n - 1);
      var r, e := InsertOps(mem, b, n - 1), EntryAt(b, n - 1);
      forall d | d in r
        ensures d.key != e.key
      {
        assert d in SetOf(r);
      }
      InsertEntrySorted(r, e);
    }
  }

  lemma {:induction false} InsertedExactly(mem: seq<Entry>, b: Batch)
    requires Sorted(mem) && forall d :: d in mem ==> d.key.sequence < b.sequence
    ensures var r := InsertOps(mem, b, |b.ops|);
            Sorted(r) && forall e :: e in r <==> e in mem || exists i :: 0 <= i < |b.ops| && Stores(b, i, e)
  {
    var r := InsertOps(mem, b, |b.ops|);
    InsertOpsSorted(mem, b, |b.ops|);
    hide Sorted, InsertOps;
    forall e ensures e in r <==> e in mem || exists i :: 0 <= i < |b.ops| && Stores(b, i, e) {
      assert e in r <==> e in SetOf(r);
      if i :| 0 <= i < |b.ops| && Stores(b, i, e) {
        assert e == EntryAt(b, i);
      }
      if i :| 0 <= i < |b.ops| && e == EntryAt(b, i) {
        assert Stores(b, i, e);
      }
    }
  }
}
