/** Prefix-compressed blocks: the builder, and the iterator with its binary search over
    restart points. */
module Blocks {
  import opened Coding
  import opened Wrappers

  datatype Pair = Pair(key: bytes, value: bytes)

  /** How some entries are laid out: the length of the prefix each shares with the key before
      it, and the entries that are restart points. */
  datatype Layout = Layout(entries: seq<Pair>, shared: seq<nat>, heads: seq<nat>)

  ghost predicate Fit(L: Layout)
  {
    |L.shared| == |L.entries| && forall i :: 0 <= i < |L.entries| ==> L.shared[i] <= |L.entries[i].key|
  }

  ghost predicate SharesPrefix(L: Layout, k: nat)
    requires Fit(L) && k < |L.entries|
  {
    var s := L.shared[k];
    if k == 0 then s == 0
    else s <= |L.entries[k - 1].key| && L.entries[k].key[..s] == L.entries[k - 1].key[..s]
  }

  ghost predicate Good(L: Layout)
  {
    && Fit(L)
    && (forall k :: 0 <= k < |L.entries| ==> SharesPrefix(L, k))
    && |L.heads| >= 1 && L.heads[0] == 0
    && (forall r, q :: 0 <= r < q < |L.heads| ==> L.heads[r] < L.heads[q])
    && (L.entries == [] ==> |L.heads| == 1)
    && (forall r :: 0 <= r < |L.heads| && L.entries != [] ==> L.heads[r] < |L.entries| && L.shared[L.heads[r]] == 0)
  }

  function Lengths(shared: nat, rest: nat, value: nat): (b: bytes)
    ensures |b| >= 3
  {
    Varint(shared) + Varint(rest) + Varint(value)
  }

  function PieceOf(shared: nat, e: Pair): (b: bytes)
    requires shared <= |e.key|
    ensures |b| >= 3
  {
    Lengths(shared, |e.key| - shared, |e.value|) + e.key[shared..] + e.value
  }

  /** The first `k` entries as bytes. */
  ghost function Bytes(L: Layout, k: nat): bytes
    requires Fit(L) && k <= |L.entries|
  {
    if k == 0 then [] else Bytes(L, k - 1) + PieceOf(L.shared[k - 1], L.entries[k - 1])
  }

  /** Where entry `k` starts. */
  ghost function Off(L: Layout, k: nat): nat
    requires Fit(L) && k <= |L.entries|
  {
    |Bytes(L, k)|
  }

  ghost function Data(L: Layout): bytes
    requires Fit(L)
  {
    Bytes(L, |L.entries|)
  }

  lemma {:induction false} BytesPrefix(L: Layout, k: nat, m: nat)
    requires Fit(L) && k <= m <= |L.entries|
    ensures Bytes(L, k) <= Bytes(L, m)
  {
    if k < m {
      hide PieceOf;
      BytesPrefix(L, k, m - 1);
    }
  }

  lemma {:induction false} OffMonotone(L: Layout, k: nat, m: nat)
    requires Fit(L) && k <= m <= |L.entries|
    ensures Off(L, k) <= Off(L, m) && (k < m ==> Off(L, k) < Off(L, m))
  {
    hide PieceOf;
    if k < m {
      assert Bytes(L, k + 1) == Bytes(L, k) + PieceOf(L.shared[k], L.entries[k]);
      BytesPrefix(L, k + 1, m);
    }
  }

  lemma {:induction false} PieceAt(L: Layout, k: nat)
    requires Fit(L) && k < |L.entries|
    ensures L.shared[k] <= |L.entries[k].key| && Off(L, k) < Off(L, k + 1) <= |Data(L)|
    ensures Data(L)[Off(L, k)..Off(L, k + 1)] == PieceOf(L.shared[k], L.entries[k])
  {
    hide PieceOf;
    assert Bytes(L, k + 1) == Bytes(L, k) + PieceOf(L.shared[k], L.entries[k]);
    BytesPrefix(L, k + 1, |L.entries|);
    var d, b := Data(L), Bytes(L, k + 1);
    assert d[..|b|] == b;
    assert d[Off(L, k)..Off(L, k + 1)] == b[|Bytes(L, k)|..];
  }

  // ----- decoding the lengths

  datatype Lens = Lens(shared: nat, rest: nat, value: nat, size: nat)

  /** `DecodeEntry`: three small lengths take a byte each; otherwise they are varints. */
  function DecodeEntry(b: bytes): (r: Option<Lens>)
    ensures r.Some? ==> r.value.size + r.value.rest + r.value.value <= |b|
  {
    if |b| < 3 then None
    else if b[0] < 128 && b[1] < 128 && b[2] < 128 then Checked(b, Lens(b[0], b[1], b[2], 3))
    else
      match GetVarint32(b)
      case None => None
      case Some((shared, b1)) =>
        match GetVarint32(b1)
        case None => None
        case Some((rest, b2)) =>
          match GetVarint32(b2)
          case None => None
          case Some((value, b3)) => Checked(b, Lens(shared, rest, value, |b| - |b3|))
  }

  function Checked(b: bytes, n: Lens): (r: Option<Lens>)
    requires n.size <= |b|
    ensures r.Some? ==> r.value.size + r.value.rest + r.value.value <= |b|
  {
    if |b| - n.size < n.rest + n.value then None else Some(n)
  }

  lemma {:induction false} VarintHead(n: nat)
    ensures n < 128 <==> Varint(n)[0] < 128
    ensures n < 128 ==> Varint(n) == [n]
  {
  }

  /** Decoding finds the lengths that were encoded, on either path. */
  lemma {:induction false} LengthsRoundTrip(shared: nat, rest: nat, value: nat, tail: bytes)
    requires shared < WORD32 && rest < WORD32 && value < WORD32 && rest + value <= |tail|
    ensures DecodeEntry(Lengths(shared, rest, value) + tail) ==
            Some(Lens(shared, rest, value, |Lengths(shared, rest, value)|))
  {
    var s, r, v := Varint(shared), Varint(rest), Varint(value);
    var b := s + r + v + tail;
    VarintHead(shared);
    VarintHead(rest);
    VarintHead(value);
    hide Varint, GetVarint32;
    if shared < 128 && rest < 128 && value < 128 {
      assert b[0] == shared && b[1] == rest && b[2] == value;
    } else {
      assert b == s + (r + (v + tail)) && r + (v + tail) == r + v + tail;
      Varint32RoundTrip(shared, r + (v + tail));
      Varint32RoundTrip(rest, v + tail);
      Varint32RoundTrip(value, tail);
      if shared < 128 {
        assert b[1] == r[0];
        if rest < 128 { assert b[2] == v[0]; }
      }
    }
  }

  // ----- restart points

  function Fixed32s(ns: seq<nat>): (b: bytes)
    ensures |b| == 4 * |ns|
  {
    if ns == [] then [] else Fixed32s(ns[..|ns| - 1]) + Fixed(ns[|ns| - 1], 4)
  }

  ghost function RestartOffsets(L: Layout): (ns: seq<nat>)
    requires Good(L)
    ensures |ns| == |L.heads|
    ensures forall r :: 0 <= r < |L.heads| ==> L.heads[r] <= |L.entries| && ns[r] == Off(L, L.heads[r])
  {
    seq(|L.heads|, r requires 0 <= r < |L.heads| => Off(L, L.heads[r]))
  }

  /** The finished block. */
  ghost function Block(L: Layout): bytes
    requires Good(L)
  {
    Data(L) + Fixed32s(RestartOffsets(L)) + Fixed(|L.heads|, 4)
  }

  lemma {:induction false} Fixed32At(ns: seq<nat>, r: nat)
    requires r < |ns| && ns[r] < WORD32
    ensures Unfixed(Fixed32s(ns)[4 * r..4 * r + 4]) == ns[r]
  {
    var k := |ns| - 1;
    if r == k {
      assert Fixed32s(ns)[4 * r..4 * r + 4] == Fixed(ns[k], 4);
      Width4();
      FixedRoundTrip(ns[k], 4);
    } else {
      Fixed32At(ns[..k], r);
      assert Fixed32s(ns)[4 * r..4 * r + 4] == Fixed32s(ns[..k])[4 * r..4 * r + 4];
    }
  }

  ghost predicate Sized(L: Layout)
  {
    Good(L) && |Block(L)| < WORD32
  }

  lemma {:induction false} RestartAt(L: Layout, r: nat)
    requires Sized(L) && r < |L.heads|
    ensures L.heads[r] <= |L.entries| && |Data(L)| + 4 * r + 4 <= |Block(L)|
    ensures Unfixed(Block(L)[|Data(L)| + 4 * r..|Data(L)| + 4 * r + 4]) == Off(L, L.heads[r])
  {
    GoodHead(L, r);
    hide Good, Fit, Bytes, Fixed32s, Fixed, RestartOffsets, Unfixed;
    var ns := RestartOffsets(L);
    OffMonotone(L, L.heads[r], |L.entries|);
    Fixed32At(ns, r);
    Middle(Data(L), Fixed32s(ns), Fixed(|L.heads|, 4), 4 * r, 4 * r + 4);
  }

  lemma {:induction false} GoodHead(L: Layout, r: nat)
    requires Good(L) && r < |L.heads|
    ensures Fit(L) && L.heads[r] <= |L.entries|
  {
  }

  lemma {:induction false} Middle(a: bytes, b: bytes, c: bytes, lo: nat, hi: nat)
    requires lo <= hi <= |b|
    ensures (a + b + c)[|a| + lo..|a| + hi] == b[lo..hi]
  {
  }

  lemma {:induction false} CountAt(L: Layout)
    requires Sized(L)
    ensures |Block(L)| == |Data(L)| + 4 * |L.heads| + 4
    ensures Unfixed(Block(L)[|Block(L)| - 4..]) == |L.heads|
  {
    GoodHead(L, 0);
    hide Good, Fit, Bytes, Fixed32s, Fixed, RestartOffsets;
    var b := Block(L);
    assert |b| == |Data(L)| + 4 * |L.heads| + 4;
    assert b[|b| - 4..] == Fixed(|L.heads|, 4);
    Width4();
    FixedRoundTrip(|L.heads|, 4);
  }

  // ----- parsing an entry

  /** The bytes `d` start with entry `e`, of which `s` key bytes are shared; it takes `m`. */
  ghost predicate ParsesTo(d: bytes, s: nat, e: Pair, m: nat)
  {
    && s <= |e.key| && |e.key| - s + |e.value| <= m <= |d|
    && var n := Lens(s, |e.key| - s, |e.value|, m - (|e.key| - s) - |e.value|);
       && DecodeEntry(d) == Some(n)
       && d[n.size..n.size + n.rest] == e.key[s..] && d[n.size + n.rest..m] == e.value
  }

  lemma {:induction false} PieceParses(d: bytes, m: nat, s: nat, e: Pair)
    requires m <= |d| < WORD32 && s <= |e.key| < WORD32 && d[..m] == PieceOf(s, e)
    ensures ParsesTo(d, s, e, m)
  {
    hide DecodeEntry, Lengths;
    PieceSplit(d, m, s, e);
    LengthsRoundTrip(s, |e.key| - s, |e.value|, e.key[s..] + e.value + d[m..]);
  }

  lemma {:induction false} PieceSplit(d: bytes, m: nat, s: nat, e: Pair)
    requires m <= |d| && s <= |e.key| && d[..m] == PieceOf(s, e)
    ensures var h := Lengths(s, |e.key| - s, |e.value|);
            && m == |h| + |e.key| - s + |e.value|
            && d == h + (e.key[s..] + e.value + d[m..])
            && d[|h|..|h| + |e.key| - s] == e.key[s..] && d[|h| + |e.key| - s..m] == e.value
  {
    hide Lengths;
    var h := Lengths(s, |e.key| - s, |e.value|);
    assert d == d[..m] + d[m..];
    var x, y := |h|, |h| + |e.key| - s;
    assert d[x..y] == d[..m][x..y] && d[y..m] == d[..m][y..m];
  }

  /** A key is no longer than the bytes written up to its entry's end. */
  lemma {:induction false} KeyBound(L: Layout, k: nat)
    requires Good(L) && k < |L.entries|
    ensures |L.entries[k].key| <= Off(L, k + 1)
  {
    assert SharesPrefix(L, k);
    if k > 0 {
      KeyBound(L, k - 1);
    }
  }

  lemma {:induction false} EntryAt(L: Layout, k: nat)
    requires Sized(L) && k < |L.entries|
    ensures Fit(L) && Off(L, k) < Off(L, k + 1) <= |Data(L)|
    ensures ParsesTo(Data(L)[Off(L, k)..], L.shared[k], L.entries[k], Off(L, k + 1) - Off(L, k))
  {
    hide Sized, Good, Bytes, PieceOf, ParsesTo, Off, Data;
    DataSmall(L);
    KeyBound(L, k);
    PieceAt(L, k);
    var d, a, b := Data(L), Off(L, k), Off(L, k + 1);
    assert d[a..][..b - a] == d[a..b];
    PieceParses(d[a..], b - a, L.shared[k], L.entries[k]);
  }

  lemma {:induction false} DataSmall(L: Layout)
    requires Sized(L)
    ensures Good(L) && Fit(L) && |Data(L)| < WORD32
  {
  }

  // ----- keys in order

  /** The comparator's order. */
  type Order = (bytes, bytes) -> bool

  ghost predicate Strict(less: Order)
  {
    && (forall a :: !less(a, a))
    && (forall a, b, c :: less(a, b) && less(b, c) ==> less(a, c))
    && (forall a, b :: a != b ==> less(a, b) || less(b, a))
  }

  ghost predicate Increasing(less: Order, entries: seq<Pair>)
  {
    forall i, j :: 0 <= i < j < |entries| ==> less(entries[i].key, entries[j].key)
  }

  /** `k` is the first entry whose key is not below the target. */
  ghost predicate LowerBound(less: Order, entries: seq<Pair>, target: bytes, k: nat)
  {
    && k <= |entries|
    && (forall j :: 0 <= j < k ==> less(entries[j].key, target))
    && (k < |entries| ==> !less(entries[k].key, target))
  }

  /** All entries up to and including one below the target are below it; from one that is not
      below it on, none is. */
  lemma {:induction false} BelowSpreads(less: Order, entries: seq<Pair>, target: bytes, i: nat)
    requires Strict(less) && Increasing(less, entries) && i < |entries|
    ensures less(entries[i].key, target) ==> forall j :: 0 <= j <= i ==> less(entries[j].key, target)
    ensures !less(entries[i].key, target) ==> forall j :: i <= j < |entries| ==> !less(entries[j].key, target)
  {
  }

  lemma {:induction false} EqualIsBound(less: Order, entries: seq<Pair>, target: bytes, i: nat)
    requires Strict(less) && Increasing(less, entries) && i < |entries|
    requires !less(entries[i].key, target) && !less(target, entries[i].key)
    ensures LowerBound(less, entries, target, i)
  {
    assert entries[i].key == target;
  }

  // ----- the iterator

  class Iter {
    const less: Order
    const data: bytes
    const restarts: nat
    const numRestarts: nat
    ghost const L: Layout
    var current: nat
    var restartIndex: nat
    var key: bytes
    var valueStart: nat
    var valueSize: nat

    /** The iterator is over the block of layout `L`. */
    ghost predicate Valid()
      reads this
    {
      Sized(L) && data == Block(L) && restarts == |Data(L)| && numRestarts == |L.heads| && restartIndex <= numRestarts
          && current <= restarts
    }

    ghost predicate Sorted()
    {
      Strict(less) && Increasing(less, L.entries)
    }

    ghost predicate Shows(k: nat)
      reads this
    {
      && Valid() && k < |L.entries| && current == Off(L, k) && key == L.entries[k].key
      && valueStart + valueSize == Off(L, k + 1) && Off(L, k + 1) <= |data|
         && data[valueStart..valueStart + valueSize] == L.entries[k].value
    }

    /** Entry `k` is shown. */
    ghost predicate At(k: nat)
      reads this
    {
      && Shows(k)
      && restartIndex < numRestarts && L.heads[restartIndex] <= k
         && (restartIndex + 1 < numRestarts ==> k <= L.heads[restartIndex + 1])
    }

    /** Entry `k` is shown, or nothing when `k` is the end. */
    ghost predicate Stands(k: nat)
      reads this
    {
      Valid() && k <= |L.entries| && (k < |L.entries| ==> At(k)) && (k == |L.entries| ==> current == restarts)
    }

    /** Parsing will next meet entry `k`. */
    ghost predicate Before(k: nat)
      reads this
    {
      && Valid() && k <= |L.entries| && valueStart + valueSize == Off(L, k)
      && restartIndex < numRestarts && L.heads[restartIndex] <= k
      && (k < |L.entries| ==>
         |key| >= L.shared[k] && L.shared[k] <= |L.entries[k].key|
             && key[..L.shared[k]] == L.entries[k].key[..L.shared[k]])
    }

    constructor (less: Order, data: bytes, restarts: nat, numRestarts: nat, ghost L: Layout)
      requires Sized(L) && data == Block(L) && restarts == |Data(L)| && numRestarts == |L.heads|
      ensures this.less == less && this.L == L && Stands(|L.entries|)
    {
      this.less, this.data, this.restarts, this.numRestarts, this.L := less, data, restarts, numRestarts, L;
      current, restartIndex, key, valueStart, valueSize := restarts, numRestarts, [], 0, 0;
    }

    function NextEntryOffset(): nat
      reads this
    {
      valueStart + valueSize
    }

    method GetRestartPoint(index: nat) returns (offset: nat)
      requires Valid() && index < numRestarts
      ensures L.heads[index] <= |L.entries| && offset == Off(L, L.heads[index])
    {
      RestartAt(L, index);
      offset := Unfixed(data[restarts + 4 * index..restarts + 4 * index + 4]);
    }

    method SeekToRestartPoint(index: nat)
      requires Valid() && index < numRestarts
      modifies this
      ensures Before(L.heads[index]) && restartIndex == index && current == old(current)
    {
      key := [];
      restartIndex := index;
      var offset := GetRestartPoint(index);
      valueStart, valueSize := offset, 0;
    }

    method ParseNextKey(ghost k: nat) returns (ok: bool)
      requires Before(k)
      modifies this
      ensures ok == (k < |L.entries|) && Stands(k)
      ensures ok ==> NextEntryOffset() == Off(L, k + 1) && restartIndex >= old(restartIndex)
    {
      hide Sized, Block, Off, Data, Good;
      ParseFacts(L, k);
      if NextEntryOffset() >= restarts {
        current := restarts;
        restartIndex := numRestarts;
        return false;
      }
      ParseEntry(k);
      AdvanceRestart(k);
      ok := true;
    }

    method ParseEntry(ghost k: nat)
      requires Before(k) && k < |L.entries|
      modifies this`current, this`key, this`valueStart, this`valueSize
      ensures Shows(k)
    {
      hide Sized, Block, Off, Data, Good, Fit, DecodeEntry;
      Parsed(L, k, data, key);
      current := NextEntryOffset();
      var n := DecodeEntry(data[current..restarts]).value;
      key := key[..n.shared] + data[current + n.size..current + n.size + n.rest];
      valueStart, valueSize := current + n.size + n.rest, n.value;
    }

    /** The restart index follows the current entry. */
    method AdvanceRestart(ghost k: nat)
      requires Shows(k) && restartIndex < numRestarts && L.heads[restartIndex] <= k
      modifies this`restartIndex
      ensures At(k) && restartIndex >= old(restartIndex)
    {
      hide Sized, Block, Off, Data, Good, Fit, ParsesTo;
      ParseFacts(L, k);
      while restartIndex + 1 < numRestarts
        invariant restartIndex < numRestarts && L.heads[restartIndex] <= k && restartIndex >= old(restartIndex)
      {
        var next := GetRestartPoint(restartIndex + 1);
        OffOrder(L, L.heads[restartIndex + 1], k);
        if next >= current {
          break;
        }
        restartIndex := restartIndex + 1;
      }
    }

    method SeekToFirst()
      requires Valid()
      modifies this
      ensures Stands(0)
    {
      FirstHead(L);
      SeekToRestartPoint(0);
      var ok := ParseNextKey(0);
    }

    /** After entry `k`, parsing will meet entry `k + 1`. */
    lemma {:induction false} ThenBefore(k: nat)
      requires At(k)
      ensures Before(k + 1) && Fit(L) && NextEntryOffset() == Off(L, k + 1)
      ensures NextEntryOffset() >= restarts <==> k + 1 == |L.entries|
    {
      hide Sized, Block, Off, Data, Good, ParsesTo;
      AfterEntry(L, k);
    }

    method Next(ghost k: nat)
      requires At(k)
      modifies this
      ensures Stands(k + 1)
    {
      hide At, Stands, Before;
      ThenBefore(k);
      var ok := ParseNextKey(k + 1);
    }

    method SeekToLast()
      requires Valid()
      modifies this
      ensures Stands(if L.entries == [] then 0 else |L.entries| - 1)
    {
      hide Sized, Block, Off, Data, Good, Fit, ParsesTo, Shows, Before;
      FirstHead(L);
      SeekToRestartPoint(numRestarts - 1);
      ghost var k := L.heads[numRestarts - 1];
      var ok := ParseNextKey(k);
      while ok
        invariant Valid() && (ok ==> At(k)) && (!ok ==> L.entries == [] && Stands(0))
        decreases ok, |L.entries| - k
      {
        ThenBefore(k);
        if NextEntryOffset() >= restarts {
          break;
        }
        k := k + 1;
        ok := ParseNextKey(k);
      }
    }

    /** Move the restart index to the last restart point before entry `k`. */
    method RestartBefore(ghost k: nat) returns (found: bool)
      requires At(k)
      modifies this
      ensures found == (k > 0) && current == if found then old(current) else restarts
      ensures Valid() && (found ==> restartIndex < numRestarts && L.heads[restartIndex] < k)
    {
      hide Sized, Block, Off, Data, Good, Fit, ParsesTo;
      var original := current;
      FirstHead(L);
      ParseFacts(L, k);
      while true
        invariant Valid() && current == original && restartIndex < numRestarts && L.heads[restartIndex] <= k
        decreases restartIndex
      {
        var point := GetRestartPoint(restartIndex);
        OffOrder(L, L.heads[restartIndex], k);
        if point < original {
          return true;
        }
        if restartIndex == 0 {
          current := restarts;
          restartIndex := numRestarts;
          return false;
        }
        HeadsAscend(L, restartIndex - 1, restartIndex);
        restartIndex := restartIndex - 1;
      }
    }

    method Prev(ghost k: nat)
      requires At(k)
      modifies this
      ensures Stands(if k == 0 then |L.entries| else k - 1)
    {
      hide Sized, Block, Off, Data, Good, Fit, ParsesTo, Shows, Before;
      var original := current;
      Shown(k);
      var found := RestartBefore(k);
      if !found {
        return;
      }
      FirstHead(L);
      SeekToRestartPoint(restartIndex);
      ghost var j := L.heads[restartIndex];
      while true
        invariant Valid() && j < k && Before(j)
        decreases k - j
      {
        var ok := ParseNextKey(j);
        ThenBefore(j);
        OffOrder(L, j + 1, k);
        if !(ok && NextEntryOffset() < original) {
          break;
        }
        j := j + 1;
      }
    }

    lemma {:induction false} Shown(k: nat)
      requires At(k)
      ensures Fit(L) && k < |L.entries| && current == Off(L, k) && key == L.entries[k].key
    {
    }

    /** The key at a restart point stands in full. */
    method RestartKey(index: nat) returns (k: bytes)
      requires Valid() && index < numRestarts && L.entries != []
      ensures L.heads[index] < |L.entries| && k == L.entries[L.heads[index]].key
    {
      hide Sized, Block, Off, Data, Good, Fit, DecodeEntry;
      FirstHead(L);
      HeadShares(L, index);
      var offset := GetRestartPoint(index);
      Parsed(L, L.heads[index], data, []);
      var n := DecodeEntry(data[offset..restarts]);
      if n.None? || n.value.shared != 0 {
        assert false;  // a restart point holds an entry that shares nothing
      }
      k := data[offset + n.value.size..offset + n.value.size + n.value.rest];
      assert [][..0] + k == k;
    }

    /** The last restart point whose key is below the target, between the bounds given. */
    method SearchRestarts(target: bytes, lo: nat, hi: nat) returns (left: nat)
      requires Valid() && Sorted() && lo <= hi < numRestarts
      ensures lo <= left <= hi
      ensures (left > lo ==> L.heads[left] < |L.entries| && less(L.entries[L.heads[left]].key, target))
      ensures left < hi ==> L.heads[left + 1] < |L.entries| && !less(L.entries[L.heads[left + 1]].key, target)
    {
      hide Sized, Block, Off, Data, Good, Fit, Strict, Increasing;
      FirstHead(L);
      left := lo;
      var right := hi;
      while left < right
        invariant lo <= left <= right <= hi
        invariant left > lo ==> L.heads[left] < |L.entries| && less(L.entries[L.heads[left]].key, target)
        invariant right < hi ==> L.heads[right + 1] < |L.entries| && !less(L.entries[L.heads[right + 1]].key, target)
      {
        var mid := (left + right + 1) / 2;
        var midKey := RestartKey(mid);
        if less(midKey, target) {
          left := mid;
        } else {
          right := mid - 1;
        }
      }
    }

    /** Parse on until a key is not below the target. */
    method ScanTo(target: bytes, ghost from: nat) returns (ghost k: nat)
      requires Sorted() && Before(from) && from <= |L.entries|
      requires forall i :: 0 <= i < from ==> less(L.entries[i].key, target)
      modifies this
      ensures Stands(k) && LowerBound(less, L.entries, target, k)
    {
      hide Sized, Block, Off, Data, Good, Fit, Strict, Increasing, Shows, Before;
      k := from;
      while true
        invariant Before(k) && k <= |L.entries| && forall i :: 0 <= i < k ==> less(L.entries[i].key, target)
        decreases |L.entries| - k
      {
        var ok := ParseNextKey(k);
        if !ok {
          return;
        }
        Shown(k);
        if !less(key, target) {
          return;
        }
        ThenBefore(k);
        k := k + 1;
      }
    }

    method Seek(target: bytes, ghost at: nat) returns (ghost k: nat)
      requires Sorted() && Stands(at)
      modifies this
      ensures Stands(k) && LowerBound(less, L.entries, target, k)
    {
      hide Sized, Block, Off, Data, Good, Fit, Increasing, Shows, Before;
      FirstHead(L);
      var lo, hi, below := 0, numRestarts - 1, false;
      if current < restarts {
        assert at < |L.entries|;
        Shown(at);
        BelowSpreads(less, L.entries, target, at);
        if less(key, target) {
          lo, below := restartIndex, true;
        } else if less(target, key) {
          hi := restartIndex;
        } else {
          EqualIsBound(less, L.entries, target, at);
          return at;
        }
      }
      var left := SearchRestarts(target, lo, hi);
      if left == restartIndex && below {
        ThenBefore(at);
        k := ScanTo(target, at + 1);
      } else {
        BelowHead(L, less, target, left);
        SeekToRestartPoint(left);
        k := ScanTo(target, L.heads[left]);
      }
    }
  }

  lemma {:induction false} BelowHead(L: Layout, less: Order, target: bytes, r: nat)
    requires Sized(L) && Strict(less) && Increasing(less, L.entries) && r < |L.heads|
    requires r == 0 || (L.heads[r] < |L.entries| && less(L.entries[L.heads[r]].key, target))
    ensures L.heads[r] <= |L.entries| && forall i :: 0 <= i < L.heads[r] ==> less(L.entries[i].key, target)
  {
    hide Strict, Increasing;
    if r > 0 {
      BelowSpreads(less, L.entries, target, L.heads[r]);
    }
  }

  lemma {:induction false} HeadsAscend(L: Layout, r: nat, q: nat)
    requires Sized(L) && r <= q < |L.heads|
    ensures L.heads[r] <= L.heads[q]
  {
  }

  lemma {:induction false} HeadShares(L: Layout, r: nat)
    requires Sized(L) && r < |L.heads| && L.entries != []
    ensures L.heads[r] < |L.entries| == |L.shared| && L.shared[L.heads[r]] == 0
  {
  }

  lemma {:induction false} FirstHead(L: Layout)
    requires Sized(L)
    ensures |L.heads| > 0 && L.heads[0] == 0 && forall r :: 0 <= r < |L.heads| ==> L.heads[r] <= |L.entries|
    ensures L.entries == [] ==> |L.heads| == 1
    ensures L.entries != [] ==> forall r :: 0 <= r < |L.heads| ==> L.heads[r] < |L.entries|
  {
  }

  /** After entry `k` its key is ready for what the next entry shares with it. */
  lemma {:induction false} AfterEntry(L: Layout, k: nat)
    requires Sized(L) && k < |L.entries|
    ensures Fit(L) && (Off(L, k + 1) >= |Data(L)| <==> k + 1 == |L.entries|)
    ensures k + 1 < |L.entries| ==>
              && L.shared[k + 1] <= |L.entries[k].key| && L.shared[k + 1] <= |L.entries[k + 1].key|
              && L.entries[k].key[..L.shared[k + 1]] == L.entries[k + 1].key[..L.shared[k + 1]]
  {
    hide Sized, Bytes, Block, ParsesTo, Off, Data;
    DataSmall(L);
    ParseFacts(L, k + 1);
    if k + 1 < |L.entries| {
      assert SharesPrefix(L, k + 1);
    }
  }

  /** The bytes at entry `k` extend the key before it to its own key, and hold its value. */
  lemma {:induction false} Parsed(L: Layout, k: nat, data: bytes, key: bytes)
    requires Sized(L) && data == Block(L) && k < |L.entries| && |key| >= L.shared[k]
    requires L.shared[k] <= |L.entries[k].key|
    requires key[..L.shared[k]] == L.entries[k].key[..L.shared[k]]
    ensures Fit(L) && Off(L, k) < |Data(L)| <= |data| && DecodeEntry(data[Off(L, k)..|Data(L)|]).Some?
    ensures var c, n := Off(L, k), DecodeEntry(data[Off(L, k)..|Data(L)|]).value;
            && n.shared <= |key| && c + n.size + n.rest + n.value == Off(L, k + 1) <= |Data(L)|
            && key[..n.shared] + data[c + n.size..c + n.size + n.rest] == L.entries[k].key
            && data[c + n.size + n.rest..Off(L, k + 1)] == L.entries[k].value
  {
    hide Sized, Block, Off, Data, Good, Fit, DecodeEntry, ParsesTo;
    ParseFacts(L, k);
    var c, x, all, e, s := Off(L, k), Off(L, k + 1), |Data(L)|, L.entries[k], L.shared[k];
    assert data[c..all] == Data(L)[c..];
    SlicesOf(data, c, all, s, e, x - c);
    assert e.key[..s] + e.key[s..] == e.key;
  }

  lemma {:induction false} SlicesOf(data: bytes, c: nat, all: nat, s: nat, e: Pair, m: nat)
    requires c <= all <= |data| && ParsesTo(data[c..all], s, e, m)
    ensures DecodeEntry(data[c..all]).Some?
    ensures var n := DecodeEntry(data[c..all]).value;
            && n.shared == s <= |e.key| && n.size + n.rest + n.value == m <= all - c
            && data[c + n.size..c + n.size + n.rest] == e.key[s..] && data[c + n.size + n.rest..c + m] == e.value
  {
    hide DecodeEntry;
    var d := data[c..all];
    var n := DecodeEntry(d).value;
    SubSlice(data, c, all, n.size, n.size + n.rest);
    SubSlice(data, c, all, n.size + n.rest, m);
  }

  lemma {:induction false} SubSlice(data: bytes, c: nat, all: nat, x: nat, y: nat)
    requires c <= all <= |data| && x <= y <= all - c
    ensures data[c..all][x..y] == data[c + x..c + y]
  {
    var d, a, b := data[c..all], data[c..all][x..y], data[c + x..c + y];
    forall i | 0 <= i < |a| ensures a[i] == b[i] { assert a[i] == d[x + i] == data[c + (x + i)]; }
    assert a == b;
  }

  lemma {:induction false} OffOrder(L: Layout, i: nat, k: nat)
    requires Fit(L) && i <= |L.entries| && k <= |L.entries|
    ensures Off(L, i) < Off(L, k) <==> i < k
  {
    if i < k { OffMonotone(L, i, k); } else { OffMonotone(L, k, i); }
  }

  /** Where parsing stands before entry `k`, and what it will find. */
  lemma {:induction false} ParseFacts(L: Layout, k: nat)
    requires Sized(L) && k <= |L.entries|
    ensures Fit(L) && Data(L) <= Block(L)
    ensures k == |L.entries| ==> Off(L, k) == |Data(L)|
    ensures k < |L.entries| ==> Off(L, k) < Off(L, k + 1) <= |Data(L)|
    ensures k < |L.entries| ==> ParsesTo(Data(L)[Off(L, k)..], L.shared[k], L.entries[k], Off(L, k + 1) - Off(L, k))
  {
    if k < |L.entries| {
      EntryAt(L, k);
    }
  }

  // ----- the builder

  /** One more entry, sharing `s` bytes of the key before it, as a restart point or not. */
  function Extend(L: Layout, e: Pair, s: nat, restart: bool): Layout
  {
    Layout(L.entries + [e], L.shared + [s], if restart then L.heads + [|L.entries|] else L.heads)
  }

  function LastKey(L: Layout): bytes
  {
    if L.entries == [] then [] else L.entries[|L.entries| - 1].key
  }

  lemma {:induction false} ExtendGood(L: Layout, e: Pair, s: nat, restart: bool)
    requires Good(L) && s <= |e.key| && s <= |LastKey(L)| && e.key[..s] == LastKey(L)[..s]
    requires (restart ==> s == 0 && L.entries != [])
    ensures Good(Extend(L, e, s, restart))
  {
    var M := Extend(L, e, s, restart);
    forall k | 0 <= k < |M.entries|
      ensures SharesPrefix(M, k)
    {
      if k < |L.entries| { assert SharesPrefix(L, k); }
    }
  }

  lemma {:induction false} ExtendBytes(L: Layout, e: Pair, s: nat, restart: bool, k: nat)
    requires Fit(L) && s <= |e.key| && k <= |L.entries|
    ensures Fit(Extend(L, e, s, restart)) && Bytes(Extend(L, e, s, restart), k) == Bytes(L, k)
  {
    if k > 0 {
      hide PieceOf;
      ExtendBytes(L, e, s, restart, k - 1);
    }
  }

  lemma {:induction false} ExtendData(L: Layout, e: Pair, s: nat, restart: bool)
    requires Good(L) && s <= |e.key| && Good(Extend(L, e, s, restart))
    ensures Data(Extend(L, e, s, restart)) == Data(L) + PieceOf(s, e)
    ensures RestartOffsets(Extend(L, e, s, restart)) == RestartOffsets(L) + if restart then [|Data(L)|] else []
  {
    var M, n := Extend(L, e, s, restart), |L.entries|;
    ExtendBytes(L, e, s, restart, n);
    forall r | 0 <= r < |L.heads|
      ensures L.heads[r] <= n && Off(M, L.heads[r]) == Off(L, L.heads[r])
    {
      GoodHead(L, r);
      ExtendBytes(L, e, s, restart, L.heads[r]);
    }
    hide Good, Fit, PieceOf;
    assert RestartOffsets(M) == RestartOffsets(L) + if restart then [|Data(L)|] else [];
  }

  class BlockBuilder {
    const interval: nat
    var buffer: bytes
    var restarts: seq<nat>
    var counter: nat
    var lastKey: bytes
    ghost var L: Layout

    ghost predicate Valid()
      reads this
    {
      && interval >= 1 && counter <= interval && Good(L) && (L.entries == [] ==> counter == 0)
      && buffer == Data(L) && restarts == RestartOffsets(L) && lastKey == LastKey(L)
    }

    constructor (interval: nat)
      requires interval >= 1
      ensures Valid() && this.interval == interval && L == Layout([], [], [0])
    {
      this.interval := interval;
      buffer, restarts, counter, lastKey := [], [0], 0, [];
      L := Layout([], [], [0]);
    }

    method Reset()
      requires interval >= 1
      modifies this
      ensures Valid() && L == Layout([], [], [0])
    {
      buffer, restarts, counter, lastKey := [], [0], 0, [];
      L := Layout([], [], [0]);
    }

    /** How large the block would be if it were finished now. */
    function CurrentSizeEstimate(): (n: nat)
      requires Valid()
      reads this
      ensures n == |Block(L)|
    {
      |buffer| + 4 * |restarts| + 4
    }

    /** The entry shares as much as it can with the key before, except that every
        `interval`-th entry shares nothing and becomes a restart point. */
    method Add(key: bytes, value: bytes)
      requires Valid()
      modifies this
      ensures Valid() && counter == (if old(counter) < interval then old(counter) else 0) + 1
      ensures L.shared != []
      ensures L == Extend(old(L), Pair(key, value), L.shared[|L.shared| - 1], old(counter) == interval)
      ensures L.entries == old(L).entries + [Pair(key, value)]
      ensures old(counter) < interval ==> Longest(LastKey(old(L)), key, L.shared[|L.shared| - 1])
    {
      hide Good, Data, RestartOffsets, PieceOf, Longest;
      var shared := 0;
      ghost var was, e, restart := L, Pair(key, value), counter == interval;
      if counter < interval {
        shared := SharedPrefix(lastKey, key);
        LongestIsShared(lastKey, key, shared);
      } else {
        restarts := restarts + [|buffer|];
        counter := 0;
      }
      ExtendGood(was, e, shared, restart);
      ExtendData(was, e, shared, restart);
      Append(shared, key, value);
      L := Extend(was, e, shared, restart);
      assert lastKey[..shared] + key[shared..] == key;
      lastKey := lastKey[..shared] + key[shared..];
      counter := counter + 1;
    }

    method Append(shared: nat, key: bytes, value: bytes)
      requires shared <= |key|
      modifies this`buffer
      ensures buffer == old(buffer) + PieceOf(shared, Pair(key, value))
    {
      hide Varint;
      var rest := |key| - shared;
      buffer := buffer + (Varint(shared) + Varint(rest) + Varint(|value|));
      buffer := buffer + key[shared..];
      buffer := buffer + value;
    }

    method Finish() returns (block: bytes)
      requires Valid()
      modifies this`buffer
      ensures block == Block(L)
    {
      hide Good, Data, RestartOffsets;
      ghost var d := buffer;
      for i := 0 to |restarts|
        invariant buffer == d + Fixed32s(restarts[..i])
      {
        assert restarts[..i + 1][..i] == restarts[..i];
        buffer := buffer + Fixed(restarts[i], 4);
      }
      assert restarts[..|restarts|] == restarts;
      buffer := buffer + Fixed(|restarts|, 4);
      block := buffer;
    }
  }

  method SharedPrefix(a: bytes, b: bytes) returns (s: nat)
    ensures Longest(a, b, s)
  {
    var least := if |a| < |b| then |a| else |b|;
    s := 0;
    while s < least && a[s] == b[s]
      invariant s <= least && a[..s] == b[..s]
    {
      s := s + 1;
    }
  }

  lemma {:induction false} LongestIsShared(a: bytes, b: bytes, s: nat)
    requires Longest(a, b, s)
    ensures s <= |a| && s <= |b| && a[..s] == b[..s]
  {
  }

  /** No longer prefix is common to both. */
  ghost predicate Longest(a: bytes, b: bytes, s: nat)
  {
    s <= |a| && s <= |b| && a[..s] == b[..s] && (s < |a| && s < |b| ==> a[s] != b[s])
  }

  /** Opening a block: the trailer says where the entries end and how many restart points
      there are. */
  method OpenBlock(data: bytes, ghost L: Layout) returns (r: Option<(nat, nat)>)
    ensures Sized(L) && data == Block(L) ==> r == Some((|Data(L)|, |L.heads|))
  {
    if Sized(L) && data == Block(L) { CountAt(L); }
    hide Sized, Block, Data;
    if |data| < 4 {
      return None;
    }
    var count := Unfixed(data[|data| - 4..]);
    if count > (|data| - 4) / 4 {
      return None;
    }
    r := Some((|data| - (1 + count) * 4, count));
  }

  // ----- round trip

  method BuildBlock(entries: seq<Pair>, interval: nat) returns (block: bytes, ghost L: Layout)
    requires interval >= 1
    ensures Good(L) && L.entries == entries && block == Block(L)
  {
    hide Good, Data, RestartOffsets, Longest, Block;
    var builder := new BlockBuilder(interval);
    for i := 0 to |entries|
      invariant fresh(builder) && builder.Valid() && builder.L.entries == entries[..i]
    {
      builder.Add(entries[i].key, entries[i].value);
    }
    assert entries[..|entries|] == entries;
    L := builder.L;
    block := builder.Finish();
  }

  /** Walking a finished block from its first entry yields exactly what was put in. */
  method ScanBlock(block: bytes, less: Order, ghost L: Layout) returns (out: seq<Pair>)
    requires Sized(L) && block == Block(L)
    ensures out == L.entries
  {
    hide Sized, Block, Good, Fit, Off, Data, Bytes;
    var trailer := OpenBlock(block, L);
    DataSmall(L);
    var it := new Iter(less, block, trailer.value.0, trailer.value.1, L);
    it.SeekToFirst();
    out := [];
    ghost var k := 0;
    while it.current < it.restarts
      invariant fresh(it) && it.L == L && it.Stands(k) && k <= |L.entries| && out == L.entries[..k]
      decreases |L.entries| - k
    {
      EndBeyond(it, k);
      out := out + [Pair(it.key, it.data[it.valueStart..it.valueStart + it.valueSize])];
      it.Next(k);
      k := k + 1;
    }
    StandsAtEnd(it, k);
    assert L.entries[..k] == L.entries;
  }

  lemma {:induction false} EndBeyond(it: Iter, k: nat)
    requires it.Stands(k) && it.current < it.restarts
    ensures k < |it.L.entries| && it.At(k)
  {
  }

  lemma {:induction false} StandsAtEnd(it: Iter, k: nat)
    requires it.Stands(k) && it.current >= it.restarts
    ensures k == |it.L.entries|
  {
    if k < |it.L.entries| {
      ParseFacts(it.L, k);
      assert false;
    }
  }
}
