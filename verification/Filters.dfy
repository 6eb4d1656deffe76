/** Bloom filters and the filter block that holds one per two kilobytes of table data. */
module Filters {
  import opened Coding
  import Crc32c
  import opened Blocks
  import opened Wrappers

  type u32 = n: nat | n < WORD32

  /** The hash of a key; nothing is assumed of it. */
  type Hash = bytes -> u32

  // ----- bits of a byte, least significant first

  function Unpack(b: nat, n: nat): (v: seq<bool>)
    ensures |v| == n
  {
    if n == 0 then [] else [b % 2 == 1] + Unpack(b / 2, n - 1)
  }

  function Pack(v: seq<bool>): nat
  {
    if v == [] then 0 else (if v[0] then 1 else 0) + 2 * Pack(v[1..])
  }

  lemma {:induction false} PackRoundTrip(v: seq<bool>)
    ensures Unpack(Pack(v), |v|) == v && Pack(v) < Power(2, |v|)
  {
    if v != [] {
      PackRoundTrip(v[1..]);
      assert Pack(v) / 2 == Pack(v[1..]) && (Pack(v) % 2 == 1 <==> v[0]);
    }
  }

  lemma {:induction false} Byte8()
    ensures Power(2, 8) == 256
  {
    assert Power(2, 4) == 16;
  }

  /** A byte or-ed with `1 << i`. */
  function OrBit(b: byte, i: nat): (r: byte)
    requires i < 8
    ensures Unpack(r, 8) == Unpack(b, 8)[i := true]
  {
    var v := Unpack(b, 8)[i := true];
    PackRoundTrip(v);
    Byte8();
    Pack(v)
  }

  predicate HasBit(bits: bytes, pos: nat)
    requires pos < 8 * |bits|
  {
    Unpack(bits[pos / 8], 8)[pos % 8]
  }

  lemma {:induction false} ShiftedTail(b: nat, i: nat)
    ensures Crc32c.Shifted(b / 2, i) == Crc32c.Shifted(b, i + 1)
  {
    if i > 0 {
      ShiftedTail(b, i - 1);
    }
  }

  lemma {:induction false} UnpackAt(b: nat, n: nat, i: nat)
    requires i < n
    ensures Unpack(b, n)[i] <==> Crc32c.BitOf(b, i)
  {
    if i > 0 {
      UnpackAt(b / 2, n - 1, i - 1);
      ShiftedTail(b, i - 1);
    }
  }

  /** Bit `pos` is bit `pos % 8`, the lowest being 0, of byte `pos / 8`. */
  lemma {:induction false} BitPlace(bits: bytes, pos: nat)
    requires pos < 8 * |bits|
    ensures HasBit(bits, pos) <==> bits[pos / 8] / [1, 2, 4, 8, 16, 32, 64, 128][pos % 8] % 2 == 1
  {
    var b, i := bits[pos / 8], pos % 8;
    UnpackAt(b, 8, i);
    hide Unpack;
    ByteBit(b, i);
  }

  lemma {:induction false} ByteBit(b: byte, i: nat)
    requires i < 8
    ensures Crc32c.BitOf(b, i) <==> b / [1, 2, 4, 8, 16, 32, 64, 128][i] % 2 == 1
  {
    Crc32c.Quotients(b);
    hide Crc32c.Shifted;
  }

  function SetBit(bits: bytes, pos: nat): (r: bytes)
    requires pos < 8 * |bits|
    ensures |r| == |bits|
    ensures forall p :: 0 <= p < 8 * |bits| ==> (HasBit(r, p) <==> HasBit(bits, p) || p == pos)
  {
    bits[pos / 8 := OrBit(bits[pos / 8], pos % 8)]
  }

  // ----- the Bloom filter

  /** The hash rotated right by 17 bits. */
  function Delta(h: u32): u32
  {
    (h / 0x2_0000 + h * 0x8000) % WORD32
  }

  lemma {:induction false} DeltaRotates(hi: nat, lo: nat)
    requires hi < 0x8000 && lo < 0x2_0000
    ensures hi * 0x2_0000 + lo < WORD32 && Delta(hi * 0x2_0000 + lo) == lo * 0x8000 + hi
  {
    var h := hi * 0x2_0000 + lo;
    assert h / 0x2_0000 == hi;
    assert h / 0x2_0000 + h * 0x8000 == hi * WORD32 + (lo * 0x8000 + hi);
  }

  function Add32(a: u32, b: u32): u32
  {
    (a + b) % WORD32
  }

  /** The hash used by probe `j`: the first one plus `j` times its rotation. */
  function ProbeHash(h: u32, j: nat): u32
  {
    if j == 0 then h else Add32(ProbeHash(h, j - 1), Delta(h))
  }

  /** Without the wrap-around at each probe. */
  lemma {:induction false} ProbeClosed(h: u32, j: nat)
    ensures ProbeHash(h, j) == (h + j * Delta(h)) % WORD32
  {
    hide Delta, Add32;
    if j > 0 {
      ProbeClosed(h, j - 1);
      OneMoreProbe(h, j, Delta(h));
      WrapAdd(h + (j - 1) * Delta(h), Delta(h));
      AddWraps(ProbeHash(h, j - 1), Delta(h));
    }
  }

  lemma {:induction false} OneMoreProbe(h: nat, j: nat, d: nat)
    requires j > 0
    ensures h + j * d == h + (j - 1) * d + d
  {
  }

  lemma {:induction false} AddWraps(a: u32, b: u32)
    ensures Add32(a, b) == (a + b) % WORD32
  {
  }

  lemma {:induction false} WrapAdd(a: nat, d: nat)
    ensures (a % WORD32 + d) % WORD32 == (a + d) % WORD32
  {
  }

  function Position(h: u32, size: nat): (p: nat)
    requires size > 0
    ensures p < size
  {
    h % size
  }

  /** Every probe of the key finds its bit set. */
  ghost predicate AllSet(bits: bytes, h: u32, k: nat)
    requires |bits| > 0
  {
    forall j :: 0 <= j < k ==> HasBit(bits, Position(ProbeHash(h, j), 8 * |bits|))
  }

  ghost predicate Matches(hash: Hash, filter: bytes, key: bytes)
  {
    && |filter| >= 2
    && var k := filter[|filter| - 1];
       k > 30 || AllSet(filter[..|filter| - 1], hash(key), k)
  }

  /** Probe `j` of a hash in `size` bits. */
  function Probe(h: u32, j: nat, size: nat): (p: nat)
    requires size > 0
    ensures p < size
  {
    (h + j * Delta(h)) % WORD32 % size
  }

  lemma {:induction false} ProbesAre(bits: bytes, h: u32, k: nat)
    requires |bits| > 0
    ensures AllSet(bits, h, k) <==> forall j :: 0 <= j < k ==> HasBit(bits, Probe(h, j, 8 * |bits|))
  {
    forall j | 0 <= j < k ensures Position(ProbeHash(h, j), 8 * |bits|) == Probe(h, j, 8 * |bits|) {
      ProbeClosed(h, j);
    }
    hide HasBit, Delta, ProbeHash, Position, Probe;
  }

  /** Matching: the last byte says how many probes the filter was made with. */
  method BloomMayMatch(hash: Hash, key: bytes, filter: bytes) returns (r: bool)
    ensures r <==> Matches(hash, filter, key)
    ensures var n := |filter| - 1;
            r <==> n >= 1 && (filter[n] > 30 || forall j :: 0 <= j < filter[n] ==>
                                                  HasBit(filter[..n], Probe(hash(key), j, 8 * n)))
  {
    if |filter| >= 2 { ProbesAre(filter[..|filter| - 1], hash(key), filter[|filter| - 1]); }
    hide Probe;
    if |filter| < 2 {
      return false;
    }
    var n := |filter| - 1;
    var bits := filter[..n];
    var size := 8 * n;
    var k := filter[n];
    if k > 30 {
      return true;
    }
    var h := hash(key);
    var delta := Delta(h);
    hide Delta, Position, HasBit, Add32;
    for j := 0 to k
      invariant h == ProbeHash(hash(key), j)
      invariant forall i :: 0 <= i < j ==> HasBit(bits, Position(ProbeHash(hash(key), i), size))
    {
      var pos := Position(h, size);
      if !HasBit(bits, pos) {
        return false;
      }
      h := Add32(h, delta);
    }
    return true;
  }

  /** The number of probes a policy uses. */
  function Probes(bitsPerKey: nat): (k: nat)
    ensures 1 <= k <= 30
  {
    var k := bitsPerKey * 69 / 100;
    if k < 1 then 1 else if k > 30 then 30 else k
  }

  /** The size in bytes of the filter for some number of keys. */
  function FilterSize(bitsPerKey: nat, n: nat): (m: nat)
    ensures m >= 8
  {
    var bits := n * bitsPerKey;
    ((if bits < 64 then 64 else bits) + 7) / 8
  }

  /** Setting more bits unsets none. */
  ghost predicate Keeps(a: bytes, b: bytes)
  {
    |a| == |b| && forall p :: 0 <= p < 8 * |a| && HasBit(a, p) ==> HasBit(b, p)
  }

  lemma {:induction false} KeepsAllSet(a: bytes, b: bytes, h: u32, k: nat)
    requires Keeps(a, b) && |a| > 0 && AllSet(a, h, k)
    ensures AllSet(b, h, k)
  {
    hide HasBit, Position, ProbeHash;
  }

  /** `b` is `a` with the bits of the first `k` probes set. */
  ghost predicate ProbesSet(a: bytes, b: bytes, h: u32, k: nat)
    requires |a| > 0
  {
    && |a| == |b|
    && forall p :: 0 <= p < 8 * |a| ==> (HasBit(b, p) <==> HasBit(a, p) || IsProbe(h, k, 8 * |a|, p))
  }

  ghost predicate IsProbe(h: u32, k: nat, size: nat, p: nat)
    requires size > 0
  {
    exists j :: 0 <= j < k && p == Probe(h, j, size)
  }

  lemma {:induction false} SetOneMore(a: bytes, b: bytes, h: u32, j: nat)
    requires |a| > 0 && ProbesSet(a, b, h, j)
    ensures ProbesSet(a, SetBit(b, Probe(h, j, 8 * |a|)), h, j + 1)
  {
    hide Probe, HasBit;
    var pos := Probe(h, j, 8 * |a|);
    var c := SetBit(b, pos);
    hide SetBit;
    forall p | 0 <= p < 8 * |a| ensures HasBit(c, p) <==> HasBit(a, p) || IsProbe(h, j + 1, 8 * |a|, p) {
      assert IsProbe(h, j + 1, 8 * |a|, p) <==> IsProbe(h, j, 8 * |a|, p) || p == pos by {
        if p == pos { assert p == Probe(h, j, 8 * |a|); }
      }
    }
  }

  method SetProbes(bits: bytes, h0: u32, k: nat) returns (r: bytes)
    requires |bits| > 0
    ensures Keeps(bits, r) && AllSet(r, h0, k) && ProbesSet(bits, r, h0, k)
  {
    hide Delta, Position, HasBit, Add32, Probe, ProbesSet;
    var h, delta := h0, Delta(h0);
    r := bits;
    NoProbesYet(bits, h0);
    for j := 0 to k
      invariant |r| == |bits| && ProbesSet(bits, r, h0, j) && h == ProbeHash(h0, j)
    {
      var pos := Position(h, 8 * |r|);
      ProbeIs(h0, j, 8 * |r|);
      SetOneMore(bits, r, h0, j);
      r := SetBit(r, pos);
      h := Add32(h, delta);
    }
    ProbesSetAll(bits, r, h0, k);
  }

  lemma {:induction false} ProbeIs(h: u32, j: nat, size: nat)
    requires size > 0
    ensures Position(ProbeHash(h, j), size) == Probe(h, j, size)
  {
    ProbeClosed(h, j);
  }

  lemma {:induction false} NoProbesYet(bits: bytes, h: u32)
    requires |bits| > 0
    ensures ProbesSet(bits, bits, h, 0)
  {
    hide HasBit;
  }

  lemma {:induction false} ProbesSetAll(a: bytes, b: bytes, h: u32, k: nat)
    requires |a| > 0 && ProbesSet(a, b, h, k)
    ensures Keeps(a, b) && AllSet(b, h, k)
  {
    hide HasBit, Probe, AllSet;
    forall j | 0 <= j < k ensures HasBit(b, Probe(h, j, 8 * |b|)) {
      assert IsProbe(h, k, 8 * |a|, Probe(h, j, 8 * |a|));
    }
    ProbesAre(b, h, k);
  }

  /** The bits of a filter are exactly the probes of its keys. */
  ghost predicate ProbesOf(hash: Hash, bits: bytes, keys: seq<bytes>, k: nat)
    requires |bits| > 0
  {
    forall p :: 0 <= p < 8 * |bits| ==> (HasBit(bits, p) <==> HitBySome(hash, keys, k, 8 * |bits|, p))
  }

  ghost predicate HitBySome(hash: Hash, keys: seq<bytes>, k: nat, size: nat, p: nat)
    requires size > 0
  {
    exists i :: 0 <= i < |keys| && IsProbe(hash(keys[i]), k, size, p)
  }

  lemma {:induction false} ProbesOfMore(hash: Hash, a: bytes, b: bytes, keys: seq<bytes>, i: nat, k: nat)
    requires |a| > 0 && i < |keys| && ProbesOf(hash, a, keys[..i], k) && ProbesSet(a, b, hash(keys[i]), k)
    ensures ProbesOf(hash, b, keys[..i + 1], k)
  {
    hide HasBit, IsProbe;
    var n := 8 * |a|;
    forall p | 0 <= p < n ensures HasBit(b, p) <==> HitBySome(hash, keys[..i + 1], k, n, p) {
      assert HitBySome(hash, keys[..i + 1], k, n, p) <==>
             HitBySome(hash, keys[..i], k, n, p) || IsProbe(hash(keys[i]), k, n, p) by {
        if x :| 0 <= x < i && IsProbe(hash(keys[..i][x]), k, n, p) {
          assert keys[..i + 1][x] == keys[..i][x];
        }
        if IsProbe(hash(keys[i]), k, n, p) {
          assert keys[..i + 1][i] == keys[i];
        }
      }
    }
  }

  lemma {:induction false} NoBitsYet(hash: Hash, m: nat, k: nat)
    requires m > 0
    ensures ProbesOf(hash, seq(m, _ => 0), [], k)
  {
    var bits: bytes := seq(m, _ => 0);
    hide IsProbe;
    forall p | 0 <= p < 8 * m ensures !HasBit(bits, p) {
      ZeroBit(p % 8);
    }
  }

  lemma {:induction false} ZeroBit(i: nat)
    requires i < 8
    ensures !Unpack(0, 8)[i]
  {
    UnpackAt(0, 8, i);
    ByteBit(0, i);
  }

  /** `CreateFilter`: one filter for all the keys is appended: its bits are exactly the probes of the keys, its last
      byte the number of probes. */
  method CreateFilter(hash: Hash, bitsPerKey: nat, keys: seq<bytes>, dst: bytes) returns (r: bytes)
    ensures |r| >= |dst| + 9 && r[..|dst|] == dst
    ensures forall i :: 0 <= i < |keys| ==> Matches(hash, r[|dst|..], keys[i])
    ensures var filter, k := r[|dst|..], bitsPerKey * 69 / 100;
            var n := |filter| - 1;
            && 8 * n == (if |keys| * bitsPerKey < 64 then 64 else (|keys| * bitsPerKey + 7) / 8 * 8)
            && filter[n] == (if k < 1 then 1 else if k > 30 then 30 else k)
            && ProbesOf(hash, filter[..n], keys, filter[n])
  {
    hide HasBit, AllSet, ProbesOf, ProbesSet;
    var m, k := FilterSize(bitsPerKey, |keys|), Probes(bitsPerKey);
    var bits := seq(m, _ => 0);
    NoBitsYet(hash, m, k);
    assert keys[..0] == [];
    for i := 0 to |keys|
      invariant |bits| == m && (forall x :: 0 <= x < i ==> AllSet(bits, hash(keys[x]), k))
      invariant ProbesOf(hash, bits, keys[..i], k)
    {
      var more := SetProbes(bits, hash(keys[i]), k);
      forall x | 0 <= x < i ensures AllSet(more, hash(keys[x]), k) { KeepsAllSet(bits, more, hash(keys[x]), k); }
      ProbesOfMore(hash, bits, more, keys, i, k);
      bits := more;
    }
    assert keys[..|keys|] == keys;
    r := dst + bits + [k];
    ghost var filter := r[|dst|..];
    assert filter == bits + [k] && filter[..|filter| - 1] == bits;
    SizeInBits(bitsPerKey, |keys|);
  }

  lemma {:induction false} SizeInBits(bitsPerKey: nat, n: nat)
    ensures 8 * FilterSize(bitsPerKey, n) == if n * bitsPerKey < 64 then 64 else (n * bitsPerKey + 7) / 8 * 8
  {
  }

  // ----- the filter block

  const FILTER_BASE_LG: byte := 11

  /** Which filter covers a block that starts at `offset`. */
  function FilterIndex(offset: nat): nat
  {
    offset / 2048
  }

  /** Where key `i` ends among the concatenated keys. */
  function KeyEnd(keys: bytes, start: seq<nat>, i: nat): nat
    requires i < |start|
  {
    if i + 1 < |start| then start[i + 1] else |keys|
  }

  /** The concatenated keys and their starts spell the key list. */
  ghost predicate Spelled(keys: bytes, start: seq<nat>, list: seq<bytes>)
  {
    && |start| == |list|
    && forall i :: 0 <= i < |start| ==>
       start[i] <= KeyEnd(keys, start, i) <= |keys| && keys[start[i]..KeyEnd(keys, start, i)] == list[i]
  }

  lemma {:induction false} SpelledSnoc(keys: bytes, start: seq<nat>, list: seq<bytes>, key: bytes)
    requires Spelled(keys, start, list)
    ensures Spelled(keys + key, start + [|keys|], list + [key])
  {
    var keys', start', list' := keys + key, start + [|keys|], list + [key];
    forall i | 0 <= i < |start'|
      ensures start'[i] <= KeyEnd(keys', start', i) <= |keys'| && keys'[start'[i]..KeyEnd(keys', start', i)] == list'[i]
    {
      if i < |start| {
        assert KeyEnd(keys', start', i) == KeyEnd(keys, start, i);
      }
    }
  }

  /** Filter `i` of the result: the bytes up to the next filter or the end. */
  function FilterEnd(result: bytes, offsets: seq<nat>, i: nat): nat
    requires i < |offsets|
  {
    if i + 1 < |offsets| then offsets[i + 1] else |result|
  }

  /** Each generated filter matches the keys of its group. */
  ghost predicate Generated(hash: Hash, result: bytes, offsets: seq<nat>, groups: seq<seq<bytes>>)
  {
    && |offsets| == |groups|
    && forall i :: 0 <= i < |offsets| ==>
         && offsets[i] <= FilterEnd(result, offsets, i) <= |result|
         && MatchesAll(hash, result[offsets[i]..FilterEnd(result, offsets, i)], groups[i])
  }

  ghost predicate MatchesAll(hash: Hash, filter: bytes, group: seq<bytes>)
  {
    forall x :: 0 <= x < |group| ==> Matches(hash, filter, group[x])
  }

  lemma {:induction false} GeneratedSnoc(hash: Hash, result: bytes, offsets: seq<nat>, groups: seq<seq<bytes>>,
                                         more: bytes, group: seq<bytes>)
    requires Generated(hash, result, offsets, groups) && |result| <= |more| && more[..|result|] == result
    requires MatchesAll(hash, more[|result|..], group)
    ensures Generated(hash, more, offsets + [|result|], groups + [group])
  {
    hide MatchesAll;
    var offsets', groups' := offsets + [|result|], groups + [group];
    forall i | 0 <= i < |offsets'|
      ensures offsets'[i] <= FilterEnd(more, offsets', i) <= |more|
      ensures MatchesAll(hash, more[offsets'[i]..FilterEnd(more, offsets', i)], groups'[i])
    {
      if i < |offsets| {
        var a, b := offsets[i], FilterEnd(result, offsets, i);
        assert FilterEnd(more, offsets', i) == b;
        PrefixSlice(more, |result|, a, b);
      } else {
        assert more[|result|..|more|] == more[|result|..];
      }
    }
  }

  lemma {:induction false} PrefixSlice(b: bytes, n: nat, x: nat, y: nat)
    requires x <= y <= n <= |b|
    ensures b[..n][x..y] == b[x..y]
  {
    var p, q := b[..n][x..y], b[x..y];
    forall i | 0 <= i < |p| ensures p[i] == q[i] { assert p[i] == b[..n][x + i] == b[x + i]; }
    assert p == q;
  }

  lemma {:induction false} KeySpelled(keys: bytes, start: seq<nat>, list: seq<bytes>, i: nat)
    requires Spelled(keys, start, list) && i < |start|
    ensures start[i] <= KeyEnd(keys, start, i) <= |keys| && keys[start[i]..KeyEnd(keys, start, i)] == list[i]
  {
  }

  /** The keys are cut out again at their starts. */
  method CutKeys(keys: bytes, start: seq<nat>, ghost list: seq<bytes>) returns (tmp: seq<bytes>)
    requires Spelled(keys, start, list)
    ensures tmp == list
  {
    assert |start| == |list|;
    hide Spelled, KeyEnd;
    tmp := [];
    for i := 0 to |start|
      invariant |tmp| == i && tmp == list[..i]
    {
      KeySpelled(keys, start, list, i);
      var key := keys[start[i]..KeyEnd(keys, start, i)];
      OneMoreKey(list, i);
      tmp := tmp + [key];
    }
    assert list[..|list|] == list;
  }

  lemma {:induction false} OneMoreKey(list: seq<bytes>, i: nat)
    requires i < |list|
    ensures list[..i + 1] == list[..i] + [list[i]]
  {
  }

  /** A key added while data was at `offset`. */
  datatype Added = Added(offset: nat, key: bytes)

  /** Every key added is in the group of its filter, or waits for it. */
  ghost predicate Grouped(added: seq<Added>, groups: seq<seq<bytes>>, list: seq<bytes>)
  {
    forall a :: a in added ==> InGroup(a, groups, list)
  }

  ghost predicate InGroup(a: Added, groups: seq<seq<bytes>>, list: seq<bytes>)
  {
    var i := FilterIndex(a.offset);
    if i < |groups| then a.key in groups[i] else i == |groups| && a.key in list
  }

  class FilterBlockBuilder {
    const hash: Hash
    const bitsPerKey: nat
    var keys: bytes
    var start: seq<nat>
    var result: bytes
    var filterOffsets: seq<nat>
    ghost var list: seq<bytes>            // keys waiting for the next filter
    ghost var groups: seq<seq<bytes>>     // keys of the filters generated
    ghost var added: seq<Added>
    ghost var offset: nat                 // the block started last

    ghost predicate Valid()
      reads this
    {
      && Spelled(keys, start, list) && Generated(hash, result, filterOffsets, groups) && Grouped(added, groups, list)
      && FilterIndex(offset) == |filterOffsets|
    }

    constructor (hash: Hash, bitsPerKey: nat)
      ensures Valid() && added == [] && offset == 0
      ensures this.hash == hash && this.bitsPerKey == bitsPerKey
    {
      this.hash, this.bitsPerKey := hash, bitsPerKey;
      keys, start, result, filterOffsets := [], [], [], [];
      list, groups, added, offset := [], [], [], 0;
    }

    method GenerateFilter()
      requires Spelled(keys, start, list) && Generated(hash, result, filterOffsets, groups)
      requires Grouped(added, groups, list)
      modifies this
      ensures Spelled(keys, start, list) && Generated(hash, result, filterOffsets, groups)
      ensures Grouped(added, groups, list)
      ensures |filterOffsets| == old(|filterOffsets|) + 1 && added == old(added) && offset == old(offset) && list == []
    {
      hide Spelled, Generated, Matches, Grouped;
      SpelledNone(keys, start, list);
      var was := result;
      if |start| > 0 {
        var tmp := CutKeys(keys, start, list);
        result := CreateFilter(hash, bitsPerKey, tmp, result);
      } else {
        assert result[..|result|] == result;
      }
      GeneratedSnoc(hash, was, filterOffsets, groups, result, list);
      NextGroup(added, groups, list);
      filterOffsets, keys, start := filterOffsets + [|was|], [], [];
      groups, list := groups + [list], [];
    }

    method StartBlock(blockOffset: nat)
      requires Valid() && offset <= blockOffset
      modifies this
      ensures Valid() && added == old(added) && offset == blockOffset
    {
      hide Spelled, Generated, Grouped;
      var index := FilterIndex(blockOffset);
      while index > |filterOffsets|
        invariant Spelled(keys, start, list) && Generated(hash, result, filterOffsets, groups)
        invariant Grouped(added, groups, list)
        invariant index >= |filterOffsets| && added == old(added)
        decreases index - |filterOffsets|
      {
        GenerateFilter();
      }
      offset := blockOffset;
    }

    method AddKey(key: bytes)
      requires Valid()
      modifies this
      ensures Valid() && added == old(added) + [Added(offset, key)] && offset == old(offset)
    {
      hide Spelled, Generated, Grouped;
      SpelledSnoc(keys, start, list, key);
      GroupedSnoc(added, groups, list, offset, key);
      GeneratedCount(hash, result, filterOffsets, groups);
      start := start + [|keys|];
      keys := keys + key;
      list, added := list + [key], added + [Added(offset, key)];
    }

    /** Every key added under a block offset may match at that offset. */
    method Finish() returns (block: bytes)
      requires Valid()
      modifies this
      ensures |block| < WORD32 ==> forall a :: a in old(added) ==> MayMatch(hash, block, a.offset, a.key)
    {
      hide Spelled, Generated, Grouped, MayMatch, Fixed32s, Fixed;
      SpelledNone(keys, start, list);
      if start != [] {
        GenerateFilter();
      }
      GeneratedCount(hash, result, filterOffsets, groups);
      var arrayOffset := |result|;
      block := PutFixed32s(result, filterOffsets);
      block := block + Fixed(arrayOffset, 4);
      block := block + [FILTER_BASE_LG];
      if |block| < WORD32 {
        forall a | a in added ensures MayMatch(hash, block, a.offset, a.key) {
          AllGrouped(added, groups, a);
          GroupMayMatch(hash, block, result, filterOffsets, groups, a.offset, a.key);
        }
      }
    }
  }

  method PutFixed32s(dst: bytes, ns: seq<nat>) returns (r: bytes)
    ensures r == dst + Fixed32s(ns)
  {
    hide Fixed;
    r := dst;
    for i := 0 to |ns|
      invariant r == dst + Fixed32s(ns[..i])
    {
      Fixed32sSnoc(ns[..i], ns[i]);
      assert ns[..i + 1] == ns[..i] + [ns[i]];
      r := r + Fixed(ns[i], 4);
    }
    assert ns[..|ns|] == ns;
  }

  lemma {:induction false} Fixed32sSnoc(ns: seq<nat>, n: nat)
    ensures Fixed32s(ns + [n]) == Fixed32s(ns) + Fixed(n, 4) && Fixed32s([]) == []
  {
    assert (ns + [n])[..|ns|] == ns;
  }

  lemma {:induction false} AllGrouped(added: seq<Added>, groups: seq<seq<bytes>>, a: Added)
    requires Grouped(added, groups, []) && a in added
    ensures FilterIndex(a.offset) < |groups| && a.key in groups[FilterIndex(a.offset)]
  {
    assert InGroup(a, groups, []);
  }

  lemma {:induction false} GeneratedCount(hash: Hash, result: bytes, offsets: seq<nat>, groups: seq<seq<bytes>>)
    requires Generated(hash, result, offsets, groups)
    ensures |offsets| == |groups|
  {
  }

  lemma {:induction false} SpelledNone(keys: bytes, start: seq<nat>, list: seq<bytes>)
    requires Spelled(keys, start, list)
    ensures |start| == |list| && Spelled([], [], [])
  {
  }

  lemma {:induction false} NextGroup(added: seq<Added>, groups: seq<seq<bytes>>, list: seq<bytes>)
    requires Grouped(added, groups, list)
    ensures Grouped(added, groups + [list], [])
  {
    forall a | a in added ensures InGroup(a, groups + [list], []) { assert InGroup(a, groups, list); }
  }

  lemma {:induction false} GroupedSnoc(added: seq<Added>, groups: seq<seq<bytes>>, list: seq<bytes>, offset: nat,
                                       key: bytes)
    requires Grouped(added, groups, list)
    ensures FilterIndex(offset) == |groups| ==> Grouped(added + [Added(offset, key)], groups, list + [key])
  {
    var more := list + [key];
    assert more[|list|] == key;
    forall a | a in added ensures InGroup(a, groups, more) { assert InGroup(a, groups, list); }
  }

  // ----- reading a filter block

  /** Filters, their offsets, where the offsets start, and the base. */
  function Assemble(result: bytes, offsets: seq<nat>): (b: bytes)
    ensures |b| == |result| + 4 * |offsets| + 5
  {
    result + Fixed32s(offsets) + Fixed(|result|, 4) + [FILTER_BASE_LG]
  }

  /** Word `i` of the offsets; the one past the last says where they start. */
  lemma {:induction false} OffsetWord(result: bytes, offsets: seq<nat>, i: nat)
    requires |Assemble(result, offsets)| < WORD32 && i <= |offsets| && (i < |offsets| ==> offsets[i] < WORD32)
    ensures var b, p := Assemble(result, offsets), |result| + 4 * i;
            p + 4 < |b| && Unfixed(b[p..p + 4]) == if i < |offsets| then offsets[i] else |result|
  {
    hide Fixed32s, Fixed, Unfixed;
    var b, p := Assemble(result, offsets), |result| + 4 * i;
    if i < |offsets| {
      Fixed32At(offsets, i);
      assert b == result + Fixed32s(offsets) + (Fixed(|result|, 4) + [FILTER_BASE_LG]);
      Middle(result, Fixed32s(offsets), Fixed(|result|, 4) + [FILTER_BASE_LG], 4 * i, 4 * i + 4);
    } else {
      Width4();
      FixedRoundTrip(|result|, 4);
      var front := result + Fixed32s(offsets);
      Middle(front, Fixed(|result|, 4), [FILTER_BASE_LG], 0, 4);
      assert Fixed(|result|, 4)[0..4] == Fixed(|result|, 4);
    }
  }

  /** The parts a reader finds in a block: base, start of the offsets, their number. */
  function Parse(block: bytes): Option<(nat, nat, nat)>
  {
    var n := |block|;
    if n < 5 then None
    else
      var word := Unfixed(block[n - 5..n - 1]);
      if word > n - 5 then None else Some((block[n - 1], word, (n - 5 - word) / 4))
  }

  lemma {:induction false} ParseAssembled(result: bytes, offsets: seq<nat>)
    requires |Assemble(result, offsets)| < WORD32
    ensures Parse(Assemble(result, offsets)) == Some((11, |result|, |offsets|))
  {
    OffsetWord(result, offsets, |offsets|);
    hide Fixed32s, Fixed, Unfixed;
    var b := Assemble(result, offsets);
    assert b[|b| - 1] == FILTER_BASE_LG;
  }

  /** What a reader answers for a key of the block at `offset`. */
  ghost predicate MayMatch(hash: Hash, block: bytes, offset: nat, key: bytes)
  {
    ParseBounds(block);
    match Parse(block)
    case None => true
    case Some((lg, word, num)) =>
      var index := offset / Power(2, lg);
      if index < num then
        var start := Unfixed(block[word + 4 * index..word + 4 * index + 4]);
        var limit := Unfixed(block[word + 4 * index + 4..word + 4 * index + 8]);
        if start <= limit && limit <= word then Matches(hash, block[start..limit], key) else start != limit
      else true
  }

  method KeyMayMatch(hash: Hash, block: bytes, offset: nat, key: bytes) returns (r: bool)
    ensures r <==> MayMatch(hash, block, offset, key)
  {
    hide Parse, Unfixed, Matches;
    var parsed := Parse(block);
    ParseBounds(block);
    if parsed.None? {
      return true;
    }
    var (lg, word, num) := parsed.value;
    var index := offset / Power(2, lg);
    if index < num {
      var start := Unfixed(block[word + 4 * index..word + 4 * index + 4]);
      var limit := Unfixed(block[word + 4 * index + 4..word + 4 * index + 8]);
      if start <= limit && limit <= word {
        r := BloomMayMatch(hash, key, block[start..limit]);
        return;
      } else if start == limit {
        return false;
      }
    }
    return true;
  }

  /** A block assembled from filters that match their groups. */
  ghost predicate Written(hash: Hash, block: bytes, result: bytes, offsets: seq<nat>, groups: seq<seq<bytes>>)
  {
    Generated(hash, result, offsets, groups) && block == Assemble(result, offsets) && |block| < WORD32
  }

  lemma {:induction false} ParseBounds(block: bytes)
    ensures Parse(block).Some? ==>
              Power(2, Parse(block).value.0) > 0 && Parse(block).value.1 + 4 * Parse(block).value.2 + 5 <= |block|
  {
    if Parse(block).Some? {
      PowerPositive(Parse(block).value.0);
    }
  }

  lemma {:induction false} PowerPositive(e: nat)
    ensures Power(2, e) > 0
  {
    if e > 0 {
      PowerPositive(e - 1);
    }
  }

  lemma {:induction false} Base11()
    ensures Power(2, 11) == 2048
  {
    Byte8();
    assert Power(2, 9) == 512 && Power(2, 10) == 1024;
  }

  /** The reader finds the filter of the key's group. */
  lemma {:induction false} ReadBack(hash: Hash, block: bytes, result: bytes, offsets: seq<nat>, groups: seq<seq<bytes>>,
                                    offset: nat, key: bytes)
    requires Written(hash, block, result, offsets, groups)
    requires FilterIndex(offset) < |groups| && key in groups[FilterIndex(offset)]
    ensures Parse(block) == Some((11, |result|, |offsets|)) && Power(2, 11) == 2048
    ensures var i, p := FilterIndex(offset), |result| + 4 * FilterIndex(offset);
            && i < |offsets| && p + 8 <= |block|
            && var start, limit := Unfixed(block[p..p + 4]), Unfixed(block[p + 4..p + 8]);
               start <= limit <= |result| && Matches(hash, block[start..limit], key)
  {
    hide Unfixed, Fixed, Fixed32s, Parse, Matches, Power;
    ParseAssembled(result, offsets);
    Base11();
    var i := FilterIndex(offset);
    OffsetBounds(hash, result, offsets, groups, i);
    OffsetWord(result, offsets, i);
    OffsetWord(result, offsets, i + 1);
    var a, b := offsets[i], FilterEnd(result, offsets, i);
    assert block[..|result|] == result;
    PrefixSlice(block, |result|, a, b);
    var x :| 0 <= x < |groups[i]| && groups[i][x] == key;
    assert MatchesAll(hash, result[a..b], groups[i]);
  }

  lemma {:induction false} OffsetBounds(hash: Hash, result: bytes, offsets: seq<nat>, groups: seq<seq<bytes>>, i: nat)
    requires Generated(hash, result, offsets, groups) && i < |groups|
    ensures i < |offsets| && offsets[i] <= FilterEnd(result, offsets, i) <= |result|
  {
  }

  /** No false negatives: a key of the group may match at every offset the group covers. */
  lemma {:induction false} GroupMayMatch(hash: Hash, block: bytes, result: bytes, offsets: seq<nat>,
                                         groups: seq<seq<bytes>>, offset: nat, key: bytes)
    requires Written(hash, block, result, offsets, groups)
    requires FilterIndex(offset) < |groups| && key in groups[FilterIndex(offset)]
    ensures MayMatch(hash, block, offset, key)
  {
    ReadBack(hash, block, result, offsets, groups, offset, key);
    hide Written, Parse, Unfixed, Matches, Power;
    assert offset / 2048 == FilterIndex(offset);
  }
}
