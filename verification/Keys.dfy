/** Keys as they are stored: byte strings under the bytewise comparator, and internal keys
    with an eight-byte trailer that packs sequence number and type. The module shows that
    comparing stored internal keys is comparing the triples of `Ordering`. */
module Keys {
  import opened Coding
  import Ordering
  import opened Wrappers

  const MAX_SEQUENCE: nat := 0xff_ffff_ffff_ffff

  /** `Slice::Compare`: the first differing byte decides, else the shorter string is smaller. */
  function Compare(a: bytes, b: bytes): int
  {
    if a == [] || b == [] then |a| - |b|
    else if a[0] != b[0] then a[0] - b[0]
    else Compare(a[1..], b[1..])
  }

  /** The position of a byte string among all byte strings, as a number in [0, 1): byte
      `c` contributes the digit `c + 1` in base 257. */
  function Rank(a: bytes): (r: real)
    ensures 0.0 <= r < 1.0
    ensures a != [] ==> r > 0.0
  {
    if a == [] then 0.0 else (a[0] as real + 1.0 + Rank(a[1..])) / 257.0
  }

  /** Ranks order byte strings exactly as the bytewise comparator does. */
  lemma {:induction false} RankEmbedsOrder(a: bytes, b: bytes)
    ensures Compare(a, b) < 0 <==> Rank(a) < Rank(b)
    ensures Compare(a, b) == 0 <==> Rank(a) == Rank(b)
    ensures Compare(a, b) == 0 <==> a == b
  {
    if a == [] || b == [] {
    } else if a[0] == b[0] {
      RankEmbedsOrder(a[1..], b[1..]);
      assert a == b <==> a[1..] == b[1..] by {
        assert a == [a[0]] + a[1..] && b == [b[0]] + b[1..];
      }
    } else {
    }
  }

  datatype StoredKey = StoredKey(user: bytes, sequence: nat, kind: Ordering.Kind)

  function KindCode(kind: Ordering.Kind): byte
  {
    match kind case Deletion => 0 case Value => 1
  }

  function Pack(sequence: nat, kind: Ordering.Kind): nat
  {
    sequence * 256 + KindCode(kind)
  }

  function EncodeKey(k: StoredKey): (b: bytes)
    ensures |b| == |k.user| + 8
  {
    k.user + Fixed(Pack(k.sequence, k.kind), 8)
  }

  /** `ParseInternalKey`: fails on short input and on an unknown type byte. */
  function ParseKey(b: bytes): (r: Option<StoredKey>)
  {
    if |b| < 8 then None
    else
      var tag := Unfixed(b[|b| - 8..]);
      if tag % 256 == 0 then Some(StoredKey(b[..|b| - 8], tag / 256, Ordering.Deletion))
      else if tag % 256 == 1 then Some(StoredKey(b[..|b| - 8], tag / 256, Ordering.Value))
      else None
  }

  /** `InternalKeyComparator::Compare`: user keys ascending, then trailers descending. */
  function CompareInternal(a: bytes, b: bytes): int
    requires |a| >= 8 && |b| >= 8
  {
    var r := Compare(a[..|a| - 8], b[..|b| - 8]);
    if r != 0 then r
    else
      var x, y := Unfixed(a[|a| - 8..]), Unfixed(b[|b| - 8..]);
      if x > y then -1 else if x < y then 1 else 0
  }

  /** The triple that stands for a stored key in the rest of the model. */
  function Abstract(k: StoredKey): Ordering.InternalKey
  {
    Ordering.InternalKey(Rank(k.user), k.sequence, k.kind)
  }

  lemma {:induction false} TrailerRoundTrip(k: StoredKey)
    requires k.sequence <= MAX_SEQUENCE
    ensures EncodeKey(k)[..|EncodeKey(k)| - 8] == k.user
    ensures Unfixed(EncodeKey(k)[|EncodeKey(k)| - 8..]) == Pack(k.sequence, k.kind)
  {
    Width8();
    FixedRoundTrip(Pack(k.sequence, k.kind), 8);
    assert EncodeKey(k)[|EncodeKey(k)| - 8..] == Fixed(Pack(k.sequence, k.kind), 8);
  }

  lemma {:induction false} ParseRoundTrip(k: StoredKey)
    requires k.sequence <= MAX_SEQUENCE
    ensures ParseKey(EncodeKey(k)) == Some(k)
  {
    TrailerRoundTrip(k);
  }

  /** Comparing encoded keys is comparing triples, and the encoding is injective. */
  lemma {:induction false} EncodingRefinesOrder(a: StoredKey, b: StoredKey)
    requires a.sequence <= MAX_SEQUENCE && b.sequence <= MAX_SEQUENCE
    ensures CompareInternal(EncodeKey(a), EncodeKey(b)) < 0 <==> Ordering.Less(Abstract(a), Abstract(b))
    ensures CompareInternal(EncodeKey(a), EncodeKey(b)) == 0 <==> Abstract(a) == Abstract(b)
    ensures Abstract(a) == Abstract(b) <==> a == b
  {
    TrailerRoundTrip(a);
    TrailerRoundTrip(b);
    RankEmbedsOrder(a.user, b.user);
  }
}
