/** The orders that table blocks are searched by, on byte strings: the bytewise comparator for metadata and the
    internal-key comparator for data and index. */
module TableKeys {
  import opened Blocks
  import opened Coding
  import opened Keys
  import Levels
  import opened Ordering
  import opened Tables
  import opened Wrappers

  predicate BytewiseLess(a: bytes, b: bytes)
  {
    Compare(a, b) < 0
  }

  /** Strings too short for a trailer, which no table holds, come first. */
  predicate InternalLess(a: bytes, b: bytes)
  {
    if |a| < 8 || |b| < 8 then |a| < 8 && (|b| >= 8 || BytewiseLess(a, b)) else CompareInternal(a, b) < 0
  }

  lemma {:induction false} BytewiseOrder(a: bytes, b: bytes, c: bytes)
    ensures !BytewiseLess(a, a)
    ensures BytewiseLess(a, b) && BytewiseLess(b, c) ==> BytewiseLess(a, c)
    ensures a == b || BytewiseLess(a, b) || BytewiseLess(b, a)
    ensures BytewiseLess(a, b) ==> !BytewiseLess(b, a) && a != b
  {
    RankEmbedsOrder(a, a);
    RankEmbedsOrder(a, b);
    RankEmbedsOrder(b, a);
    RankEmbedsOrder(b, c);
    RankEmbedsOrder(a, c);
  }

  lemma {:induction false} BytewiseStrict()
    ensures Strict(BytewiseLess)
  {
    hide BytewiseLess;
    forall a, b, c: bytes
      ensures !BytewiseLess(a, a)
      ensures BytewiseLess(a, b) && BytewiseLess(b, c) ==> BytewiseLess(a, c)
      ensures a == b || BytewiseLess(a, b) || BytewiseLess(b, a)
    {
      BytewiseOrder(a, b, c);
    }
  }

  lemma {:induction false} UnfixedInjective(a: bytes, b: bytes)
    requires |a| == |b| && Unfixed(a) == Unfixed(b)
    ensures a == b
  {
    if a != [] {
      assert Unfixed(a) % 256 == a[0] && Unfixed(b) % 256 == b[0];
      UnfixedInjective(a[1..], b[1..]);
      assert a == [a[0]] + a[1..] && b == [b[0]] + b[1..];
    }
  }

  /** A key's user part and the number in its trailer. */
  function UserPart(a: bytes): bytes
  {
    if |a| < 8 then a else a[..|a| - 8]
  }

  function Tag(a: bytes): nat
  {
    if |a| < 8 then 0 else Unfixed(a[|a| - 8..])
  }

  lemma {:induction false} InternalByParts(a: bytes, b: bytes)
    ensures InternalLess(a, b) <==>
              if |a| < 8 || |b| < 8 then |a| < 8 && (|b| >= 8 || BytewiseLess(a, b))
              else BytewiseLess(UserPart(a), UserPart(b)) || (UserPart(a) == UserPart(b) && Tag(a) > Tag(b))
    ensures |a| >= 8 && |b| >= 8 && UserPart(a) == UserPart(b) && Tag(a) == Tag(b) ==> a == b
  {
    hide Unfixed, Compare;
    if |a| >= 8 && |b| >= 8 {
      RankEmbedsOrder(UserPart(a), UserPart(b));
      if UserPart(a) == UserPart(b) && Tag(a) == Tag(b) {
        UnfixedInjective(a[|a| - 8..], b[|b| - 8..]);
        assert a == a[..|a| - 8] + a[|a| - 8..] && b == b[..|b| - 8] + b[|b| - 8..];
      }
    }
  }

  lemma {:induction false} InternalOrder(a: bytes, b: bytes, c: bytes)
    ensures !InternalLess(a, a)
    ensures InternalLess(a, b) && InternalLess(b, c) ==> InternalLess(a, c)
    ensures a == b || InternalLess(a, b) || InternalLess(b, a)
  {
    hide InternalLess, BytewiseLess, UserPart, Tag;
    InternalByParts(a, a);
    InternalByParts(a, b);
    InternalByParts(b, a);
    InternalByParts(b, c);
    InternalByParts(a, c);
    BytewiseOrder(UserPart(a), UserPart(b), UserPart(c));
    BytewiseOrder(a, b, c);
  }

  lemma {:induction false} InternalStrict()
    ensures Strict(InternalLess)
  {
    hide InternalLess;
    forall a, b, c: bytes
      ensures !InternalLess(a, a)
      ensures InternalLess(a, b) && InternalLess(b, c) ==> InternalLess(a, c)
      ensures a == b || InternalLess(a, b) || InternalLess(b, a)
    {
      InternalOrder(a, b, c);
    }
  }

  // ----- rows as entries of a block

  ghost predicate KeyOk(k: StoredKey)
  {
    k.sequence <= MAX_SEQUENCE
  }

  ghost predicate KeysOk(keys: seq<StoredKey>)
  {
    forall i :: 0 <= i < |keys| ==> KeyOk(keys[i])
  }

  ghost predicate RowsOk(rows: seq<Row>)
  {
    forall i :: 0 <= i < |rows| ==> KeyOk(rows[i].key)
  }

  function PairOf(row: Row): Pair
  {
    Pair(EncodeKey(row.key), row.value)
  }

  function PairsOf(rows: seq<Row>): (ps: seq<Pair>)
    ensures |ps| == |rows| && forall i :: 0 <= i < |rows| ==> ps[i] == PairOf(rows[i])
  {
    seq(|rows|, i requires 0 <= i < |rows| => PairOf(rows[i]))
  }

  /** Encoded keys compare as the keys do. */
  lemma {:induction false} EncodedLess(a: StoredKey, b: StoredKey)
    requires KeyOk(a) && KeyOk(b)
    ensures InternalLess(EncodeKey(a), EncodeKey(b)) <==> Less(Abstract(a), Abstract(b))
  {
    hide CompareInternal, Abstract;
    EncodingRefinesOrder(a, b);
  }

  lemma {:induction false} RowsIncrease(rows: seq<Row>)
    requires RowsSorted(rows) && RowsOk(rows)
    ensures Increasing(InternalLess, PairsOf(rows))
  {
    hide InternalLess, EncodeKey, Abstract;
    var ps := PairsOf(rows);
    forall i, j | 0 <= i < j < |ps| ensures InternalLess(ps[i].key, ps[j].key) {
      EncodedLess(rows[i].key, rows[j].key);
    }
  }

  /** Seeking an encoded key in a block of rows is seeking the key in the rows' entries. */
  lemma {:induction false} BoundIsSeek(rows: seq<Row>, target: StoredKey, k: nat)
    requires RowsOk(rows) && KeyOk(target) && LowerBound(InternalLess, PairsOf(rows), EncodeKey(target), k)
    ensures k == Levels.Seek(EntriesOf(rows), Abstract(target))
  {
    hide InternalLess, EncodeKey, Abstract;
    var es := EntriesOf(rows);
    forall j | 0 <= j < |rows|
        ensures Less(es[j].key, Abstract(target)) <==> InternalLess(PairsOf(rows)[j].key, EncodeKey(target)) {
      EncodedLess(rows[j].key, target);
    }
    SeekIs(es, Abstract(target), k);
  }
}
