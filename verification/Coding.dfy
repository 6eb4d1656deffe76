/** Byte strings and the integer codecs of the storage formats: little-endian fixed-width
    integers, base-128 varints and length-prefixed slices. */
module Coding {
  import opened Wrappers

  type byte = b: int | 0 <= b < 256

  type bytes = seq<byte>

  const WORD32: nat := 0x1_0000_0000
  const WORD64: nat := 0x1_0000_0000_0000_0000

  // ----- fixed-width integers

  /** The `width` low-order bytes of `n`, least significant first. */
  function Fixed(n: nat, width: nat): (b: bytes)
    ensures |b| == width
  {
    if width == 0 then [] else [n % 256] + Fixed(n / 256, width - 1)
  }

  function Unfixed(b: bytes): nat
  {
    if b == [] then 0 else b[0] + 256 * Unfixed(b[1..])
  }

  function Power(base: nat, e: nat): nat
  {
    if e == 0 then 1 else base * Power(base, e - 1)
  }

  /** Decoding undoes encoding for every integer that fits the width. */
  lemma {:induction false} FixedRoundTrip(n: nat, width: nat)
    requires n < Power(256, width)
    ensures Unfixed(Fixed(n, width)) == n
  {
    if width > 0 {
      assert n / 256 < Power(256, width - 1);
      FixedRoundTrip(n / 256, width - 1);
      assert Fixed(n, width)[1..] == Fixed(n / 256, width - 1);
    }
  }

  lemma {:induction false} Width4()
    ensures Power(256, 4) == WORD32
  {
    assert Power(256, 2) == 65536;
    assert Power(256, 3) == 16777216;
  }

  lemma {:induction false} Width8()
    ensures Power(256, 8) == WORD64
  {
    Width4();
    assert Power(256, 5) == 0x100_0000_0000;
    assert Power(256, 6) == 0x1_0000_0000_0000;
    assert Power(256, 7) == 0x100_0000_0000_0000;
  }

  // ----- varints

  function Varint(n: nat): (b: bytes)
    ensures |b| >= 1
  {
    if n < 128 then [n] else [128 + n % 128] + Varint(n / 128)
  }

  /** The encoding loop: seven bits at a time, high bit set on all but the last byte. */
  method EncodeVarint(value: nat) returns (buffer: bytes)
    ensures buffer == Varint(value)
  {
    buffer := [];
    var v := value;
    while v >= 128
      invariant buffer + Varint(v) == Varint(value)
    {
      assert buffer + Varint(v) == buffer + [128 + v % 128] + Varint(v / 128);
      buffer := buffer + [128 + v % 128];
      v := v / 128;
    }
    buffer := buffer + [v];
  }

  /** Value and length of the varint at the front of `b`, reading at most `left` bytes. */
  function ReadVarint(b: bytes, left: nat): (r: Option<(nat, nat)>)
    ensures r.Some? ==> 1 <= r.value.1 <= |b| && r.value.1 <= left
  {
    if left == 0 || b == [] then None
    else if b[0] < 128 then Some((b[0], 1))
    else
      match ReadVarint(b[1..], left - 1)
      case None => None
      case Some((v, n)) => Some((b[0] - 128 + 128 * v, n + 1))
  }

  /** A 32-bit varint: at most five bytes, the sum truncated to 32 bits. */
  function GetVarint32(b: bytes): (r: Option<(nat, bytes)>)
    ensures r.Some? ==> |r.value.1| < |b|
  {
    match ReadVarint(b, 5)
    case None => None
    case Some((v, n)) => Some((v % WORD32, b[n..]))
  }

  /** A 64-bit varint: at most ten bytes, the tenth holding at most one bit. */
  function GetVarint64(b: bytes): (r: Option<(nat, bytes)>)
    ensures r.Some? ==> |r.value.1| < |b|
  {
    match ReadVarint(b, 10)
    case None => None
    case Some((v, n)) => if n == 10 && b[9] > 1 then None else Some((v, b[n..]))
  }

  /** What decoding the rest amounts to once `p` bytes gave `result`, the next seven bits
      weighing `weight`. */
  function Scaled(t: Option<(nat, nat)>, result: nat, weight: nat, p: nat): Option<(nat, nat)>
  {
    if t.None? then None else Some((result + weight * t.value.0, p + t.value.1))
  }

  lemma {:induction false} ScaledStep(t: Option<(nat, nat)>, c: nat, result: nat, weight: nat, p: nat)
    ensures t.Some? ==>
              Scaled(Some((c + 128 * t.value.0, t.value.1 + 1)), result, weight, p) ==
              Scaled(t, result + weight * c, weight * 128, p + 1)
  {
    if t.Some? {
      assert weight * (c + 128 * t.value.0) == weight * c + (weight * 128) * t.value.0;
    }
  }

  /** One more byte: the last group, or a group that the next ones are added to. */
  lemma {:induction false} ScaledByte(b: bytes, limit: nat, p: nat, result: nat, weight: nat)
    requires p < limit && p < |b|
    ensures var t := Scaled(ReadVarint(b[p..], limit - p), result, weight, p);
            if b[p] < 128 then t == Some((result + weight * b[p], p + 1))
            else t == Scaled(ReadVarint(b[p + 1..], limit - p - 1), result + weight * (b[p] - 128), weight * 128, p + 1)
  {
    assert b[p..][1..] == b[p + 1..];
    if b[p] >= 128 {
      ScaledStep(ReadVarint(b[p + 1..], limit - p - 1), b[p] - 128, result, weight, p);
    }
  }

  /** The decoding loop accumulates shifted groups of seven bits. */
  method DecodeVarint(b: bytes, limit: nat) returns (r: Option<(nat, nat)>)
    ensures r == ReadVarint(b, limit)
  {
    var result: nat, weight: nat, p: nat := 0, 1, 0;
    assert b[0..] == b;
    while p < limit && p < |b|
      invariant p <= |b| && p <= limit
      invariant ReadVarint(b, limit) == Scaled(ReadVarint(b[p..], limit - p), result, weight, p)
    {
      hide ReadVarint, Scaled;
      ScaledByte(b, limit, p, result, weight);
      var c := b[p];
      if c < 128 {
        return Some((result + weight * c, p + 1));
      }
      result, weight, p := result + weight * (c - 128), weight * 128, p + 1;
    }
    r := None;
  }

  lemma {:induction false} VarintRoundTrip(n: nat, rest: bytes, left: nat)
    requires 1 <= left && n < Power(128, left)
    ensures ReadVarint(Varint(n) + rest, left) == Some((n, |Varint(n)|))
    ensures |Varint(n)| <= left
  {
    if n >= 128 {
      assert left > 1;
      var b := Varint(n) + rest;
      assert b[1..] == Varint(n / 128) + rest;
      assert n / 128 < Power(128, left - 1);
      VarintRoundTrip(n / 128, rest, left - 1);
    }
  }

  lemma {:induction false} VarintTopByte(n: nat, k: nat)
    requires |Varint(n)| == k + 1
    requires n < 2 * Power(128, k)
    ensures Varint(n)[k] <= 1
  {
    if k == 0 {
    } else {
      assert n >= 128;
      VarintTopByte(n / 128, k - 1);
    }
  }

  lemma {:induction false} Powers128()
    ensures Power(128, 5) == 0x8_0000_0000
    ensures Power(128, 9) == 0x8000_0000_0000_0000
    ensures Power(128, 10) >= WORD64
  {
    assert Power(128, 2) == 16384;
    assert Power(128, 3) == 2097152;
    assert Power(128, 4) == 0x1000_0000;
    assert Power(128, 5) == 0x8_0000_0000;
    assert Power(128, 6) == 0x400_0000_0000;
    assert Power(128, 7) == 0x2_0000_0000_0000;
    assert Power(128, 8) == 0x100_0000_0000_0000;
  }

  lemma {:induction false} Varint32RoundTrip(n: nat, rest: bytes)
    requires n < WORD32
    ensures GetVarint32(Varint(n) + rest) == Some((n, rest))
  {
    Powers128();
    VarintRoundTrip(n, rest, 5);
    assert (Varint(n) + rest)[|Varint(n)|..] == rest;
  }

  lemma {:induction false} Varint64RoundTrip(n: nat, rest: bytes)
    requires n < WORD64
    ensures GetVarint64(Varint(n) + rest) == Some((n, rest))
  {
    Powers128();
    VarintRoundTrip(n, rest, 10);
    if |Varint(n)| == 10 {
      VarintTopByte(n, 9);
    }
    assert (Varint(n) + rest)[|Varint(n)|..] == rest;
  }

  // ----- length-prefixed slices

  function LengthPrefixed(s: bytes): (b: bytes)
    ensures |b| >= 1
  {
    Varint(|s|) + s
  }

  function GetLengthPrefixed(b: bytes): (r: Option<(bytes, bytes)>)
    ensures r.Some? ==> |r.value.1| < |b|
  {
    match GetVarint32(b)
    case None => None
    case Some((n, rest)) => if |rest| < n then None else Some((rest[..n], rest[n..]))
  }

  lemma {:induction false} LengthPrefixedRoundTrip(s: bytes, rest: bytes)
    requires |s| < WORD32
    ensures GetLengthPrefixed(LengthPrefixed(s) + rest) == Some((s, rest))
  {
    assert LengthPrefixed(s) + rest == Varint(|s|) + (s + rest);
    Varint32RoundTrip(|s|, s + rest);
    assert (s + rest)[..|s|] == s && (s + rest)[|s|..] == rest;
  }
}
