/** CRC32C as in section 12.1 of RFC 3720, one bit at a time, and the masked form that is
    stored in files. */
module Crc32c {
  import opened Coding
  import opened CrcPolynomials

  const POLYNOMIAL: bv32 := 0x82f63b78
  const MASK_DELTA: bv32 := 0xa282ead8

  // Conversions between integers and bit vectors, named so that proofs need not look inside.

  function Bits(n: nat): bv32
    requires n < WORD32
  {
    n as bv32
  }

  function Number(x: bv32): (n: nat)
    ensures n < WORD32
  {
    x as nat
  }

  lemma {:induction false} NumberBits(x: bv32)
    ensures Bits(Number(x)) == x
  {
  }

  // ----- bytes as words

  function Bit(on: bool, weight: bv32): bv32
  {
    if on then weight else 0
  }

  function Word(b7: bool, b6: bool, b5: bool, b4: bool, b3: bool, b2: bool, b1: bool, b0: bool): bv32
  {
    Bit(b7, 128) | Bit(b6, 64) | Bit(b5, 32) | Bit(b4, 16) | Bit(b3, 8) | Bit(b2, 4) | Bit(b1, 2) | Bit(b0, 1)
  }

  function Shifted(n: nat, k: nat): nat
  {
    if k == 0 then n else Shifted(n, k - 1) / 2
  }

  /** A byte as a word, bit by bit. */
  function Widened(b: byte): bv32
  {
    Word(BitOf(b, 7), BitOf(b, 6), BitOf(b, 5), BitOf(b, 4), BitOf(b, 3), BitOf(b, 2), BitOf(b, 1), BitOf(b, 0))
  }

  predicate BitOf(n: nat, k: nat)
  {
    Shifted(n, k) % 2 == 1
  }

  lemma {:induction false} WordInjective(a7: bool, a6: bool, a5: bool, a4: bool, a3: bool, a2: bool, a1: bool, a0: bool,
                                         b7: bool, b6: bool, b5: bool, b4: bool, b3: bool, b2: bool, b1: bool, b0: bool)
    requires Word(a7, a6, a5, a4, a3, a2, a1, a0) == Word(b7, b6, b5, b4, b3, b2, b1, b0)
    ensures a7 == b7 && a6 == b6 && a5 == b5 && a4 == b4 && a3 == b3 && a2 == b2 && a1 == b1 && a0 == b0
  {
  }

  /** Numbers that agree in the low bits and in what is left of them are equal. */
  lemma {:induction false} SameBits(a: nat, b: nat, k: nat)
    requires Shifted(a, k) == Shifted(b, k) && forall i :: 0 <= i < k ==> BitOf(a, i) == BitOf(b, i)
    ensures a == b
  {
    if k > 0 {
      assert BitOf(a, k - 1) == BitOf(b, k - 1);
      SameBits(a, b, k - 1);
    }
  }

  lemma {:induction false} ByteShifted(b: byte)
    ensures Shifted(b, 8) == 0
  {
    assert Shifted(b, 1) < 128;
    assert Shifted(b, 2) < 64;
    assert Shifted(b, 3) < 32;
    assert Shifted(b, 4) < 16;
    assert Shifted(b, 5) < 8;
    assert Shifted(b, 6) < 4;
    assert Shifted(b, 7) < 2;
  }

  lemma {:induction false} WidenedInjective(a: byte, b: byte)
    requires Widened(a) == Widened(b)
    ensures a == b
  {
    hide Word, BitOf, Shifted;
    WordInjective(BitOf(a, 7), BitOf(a, 6), BitOf(a, 5), BitOf(a, 4), BitOf(a, 3), BitOf(a, 2), BitOf(a, 1),
        BitOf(a, 0),
                  BitOf(b, 7), BitOf(b, 6), BitOf(b, 5), BitOf(b, 4), BitOf(b, 3), BitOf(b, 2), BitOf(b, 1),
                      BitOf(b, 0));
    ByteShifted(a);
    ByteShifted(b);
    SameBits(a, b, 8);
  }

  // ----- the checksum

  function Not(x: bv32): bv32
  {
    !x
  }

  lemma {:induction false} DoubleNot(x: bv32)
    ensures Not(Not(x)) == x
  {
  }

  function Shift(crc: bv32): bv32
  {
    if crc & 1 != 0 then (crc >> 1) ^ POLYNOMIAL else crc >> 1
  }

  function Shifts(crc: bv32, n: nat): bv32
  {
    if n == 0 then crc else Shift(Shifts(crc, n - 1))
  }

  function ByteStep(crc: bv32, b: byte): bv32
  {
    Shifts(crc ^ Widened(b), 8)
  }

  /** The register after some bytes. */
  function Run(crc: bv32, data: bytes): bv32
  {
    if data == [] then crc else ByteStep(Run(crc, data[..|data| - 1]), data[|data| - 1])
  }

  function Extended(crc: bv32, data: bytes): bv32
  {
    Not(Run(Not(crc), data))
  }

  function Value(data: bytes): bv32
  {
    Extended(0, data)
  }

  lemma {:induction false} RunConcat(crc: bv32, a: bytes, b: bytes)
    ensures Run(crc, a + b) == Run(Run(crc, a), b)
  {
    if b == [] {
      assert a + b == a;
    } else {
      var k := |b| - 1;
      assert (a + b)[..|a + b| - 1] == a + b[..k];
      RunConcat(crc, a, b[..k]);
    }
  }

  /** Extending the checksum of one string by another gives the checksum of both together. */
  lemma {:induction false} ExtendConcat(crc: bv32, a: bytes, b: bytes)
    ensures Extended(Extended(crc, a), b) == Extended(crc, a + b)
  {
    hide Run, Not;
    RunConcat(Not(crc), a, b);
    DoubleNot(Run(Not(crc), a));
  }

  // ----- the checksum as a remainder

  /** The constant of the code is the generator without its leading term. */
  lemma {:induction false} PolynomialBits()
    ensures WordPoly(POLYNOMIAL) == Generator() - {32}
  {
    assert Halved(0x82f63b78, 1) == 0x417b1dbc;
    assert Halved(0x82f63b78, 2) == 0x20bd8ede;
    assert Halved(0x82f63b78, 3) == 0x105ec76f;
    assert Halved(0x82f63b78, 4) == 0x82f63b7;
    assert Halved(0x82f63b78, 5) == 0x417b1db;
    assert Halved(0x82f63b78, 6) == 0x20bd8ed;
    assert Halved(0x82f63b78, 7) == 0x105ec76;
    assert Halved(0x82f63b78, 8) == 0x82f63b;
    assert Halved(0x82f63b78, 9) == 0x417b1d;
    assert Halved(0x82f63b78, 10) == 0x20bd8e;
    assert Halved(0x82f63b78, 11) == 0x105ec7;
    assert Halved(0x82f63b78, 12) == 0x82f63;
    assert Halved(0x82f63b78, 13) == 0x417b1;
    assert Halved(0x82f63b78, 14) == 0x20bd8;
    assert Halved(0x82f63b78, 15) == 0x105ec;
    assert Halved(0x82f63b78, 16) == 0x82f6;
    assert Halved(0x82f63b78, 17) == 0x417b;
    assert Halved(0x82f63b78, 18) == 0x20bd;
    assert Halved(0x82f63b78, 19) == 0x105e;
    assert Halved(0x82f63b78, 20) == 0x82f;
    assert Halved(0x82f63b78, 21) == 0x417;
    assert Halved(0x82f63b78, 22) == 0x20b;
    assert Halved(0x82f63b78, 23) == 0x105;
    assert Halved(0x82f63b78, 24) == 0x82;
    assert Halved(0x82f63b78, 25) == 0x41;
    assert Halved(0x82f63b78, 26) == 0x20;
    assert Halved(0x82f63b78, 27) == 0x10;
    assert Halved(0x82f63b78, 28) == 0x8;
    assert Halved(0x82f63b78, 29) == 0x4;
    assert Halved(0x82f63b78, 30) == 0x2;
    assert Halved(0x82f63b78, 31) == 0x1;
    assert Halved(0x82f63b78, 32) == 0x0;
    hide Halved;
  }

  /** One shift of the register multiplies by x and subtracts the generator if that brings x^32 up. */
  lemma {:induction false} ShiftIsTimes(x: bv32)
    ensures Congruent(WordPoly(Shift(x)), Times(WordPoly(x), 1))
  {
    ShiftCases(x);
    WordHalf(x);
    WordXor(Half(x), POLYNOMIAL);
    PolynomialBits();
    GeneratorIsMultiple();
    var p, h := Times(WordPoly(x), 1), WordPoly(Half(x));
    assert 32 !in h;
    hide WordPoly, Multiple, Times, Shift, Half, Xor;
    if Odd(x) {
      assert BitAt(x, 0);
      assert Add(WordPoly(Shift(x)), p) == Generator();
    } else {
      assert !BitAt(x, 0);
      assert Add(h, p) == {};
    }
  }

  lemma {:induction false} ShiftCases(x: bv32)
    ensures Shift(x) == if Odd(x) then Xor(Half(x), POLYNOMIAL) else Half(x)
  {
  }

  lemma {:induction false} ByteBits(b: byte, e: nat)
    requires e < 8
    ensures ByteCoefficient(b, e) <==> BitOf(b, 7 - e)
  {
    Quotients(b);
    hide Shifted;
  }

  lemma {:induction false} Quotients(b: byte)
    ensures Shifted(b, 0) == b && Shifted(b, 1) == b / 2 && Shifted(b, 2) == b / 4 && Shifted(b, 3) == b / 8
    ensures Shifted(b, 4) == b / 16 && Shifted(b, 5) == b / 32 && Shifted(b, 6) == b / 64 && Shifted(b, 7) == b / 128
  {
    assert Shifted(b, 3) == Shifted(b, 2) / 2;
    assert Shifted(b, 5) == Shifted(b, 4) / 2;
  }

  lemma {:induction false} WordStep(b7: bool, b6: bool, b5: bool, b4: bool, b3: bool, b2: bool, b1: bool, b0: bool)
    ensures Half(Word(b7, b6, b5, b4, b3, b2, b1, b0)) == Word(false, b7, b6, b5, b4, b3, b2, b1)
    ensures Odd(Word(b7, b6, b5, b4, b3, b2, b1, b0)) <==> b0
    ensures Word(false, false, false, false, false, false, false, false) == 0
  {
  }

  predicate Pick(b7: bool, b6: bool, b5: bool, b4: bool, b3: bool, b2: bool, b1: bool, b0: bool, k: nat)
  {
    if k == 0 then b0 else if k == 1 then b1 else if k == 2 then b2 else if k == 3 then b3
    else if k == 4 then b4 else if k == 5 then b5 else if k == 6 then b6 else k == 7 && b7
  }

  lemma {:induction false} WordBit(b7: bool, b6: bool, b5: bool, b4: bool, b3: bool, b2: bool, b1: bool, b0: bool,
                                   k: nat)
    ensures BitAt(Word(b7, b6, b5, b4, b3, b2, b1, b0), k) <==> Pick(b7, b6, b5, b4, b3, b2, b1, b0, k)
    decreases k
  {
    var w := Word(b7, b6, b5, b4, b3, b2, b1, b0);
    WordStep(b7, b6, b5, b4, b3, b2, b1, b0);
    hide Word, Half, Odd;
    if k == 0 {
      assert Halved(w, 0) == w;
    } else {
      HalvedHalf(w, k - 1);
      hide Halved;
      WordBit(false, b7, b6, b5, b4, b3, b2, b1, k - 1);
    }
  }

  /** A byte mixed into the register stands at x^24 and up. */
  lemma {:induction false} WidenedPoly(b: byte)
    ensures WordPoly(Widened(b)) == Times(BytePoly(b), 24)
  {
    var w := Widened(b);
    hide Word, Halved, BitOf, ByteCoefficient;
    forall e: nat ensures e in WordPoly(w) <==> e in Times(BytePoly(b), 24) {
      InTimes(BytePoly(b), 24, e);
      if e < 32 {
        WidenedBit(b, 31 - e);
        if e >= 24 { ByteBits(b, e - 24); }
      }
    }
  }

  lemma {:induction false} WidenedBit(b: byte, k: nat)
    ensures BitAt(Widened(b), k) <==> k < 8 && BitOf(b, k)
  {
    hide Word, Halved, BitOf, BitAt;
    WordBit(BitOf(b, 7), BitOf(b, 6), BitOf(b, 5), BitOf(b, 4), BitOf(b, 3), BitOf(b, 2), BitOf(b, 1), BitOf(b, 0), k);
  }

  lemma {:induction false} ShiftsAreTimes(x: bv32, n: nat)
    ensures Congruent(WordPoly(Shifts(x, n)), Times(WordPoly(x), n))
  {
    hide WordPoly, Congruent, Shift, Times;
    if n == 0 {
      CongruentRefl(WordPoly(x));
      TimesTimes(WordPoly(x), 0, 0);
    } else {
      ShiftsAreTimes(x, n - 1);
      ShiftIsTimes(Shifts(x, n - 1));
      CongruentTimes(WordPoly(Shifts(x, n - 1)), Times(WordPoly(x), n - 1), 1);
      TimesTimes(WordPoly(x), n - 1, 1);
      CongruentTrans(WordPoly(Shifts(x, n)), Times(WordPoly(Shifts(x, n - 1)), 1), Times(WordPoly(x), n));
    }
  }

  lemma {:induction false} ByteStepIsTimes(x: bv32, b: byte)
    ensures Congruent(WordPoly(ByteStep(x, b)), Add(Times(WordPoly(x), 8), Times(BytePoly(b), 32)))
  {
    var y := Xor(x, Widened(b));
    ByteStepMixes(x, b);
    hide WordPoly, Congruent, Shifts, Times, BytePoly, Widened, Xor, ByteStep, Add;
    ShiftsAreTimes(y, 8);
    WordXor(x, Widened(b));
    WidenedPoly(b);
    TimesAdd(WordPoly(x), Times(BytePoly(b), 24), 8);
    TimesTimes(BytePoly(b), 24, 8);
  }

  lemma {:induction false} ByteStepMixes(x: bv32, b: byte)
    ensures ByteStep(x, b) == Shifts(Xor(x, Widened(b)), 8)
  {
    hide Shifts, Widened;
  }

  /** The register after a message is congruent to the message, moved up by 32, plus the register before it, moved
      up by the length of the message. */
  lemma {:induction false} RunIsCongruent(x: bv32, data: bytes)
    ensures Congruent(WordPoly(Run(x, data)), Add(Times(WordPoly(x), 8 * |data|), Times(MessagePoly(data), 32)))
  {
    hide WordPoly, Congruent, Times, BytePoly, ByteStep, Add;
    var p := WordPoly(x);
    if data == [] {
      CongruentRefl(p);
      TimesTimes(p, 0, 0);
      TimesNone(32);
      AddSelf(p);
    } else {
      var k := |data| - 1;
      var before, b := data[..k], data[k];
      var r, m, c := WordPoly(Run(x, before)), MessagePoly(before), Times(BytePoly(b), 32);
      RunIsCongruent(x, before);
      ByteStepIsTimes(Run(x, before), b);
      var q := Add(Times(p, 8 * k), Times(m, 32));
      CongruentTimes(r, q, 8);
      CongruentAdd(Times(r, 8), Times(q, 8), c);
      CongruentTrans(WordPoly(Run(x, data)), Add(Times(r, 8), c), Add(Times(q, 8), c));
      NextByte(p, m, BytePoly(b), k);
    }
  }

  lemma {:induction false} ExtendedIsChecksum(crc: bv32, data: bytes)
    ensures IsChecksum(crc, data, Extended(crc, data))
  {
    var x := Run(Not(crc), data);
    DoubleNot(x);
    assert !Extended(crc, data) == x;
    assert forall e :: e in WordPoly(x) ==> e < 32;
    hide WordPoly, Multiple, Run, Times, Extended;
    RunIsCongruent(Not(crc), data);
    var q := Add(Times(WordPoly(!crc), 8 * |data|), Times(MessagePoly(data), 32));
    hide MessagePoly;
    AddAssoc(WordPoly(x), q, {});
  }

  lemma {:induction false} ByteStepIsRemainder(x: bv32, b: byte)
    ensures IsRemainder(Add(Times(WordPoly(x), 8), Times(BytePoly(b), 32)), WordPoly(ByteStep(x, b)))
  {
    hide Times, BytePoly, Multiple, ByteStep, Coefficient;
    ByteStepIsTimes(x, b);
    AddAssoc(WordPoly(ByteStep(x, b)), Add(Times(WordPoly(x), 8), Times(BytePoly(b), 32)), {});
  }

  /** A byte is mixed in and eight shifts follow: division of the register, moved up by eight places, with the byte
      added to its leading coefficients. */
  method ExtendByte(crc: bv32, b: byte) returns (r: bv32)
    ensures r == ByteStep(crc, b)
    ensures IsRemainder(Add(Times(WordPoly(crc), 8), Times(BytePoly(b), 32)), WordPoly(r))
  {
    r := crc ^ Widened(b);
    for bit := 0 to 8
      invariant r == Shifts(crc ^ Widened(b), bit)
    {
      if r & 1 != 0 {
        r := (r >> 1) ^ POLYNOMIAL;
      } else {
        r := r >> 1;
      }
    }
    ByteStepIsRemainder(crc, b);
  }

  /** `Extend`, a byte at a time. */
  method Extend(crc: bv32, data: bytes) returns (r: bv32)
    ensures r == Extended(crc, data)
    ensures IsChecksum(crc, data, r)
  {
    r := Not(crc);
    for i := 0 to |data|
      invariant r == Run(Not(crc), data[..i])
    {
      assert data[..i + 1][..i] == data[..i];
      r := ExtendByte(r, data[i]);
    }
    assert data[..|data|] == data;
    r := Not(r);
    ExtendedIsChecksum(crc, data);
  }

  // ----- error detection

  lemma {:induction false} ShiftInjective(x: bv32, y: bv32)
    requires Shift(x) == Shift(y)
    ensures x == y
  {
  }

  lemma {:induction false} ShiftsInjective(x: bv32, y: bv32, n: nat)
    requires Shifts(x, n) == Shifts(y, n)
    ensures x == y
  {
    if n > 0 {
      ShiftInjective(Shifts(x, n - 1), Shifts(y, n - 1));
      ShiftsInjective(x, y, n - 1);
    }
  }

  lemma {:induction false} ByteStepInjective(x: bv32, y: bv32, a: byte, b: byte)
    requires ByteStep(x, a) == ByteStep(y, b)
    ensures a == b ==> x == y
    ensures x == y ==> a == b
  {
    hide Shifts, Widened;
    MixInjective(x, y, Widened(a), Widened(b));
    if x == y {
      WidenedInjective(a, b);
    }
  }

  lemma {:induction false} MixInjective(x: bv32, y: bv32, p: bv32, q: bv32)
    requires Shifts(x ^ p, 8) == Shifts(y ^ q, 8)
    ensures p == q ==> x == y
    ensures x == y ==> p == q
  {
    hide Shifts;
    ShiftsInjective(x ^ p, y ^ q, 8);
    XorCancels(x, y, p, q);
  }

  lemma {:induction false} XorCancels(x: bv32, y: bv32, a: bv32, b: bv32)
    requires x ^ a == y ^ b
    ensures a == b ==> x == y
    ensures x == y ==> a == b
  {
  }

  lemma {:induction false} RunInjective(x: bv32, y: bv32, data: bytes)
    requires Run(x, data) == Run(y, data)
    ensures x == y
  {
    if data != [] {
      var k := |data| - 1;
      ByteStepInjective(Run(x, data[..k]), Run(y, data[..k]), data[k], data[k]);
      RunInjective(x, y, data[..k]);
    }
  }

  /** Changing one byte anywhere always changes the checksum. */
  lemma {:induction false} OneByteDetected(before: bytes, x: byte, y: byte, after: bytes)
    requires Value(before + [x] + after) == Value(before + [y] + after)
    ensures x == y
  {
    var a, b := before + [x], before + [y];
    assert a[..|a| - 1] == before && b[..|b| - 1] == before;
    assert Run(Not(0), a) == ByteStep(Run(Not(0), before), x) && Run(Not(0), b) == ByteStep(Run(Not(0), before), y);
    hide Run, ByteStep, Not;
    RunConcat(Not(0), a, after);
    RunConcat(Not(0), b, after);
    DoubleNot(Run(Not(0), a + after));
    DoubleNot(Run(Not(0), b + after));
    RunInjective(Run(Not(0), a), Run(Not(0), b), after);
    ByteStepInjective(Run(Not(0), before), Run(Not(0), before), x, y);
  }

  // ----- masking

  function Mask(crc: bv32): bv32
  {
    ((crc >> 15) | (crc << 17)) + MASK_DELTA
  }

  function Unmask(masked: bv32): bv32
  {
    var rot := masked - MASK_DELTA;
    (rot >> 17) | (rot << 15)
  }

  lemma {:induction false} UnmaskMask(crc: bv32)
    ensures Unmask(Mask(crc)) == crc
  {
  }

  /** A checksum as stored: masked, four bytes, least significant first. */
  function Stored(crc: bv32): (b: bytes)
    ensures |b| == 4
  {
    Fixed(Number(Mask(crc)), 4)
  }

  function Loaded(b: bytes): bv32
    requires |b| == 4
  {
    Unmask(Bits(Unfixed(b) % WORD32))
  }

  lemma {:induction false} StoredRoundTrip(crc: bv32)
    ensures Loaded(Stored(crc)) == crc
  {
    hide Mask, Unmask, Fixed, Unfixed, Power, Bits, Number;
    var n := Number(Mask(crc));
    Width4();
    FixedRoundTrip(n, 4);
    assert n % WORD32 == n;
    NumberBits(Mask(crc));
    UnmaskMask(crc);
  }
}
