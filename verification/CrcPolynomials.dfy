/** What the checksum computes: the remainder of the message on division by the CRC32C polynomial. Polynomials
    with 0/1 coefficients are sets of exponents. */
module CrcPolynomials {
  import opened Coding

  type Poly = set<nat>

  /** x^32 + x^28 + x^27 + x^26 + x^25 + x^23 + x^22 + x^20 + x^19 + x^18 + x^14 + x^13 + x^11 + x^10 + x^9 + x^8
      + x^6 + 1, the generator of section 12.1 of RFC 3720. */
  function Generator(): Poly
  {
    {32, 28, 27, 26, 25, 23, 22, 20, 19, 18, 14, 13, 11, 10, 9, 8, 6, 0}
  }

  /** Coefficients add modulo 2. */
  function Add(p: Poly, q: Poly): Poly
  {
    (p - q) + (q - p)
  }

  /** Multiplication by x^k. */
  function Times(p: Poly, k: nat): Poly
  {
    set e | e in p :: e + k
  }

  /** The generator times the terms of `q` below x^n. */
  function Product(q: Poly, n: nat): Poly
  {
    if n == 0 then {} else Add(Product(q, n - 1), if n - 1 in q then Times(Generator(), n - 1) else {})
  }

  ghost predicate Multiple(p: Poly)
  {
    exists q, n :: p == Product(q, n)
  }

  ghost predicate Congruent(p: Poly, q: Poly)
  {
    Multiple(Add(p, q))
  }

  /** `r` is what division of `p` by the generator leaves. */
  ghost predicate IsRemainder(p: Poly, r: Poly)
  {
    (forall e :: e in r ==> e < 32) && Congruent(p, r)
  }

  // ----- arithmetic

  lemma {:induction false} AddAssoc(p: Poly, q: Poly, r: Poly)
    ensures Add(Add(p, q), r) == Add(p, Add(q, r)) && Add(p, q) == Add(q, p)
  {
  }

  lemma {:induction false} AddSelf(p: Poly)
    ensures Add(p, p) == {} && Add(p, {}) == p && Add({}, p) == p
  {
  }

  lemma {:induction false} AddSwap(a: Poly, b: Poly, c: Poly, d: Poly)
    ensures Add(Add(a, b), Add(c, d)) == Add(Add(a, c), Add(b, d))
  {
  }

  lemma {:induction false} InTimes(p: Poly, k: nat, e: nat)
    ensures e in Times(p, k) <==> e >= k && e - k in p
  {
    if e >= k && e - k in p { assert (e - k) + k in Times(p, k); }
  }

  lemma {:induction false} TimesAdd(p: Poly, q: Poly, k: nat)
    ensures Times(Add(p, q), k) == Add(Times(p, k), Times(q, k))
  {
    forall e ensures e in Times(Add(p, q), k) <==> e in Add(Times(p, k), Times(q, k)) {
      if e >= 0 {
        InTimes(Add(p, q), k, e);
        InTimes(p, k, e);
        InTimes(q, k, e);
      }
    }
  }

  lemma {:induction false} TimesTimes(p: Poly, j: nat, k: nat)
    ensures Times(Times(p, j), k) == Times(p, j + k) && Times(p, 0) == p
  {
    forall e: nat ensures e in Times(Times(p, j), k) <==> e in Times(p, j + k) {
      InTimes(Times(p, j), k, e);
      if e >= k { InTimes(p, j, e - k); }
      InTimes(p, j + k, e);
    }
    forall e: nat ensures e in Times(p, 0) <==> e in p { InTimes(p, 0, e); }
  }

  // ----- multiples of the generator

  lemma {:induction false} ProductAdd(a: Poly, b: Poly, n: nat)
    ensures Add(Product(a, n), Product(b, n)) == Product(Add(a, b), n)
  {
    if n > 0 {
      ProductAdd(a, b, n - 1);
      var g := Times(Generator(), n - 1);
      AddSwap(Product(a, n - 1), if n - 1 in a then g else {}, Product(b, n - 1), if n - 1 in b then g else {});
      AddSelf(g);
    }
  }

  function Below(q: Poly, n: nat): Poly
  {
    set e | e in q && e < n
  }

  lemma {:induction false} ProductBelow(q: Poly, n: nat, m: nat)
    requires n <= m
    ensures Product(Below(q, n), m) == Product(q, n)
  {
    if n < m {
      ProductBelow(q, n, m - 1);
      AddSelf(Product(q, n));
    } else {
      ProductSame(Below(q, n), q, n);
    }
  }

  lemma {:induction false} ProductSame(a: Poly, b: Poly, n: nat)
    requires forall e :: e < n ==> (e in a <==> e in b)
    ensures Product(a, n) == Product(b, n)
  {
    if n > 0 {
      ProductSame(a, b, n - 1);
    }
  }

  lemma {:induction false} ProductTimes(q: Poly, n: nat, k: nat)
    ensures Times(Product(q, n), k) == Product(Times(q, k), n + k)
  {
    if n == 0 {
      NoLowTerms(q, k, k);
    } else {
      ProductTimes(q, n - 1, k);
      var term := if n - 1 in q then Times(Generator(), n - 1) else {};
      TimesAdd(Product(q, n - 1), term, k);
      TimesTimes(Generator(), n - 1, k);
      InTimes(q, k, n + k - 1);
    }
  }

  lemma {:induction false} NoLowTerms(q: Poly, k: nat, m: nat)
    requires m <= k
    ensures Product(Times(q, k), m) == {}
  {
    if m > 0 {
      NoLowTerms(q, k, m - 1);
      InTimes(q, k, m - 1);
    }
  }

  lemma {:induction false} MultipleAdd(p: Poly, q: Poly)
    requires Multiple(p) && Multiple(q)
    ensures Multiple(Add(p, q))
  {
    var a, i: nat :| p == Product(a, i);
    var b, j: nat :| q == Product(b, j);
    var n := if i < j then j else i;
    ProductBelow(a, i, n);
    ProductBelow(b, j, n);
    ProductAdd(Below(a, i), Below(b, j), n);
  }

  lemma {:induction false} MultipleTimes(p: Poly, k: nat)
    requires Multiple(p)
    ensures Multiple(Times(p, k))
  {
    var q, n: nat :| p == Product(q, n);
    ProductTimes(q, n, k);
  }

  lemma {:induction false} GeneratorIsMultiple()
    ensures Multiple(Generator()) && Multiple({})
  {
    hide Generator;
    TimesTimes(Generator(), 0, 0);
    AddSelf(Generator());
    assert Product({0}, 0) == {};
    assert Product({0}, 1) == Generator();
    assert Product({}, 0) == {};
  }

  lemma {:induction false} CongruentTrans(p: Poly, q: Poly, r: Poly)
    requires Congruent(p, q) && Congruent(q, r)
    ensures Congruent(p, r)
  {
    MultipleAdd(Add(p, q), Add(q, r));
    assert Add(Add(p, q), Add(q, r)) == Add(p, r);
  }

  lemma {:induction false} CongruentAdd(p: Poly, q: Poly, r: Poly)
    requires Congruent(p, q)
    ensures Congruent(Add(p, r), Add(q, r))
  {
    assert Add(Add(p, r), Add(q, r)) == Add(p, q);
  }

  lemma {:induction false} CongruentTimes(p: Poly, q: Poly, k: nat)
    requires Congruent(p, q)
    ensures Congruent(Times(p, k), Times(q, k))
  {
    MultipleTimes(Add(p, q), k);
    TimesAdd(p, q, k);
  }

  // ----- remainders are unique

  lemma {:induction false} ProductDegree(q: Poly, n: nat, e: nat)
    requires e in Product(q, n)
    ensures e < n + 32
  {
    if e in Product(q, n - 1) {
      ProductDegree(q, n - 1, e);
    } else {
      InTimes(Generator(), n - 1, e);
    }
  }

  /** A multiple of the generator other than zero has a term x^32 or higher. */
  lemma {:induction false} SmallMultipleIsZero(q: Poly, n: nat)
    requires forall e :: e in Product(q, n) ==> e < 32
    ensures Product(q, n) == {}
  {
    if n > 0 {
      if n - 1 in q {
        InTimes(Generator(), n - 1, n + 31);
        if n + 31 in Product(q, n - 1) { ProductDegree(q, n - 1, n + 31); }
        assert n + 31 in Product(q, n);
      } else {
        AddSelf(Product(q, n - 1));
        assert Product(q, n) == Product(q, n - 1);
        SmallMultipleIsZero(q, n - 1);
      }
    }
  }

  /** Division leaves one remainder. */
  lemma {:induction false} RemainderUnique(p: Poly, a: Poly, b: Poly)
    requires IsRemainder(p, a) && IsRemainder(p, b)
    ensures a == b
  {
    MultipleAdd(Add(p, a), Add(p, b));
    assert Add(Add(p, a), Add(p, b)) == Add(a, b);
    var q, n: nat :| Add(a, b) == Product(q, n);
    SmallMultipleIsZero(q, n);
    assert forall e :: e in Add(a, b) <==> (e in a) != (e in b);
  }

  // ----- words as polynomials

  function Half(x: bv32): bv32
  {
    x >> 1
  }

  function Xor(x: bv32, y: bv32): bv32
  {
    x ^ y
  }

  function Halved(x: bv32, k: nat): bv32
  {
    if k == 0 then x else Half(Halved(x, k - 1))
  }

  predicate Odd(x: bv32)
  {
    x & 1 != 0
  }

  predicate BitAt(x: bv32, k: nat)
  {
    Odd(Halved(x, k))
  }

  /** The coefficient of x^e in a word with its bits reflected: the lowest bit belongs to x^31. */
  predicate Coefficient(x: bv32, e: nat)
    requires e < 32
  {
    BitAt(x, 31 - e)
  }

  function WordPoly(x: bv32): Poly
  {
    set e: nat | e < 32 && Coefficient(x, e)
  }

  lemma {:induction false} HalvedHalf(x: bv32, k: nat)
    ensures Halved(Half(x), k) == Halved(x, k + 1)
  {
    hide Half;
    if k > 0 {
      HalvedHalf(x, k - 1);
    }
  }

  lemma {:induction false} XorHalf(x: bv32, y: bv32)
    ensures Half(Xor(x, y)) == Xor(Half(x), Half(y))
    ensures Odd(Xor(x, y)) <==> Odd(x) != Odd(y)
  {
  }

  lemma {:induction false} HalvedXor(x: bv32, y: bv32, k: nat)
    ensures Halved(Xor(x, y), k) == Xor(Halved(x, k), Halved(y, k))
  {
    hide Half, Xor;
    if k > 0 {
      HalvedXor(x, y, k - 1);
      XorHalf(Halved(x, k - 1), Halved(y, k - 1));
    }
  }

  lemma {:induction false} BitXor(x: bv32, y: bv32, k: nat)
    ensures BitAt(Xor(x, y), k) <==> BitAt(x, k) != BitAt(y, k)
  {
    hide Odd, Halved, Xor, Half;
    HalvedXor(x, y, k);
    XorHalf(Halved(x, k), Halved(y, k));
  }

  lemma {:induction false} WordXor(x: bv32, y: bv32)
    ensures WordPoly(Xor(x, y)) == Add(WordPoly(x), WordPoly(y))
  {
    hide BitAt, Xor;
    forall e: nat | e < 32 ensures e in WordPoly(Xor(x, y)) <==> e in Add(WordPoly(x), WordPoly(y)) {
      BitXor(x, y, 31 - e);
    }
  }

  lemma {:induction false} AllHalves(x: bv32)
    ensures var y := Half(Half(Half(Half(Half(Half(Half(Half(x))))))));
            var z := Half(Half(Half(Half(Half(Half(Half(Half(y))))))));
            var u := Half(Half(Half(Half(Half(Half(Half(Half(z))))))));
            Half(Half(Half(Half(Half(Half(Half(Half(u)))))))) == 0
  {
  }

  lemma {:induction false} Halved8(x: bv32, k: nat)
    ensures Halved(x, k + 8) == var y := Halved(x, k); Half(Half(Half(Half(Half(Half(Half(Half(y))))))))
  {
    hide Half;
    assert Halved(x, k + 2) == Half(Half(Halved(x, k)));
    assert Halved(x, k + 4) == Half(Half(Halved(x, k + 2)));
    assert Halved(x, k + 6) == Half(Half(Halved(x, k + 4)));
  }

  lemma {:induction false} HalvedAway(x: bv32)
    ensures Halved(x, 32) == 0
  {
    Halved8(x, 0);
    Halved8(x, 8);
    Halved8(x, 16);
    Halved8(x, 24);
    assert Halved(x, 0) == x;
    hide Halved, Half;
    AllHalves(x);
  }

  /** Halving the word multiplies the polynomial by x, except that a lowest bit is lost. */
  lemma {:induction false} WordHalf(x: bv32)
    ensures Times(WordPoly(x), 1) == WordPoly(Half(x)) + (if BitAt(x, 0) then {32} else {})
  {
    var half := WordPoly(Half(x)) + (if BitAt(x, 0) then {32} else {});
    hide Half, Odd;
    forall e: nat ensures e in Times(WordPoly(x), 1) <==> e in half {
      InTimes(WordPoly(x), 1, e);
      if e < 32 {
        HalvedHalf(x, 31 - e);
        if e == 0 { HalvedAway(x); }
      }
    }
  }

  // ----- bytes and messages as polynomials

  /** The coefficient of x^e in a byte with its bits reflected. */
  predicate ByteCoefficient(b: byte, e: nat)
    requires e < 8
  {
    b / [128, 64, 32, 16, 8, 4, 2, 1][e] % 2 == 1
  }

  function BytePoly(b: byte): Poly
  {
    set e: nat | e < 8 && ByteCoefficient(b, e)
  }

  /** A message, its first byte at the highest powers. */
  function MessagePoly(data: bytes): Poly
  {
    if data == [] then {} else Add(Times(MessagePoly(data[..|data| - 1]), 8), BytePoly(data[|data| - 1]))
  }

  // ----- the checksum

  lemma {:induction false} CongruentRefl(p: Poly)
    ensures Congruent(p, p)
  {
    AddSelf(p);
    GeneratorIsMultiple();
  }

  lemma {:induction false} TimesNone(k: nat)
    ensures Times({}, k) == {}
  {
  }

  lemma {:induction false} NextByte(p: Poly, m: Poly, b: Poly, k: nat)
    ensures Add(Times(Add(Times(p, 8 * k), Times(m, 32)), 8), Times(b, 32)) ==
            Add(Times(p, 8 * (k + 1)), Times(Add(Times(m, 8), b), 32))
  {
    hide Times, Add;
    TimesAdd(Times(p, 8 * k), Times(m, 32), 8);
    TimesTimes(p, 8 * k, 8);
    TimesTimes(m, 32, 8);
    TimesTimes(m, 8, 32);
    TimesAdd(Times(m, 8), b, 32);
    AddAssoc(Times(p, 8 * (k + 1)), Times(m, 40), Times(b, 32));
  }

  /** The checksum `r` of `data`, continued from the checksum `crc`: its complement is the remainder of the message
      moved up by 32 places, with the complement of `crc` added to its first 32 coefficients. */
  ghost predicate IsChecksum(crc: bv32, data: bytes, r: bv32)
  {
    IsRemainder(Add(Times(WordPoly(!crc), 8 * |data|), Times(MessagePoly(data), 32)), WordPoly(!r))
  }

  lemma {:induction false} NoBitsIsZero(x: bv32)
    ensures Half(x) == 0 && !Odd(x) ==> x == 0
  {
  }

  lemma {:induction false} XorZero(x: bv32, y: bv32)
    ensures Xor(x, y) == 0 ==> x == y
    ensures !x == !y ==> x == y
  {
  }

  lemma {:induction false} NoCoefficients(x: bv32, k: nat)
    requires WordPoly(x) == {} && k <= 32
    ensures Halved(x, k) == 0
    decreases 32 - k
  {
    hide Half, Odd;
    if k == 32 {
      HalvedAway(x);
    } else {
      NoCoefficients(x, k + 1);
      var e: nat := 31 - k;
      assert e !in WordPoly(x) && !Coefficient(x, e);
      NoBitsIsZero(Halved(x, k));
    }
  }

  /** There is one checksum. */
  lemma {:induction false} ChecksumUnique(crc: bv32, data: bytes, a: bv32, b: bv32)
    requires IsChecksum(crc, data, a) && IsChecksum(crc, data, b)
    ensures a == b
  {
    hide WordPoly, MessagePoly, Multiple, Times, Halved, Xor;
    var p := Add(Times(WordPoly(!crc), 8 * |data|), Times(MessagePoly(data), 32));
    RemainderUnique(p, WordPoly(!a), WordPoly(!b));
    WordXor(!a, !b);
    AddSelf(WordPoly(!a));
    NoCoefficients(Xor(!a, !b), 0);
    HalvedNone(Xor(!a, !b));
    XorZero(!a, !b);
    XorZero(a, b);
  }

  lemma {:induction false} HalvedNone(x: bv32)
    ensures Halved(x, 0) == x
  {
  }
}
