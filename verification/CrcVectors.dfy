/** The checksum at known messages: the one of the repository's test, and two of appendix B.4 of RFC 3720. */
module CrcVectors {
  import opened Coding
  import opened Crc32c

  function Bin(on: bool): nat
  {
    if on then 1 else 0
  }

  lemma {:induction false} Halves(n: nat, rest: nat, low: bool)
    requires n == 2 * rest + Bin(low)
    ensures n / 2 == rest && (n % 2 == 1 <==> low)
  {
  }

  /** A byte given by its bits. */
  lemma {:induction false} WidenedIs(b: byte, b7: bool, b6: bool, b5: bool, b4: bool, b3: bool, b2: bool, b1: bool,
                                     b0: bool)
    requires b ==
             2 * (2 * (2 * (2 * (2 * (2 * (2 * Bin(b7) + Bin(b6)) + Bin(b5)) + Bin(b4)) + Bin(b3)) + Bin(b2)) + Bin(b1))
                  + Bin(b0)
    ensures Widened(b) == Word(b7, b6, b5, b4, b3, b2, b1, b0)
  {
    hide Word, Bin;
    var q7 := Bin(b7);
    var q6 := 2 * q7 + Bin(b6);
    var q5 := 2 * q6 + Bin(b5);
    var q4 := 2 * q5 + Bin(b4);
    var q3 := 2 * q4 + Bin(b3);
    var q2 := 2 * q3 + Bin(b2);
    var q1 := 2 * q2 + Bin(b1);
    var q0 := 2 * q1 + Bin(b0);
    Halves(q0, q1, b0);
    assert Shifted(b, 0) == q0;
    Halves(q1, q2, b1);
    assert Shifted(b, 1) == q1;
    Halves(q2, q3, b2);
    assert Shifted(b, 2) == q2;
    Halves(q3, q4, b3);
    assert Shifted(b, 3) == q3;
    Halves(q4, q5, b4);
    assert Shifted(b, 4) == q4;
    Halves(q5, q6, b5);
    assert Shifted(b, 5) == q5;
    Halves(q6, q7, b6);
    assert Shifted(b, 6) == q6;
    Halves(q7, 0, b7);
    assert Shifted(b, 7) == q7;
    hide Shifted;
  }

  lemma {:induction false} EightShifts(x: bv32)
    ensures Shifts(x, 8) == Shift(Shift(Shift(Shift(Shift(Shift(Shift(Shift(x))))))))
  {
    hide Shift;
    assert Shifts(x, 0) == x;
    assert Shifts(x, 2) == Shift(Shift(x));
    assert Shifts(x, 4) == Shift(Shift(Shifts(x, 2)));
    assert Shifts(x, 6) == Shift(Shift(Shifts(x, 4)));
  }

  /** The register `x` with a byte `w` mixed in becomes `y`. */
  predicate Turns(x: bv32, w: bv32, y: bv32)
  {
    Shift(Shift(Shift(Shift(Shift(Shift(Shift(Shift(x ^ w)))))))) == y
  }

  lemma {:induction false} Feed(x: bv32, data: bytes, b: byte, w: bv32, y: bv32, z: bv32) returns (more: bytes)
    requires Run(x, data) == y && Widened(b) == w && Turns(y, w, z)
    ensures more == data + [b] && Run(x, more) == z
  {
    more := data + [b];
    assert more[..|data|] == data;
    hide Shift, Shifts, Widened;
    EightShifts(y ^ w);
  }

  lemma {:induction false} RunNone(x: bv32)
    ensures Run(x, []) == x
  {
  }

  lemma {:induction false} LowDigits()
    ensures Widened(0x31) == 0x31 && Widened(0x32) == 0x32 && Widened(0x33) == 0x33 && Widened(0x34) == 0x34
  {
    hide Widened;
    WidenedIs(0x31, false, false, true, true, false, false, false, true);
    WidenedIs(0x32, false, false, true, true, false, false, true, false);
    WidenedIs(0x33, false, false, true, true, false, false, true, true);
    WidenedIs(0x34, false, false, true, true, false, true, false, false);
  }

  lemma {:induction false} MidDigits()
    ensures Widened(0x35) == 0x35 && Widened(0x36) == 0x36 && Widened(0x37) == 0x37
  {
    hide Widened;
    WidenedIs(0x35, false, false, true, true, false, true, false, true);
    WidenedIs(0x36, false, false, true, true, false, true, true, false);
    WidenedIs(0x37, false, false, true, true, false, true, true, true);
  }

  lemma {:induction false} HighDigits()
    ensures Widened(0x38) == 0x38 && Widened(0x39) == 0x39
  {
    hide Widened;
    WidenedIs(0x38, false, false, true, true, true, false, false, false);
    WidenedIs(0x39, false, false, true, true, true, false, false, true);
  }

  lemma {:induction false} Extremes()
    ensures Widened(0x00) == 0x00 && Widened(0xff) == 0xff
  {
    hide Widened;
    WidenedIs(0x00, false, false, false, false, false, false, false, false);
    WidenedIs(0xff, true, true, true, true, true, true, true, true);
  }

  /** The message "123456789". */
  lemma {:induction false} NineDigits()
    ensures Value([0x31, 0x32, 0x33, 0x34, 0x35, 0x36, 0x37, 0x38, 0x39]) == 0xe3069283
  {
    LowDigits();
    MidDigits();
    HighDigits();
    hide Run, Widened;
    RunNone(0xffff_ffff);
    var d: bytes := [];
    d := Feed(0xffff_ffff, d, 0x31, 0x31, 0xffffffff, 0x6f0a661c);
    d := Feed(0xffff_ffff, d, 0x32, 0x32, 0x6f0a661c, 0x8caa3b9f);
    d := Feed(0xffff_ffff, d, 0x33, 0x33, 0x8caa3b9f, 0xef84d04d);
    d := Feed(0xffff_ffff, d, 0x34, 0x34, 0xef84d04d, 0x09c50b11);
    d := Feed(0xffff_ffff, d, 0x35, 0x35, 0x09c50b11, 0xe72edcca);
    d := Feed(0xffff_ffff, d, 0x36, 0x36, 0xe72edcca, 0xbeca8e79);
    d := Feed(0xffff_ffff, d, 0x37, 0x37, 0xbeca8e79, 0xedbd6815);
    d := Feed(0xffff_ffff, d, 0x38, 0x38, 0xedbd6815, 0x9f787f65);
    d := Feed(0xffff_ffff, d, 0x39, 0x39, 0x9f787f65, 0x1cf96d7c);
    assert d == [0x31, 0x32, 0x33, 0x34, 0x35, 0x36, 0x37, 0x38, 0x39];
  }

  function Eight(b: byte): bytes
  {
    [b, b, b, b, b, b, b, b]
  }

  lemma {:induction false} Zeros1()
    ensures Run(0xffffffff, Eight(0x00)) == 0x73d74d75
  {
    Extremes();
    hide Run, Widened;
    RunNone(0xffffffff);
    var d: bytes := [];
    d := Feed(0xffffffff, d, 0x00, 0x00, 0xffffffff, 0xad82acae);
    d := Feed(0xffffffff, d, 0x00, 0x00, 0xad82acae, 0x0e9e882d);
    d := Feed(0xffffffff, d, 0x00, 0x00, 0x0e9e882d, 0x9f9b5c85);
    d := Feed(0xffffffff, d, 0x00, 0x00, 0x9f9b5c85, 0xb798b438);
    d := Feed(0xffffffff, d, 0x00, 0x00, 0xb798b438, 0xba8d89ca);
    d := Feed(0xffffffff, d, 0x00, 0x00, 0xba8d89ca, 0xa8d58375);
    d := Feed(0xffffffff, d, 0x00, 0x00, 0xa8d58375, 0x44c19592);
    d := Feed(0xffffffff, d, 0x00, 0x00, 0x44c19592, 0x73d74d75);
    assert d == Eight(0x00);
  }

  lemma {:induction false} Zeros2()
    ensures Run(0x73d74d75, Eight(0x00)) == 0xbd8f6515
  {
    Extremes();
    hide Run, Widened;
    RunNone(0x73d74d75);
    var d: bytes := [];
    d := Feed(0x73d74d75, d, 0x00, 0x00, 0x73d74d75, 0x441a975c);
    d := Feed(0x73d74d75, d, 0x00, 0x00, 0x441a975c, 0x1c220f94);
    d := Feed(0x73d74d75, d, 0x00, 0x00, 0x1c220f94, 0x552e4907);
    d := Feed(0x73d74d75, d, 0x00, 0x00, 0x552e4907, 0xd49f4aa2);
    d := Feed(0x73d74d75, d, 0x00, 0x00, 0xd49f4aa2, 0x43a45a1b);
    d := Feed(0x73d74d75, d, 0x00, 0x00, 0x43a45a1b, 0x8994c80e);
    d := Feed(0x73d74d75, d, 0x00, 0x00, 0x8994c80e, 0xacf12bef);
    d := Feed(0x73d74d75, d, 0x00, 0x00, 0xacf12bef, 0xbd8f6515);
    assert d == Eight(0x00);
  }

  lemma {:induction false} Zeros3()
    ensures Run(0xbd8f6515, Eight(0x00)) == 0x7b041311
  {
    Extremes();
    hide Run, Widened;
    RunNone(0xbd8f6515);
    var d: bytes := [];
    d := Feed(0xbd8f6515, d, 0x00, 0x00, 0xbd8f6515, 0x25125c16);
    d := Feed(0xbd8f6515, d, 0x00, 0x00, 0x25125c16, 0x36da32db);
    d := Feed(0xbd8f6515, d, 0x00, 0x00, 0x36da32db, 0x4a6c90a2);
    d := Feed(0xbd8f6515, d, 0x00, 0x00, 0x4a6c90a2, 0x433aa9c1);
    d := Feed(0xbd8f6515, d, 0x00, 0x00, 0x433aa9c1, 0x31a59f6e);
    d := Feed(0xbd8f6515, d, 0x00, 0x00, 0x31a59f6e, 0xcd8f89da);
    d := Feed(0xbd8f6515, d, 0x00, 0x00, 0xcd8f89da, 0xb8fc461a);
    d := Feed(0xbd8f6515, d, 0x00, 0x00, 0xb8fc461a, 0x7b041311);
    assert d == Eight(0x00);
  }

  lemma {:induction false} Zeros4()
    ensures Run(0x7b041311, Eight(0x00)) == 0x756ec955
  {
    Extremes();
    hide Run, Widened;
    RunNone(0x7b041311);
    var d: bytes := [];
    d := Feed(0x7b041311, d, 0x00, 0x00, 0x7b041311, 0xe24e407f);
    d := Feed(0x7b041311, d, 0x00, 0x00, 0xe24e407f, 0x2f692669);
    d := Feed(0x7b041311, d, 0x00, 0x00, 0x2f692669, 0x195b2188);
    d := Feed(0x7b041311, d, 0x00, 0x00, 0x195b2188, 0x08363896);
    d := Feed(0x7b041311, d, 0x00, 0x00, 0x08363896, 0xb4012dc7);
    d := Feed(0x7b041311, d, 0x00, 0x00, 0xb4012dc7, 0x17f34302);
    d := Feed(0x7b041311, d, 0x00, 0x00, 0x17f34302, 0xe12c83b4);
    d := Feed(0x7b041311, d, 0x00, 0x00, 0xe12c83b4, 0x756ec955);
    assert d == Eight(0x00);
  }

  /** 32 bytes of zeroes. */
  lemma {:induction false} Zeros()
    ensures Value(Eight(0x00) + Eight(0x00) + Eight(0x00) + Eight(0x00)) == 0x8a9136aa
  {
    hide Run, Eight;
    Zeros1();
    Zeros2();
    Zeros3();
    Zeros4();
    var e := Eight(0x00);
    RunConcat(0xffff_ffff, e, e);
    RunConcat(0xffff_ffff, e + e, e);
    RunConcat(0xffff_ffff, e + e + e, e);
  }

  lemma {:induction false} Ones1()
    ensures Run(0xffffffff, Eight(0xff)) == 0xb798b438
  {
    Extremes();
    hide Run, Widened;
    RunNone(0xffffffff);
    var d: bytes := [];
    d := Feed(0xffffffff, d, 0xff, 0xff, 0xffffffff, 0x00ffffff);
    d := Feed(0xffffffff, d, 0xff, 0xff, 0x00ffffff, 0x0000ffff);
    d := Feed(0xffffffff, d, 0xff, 0xff, 0x0000ffff, 0x000000ff);
    d := Feed(0xffffffff, d, 0xff, 0xff, 0x000000ff, 0x00000000);
    d := Feed(0xffffffff, d, 0xff, 0xff, 0x00000000, 0xad7d5351);
    d := Feed(0xffffffff, d, 0xff, 0xff, 0xad7d5351, 0x0e9e77d2);
    d := Feed(0xffffffff, d, 0xff, 0xff, 0x0e9e77d2, 0x9f9b5c7a);
    d := Feed(0xffffffff, d, 0xff, 0xff, 0x9f9b5c7a, 0xb798b438);
    assert d == Eight(0xff);
  }

  lemma {:induction false} Ones2()
    ensures Run(0xb798b438, Eight(0xff)) == 0x10d0b3ef
  {
    Extremes();
    hide Run, Widened;
    RunNone(0xb798b438);
    var d: bytes := [];
    d := Feed(0xb798b438, d, 0xff, 0xff, 0xb798b438, 0x17f0da9b);
    d := Feed(0xb798b438, d, 0xff, 0xff, 0x17f0da9b, 0xa64bf4a7);
    d := Feed(0xb798b438, d, 0xff, 0xff, 0xa64bf4a7, 0xdb5ac9e8);
    d := Feed(0xb798b438, d, 0xff, 0xff, 0xdb5ac9e8, 0xc44ff94d);
    d := Feed(0xb798b438, d, 0xff, 0xff, 0xc44ff94d, 0x53ea4dc7);
    d := Feed(0xb798b438, d, 0xff, 0xff, 0x53ea4dc7, 0xba69fb33);
    d := Feed(0xb798b438, d, 0xff, 0xff, 0xba69fb33, 0x8e7480ef);
    d := Feed(0xb798b438, d, 0xff, 0xff, 0x8e7480ef, 0x10d0b3ef);
    assert d == Eight(0xff);
  }

  lemma {:induction false} Ones3()
    ensures Run(0x10d0b3ef, Eight(0xff)) == 0xee657f3b
  {
    Extremes();
    hide Run, Widened;
    RunNone(0x10d0b3ef);
    var d: bytes := [];
    d := Feed(0x10d0b3ef, d, 0xff, 0xff, 0x10d0b3ef, 0x104e17dc);
    d := Feed(0x10d0b3ef, d, 0xff, 0xff, 0x104e17dc, 0x33fd333d);
    d := Feed(0x10d0b3ef, d, 0xff, 0xff, 0x33fd333d, 0x2285ab00);
    d := Feed(0x10d0b3ef, d, 0xff, 0xff, 0x2285ab00, 0xad5fd6fa);
    d := Feed(0x10d0b3ef, d, 0xff, 0xff, 0xad5fd6fa, 0x355c4bca);
    d := Feed(0x10d0b3ef, d, 0xff, 0xff, 0x355c4bca, 0x052701e6);
    d := Feed(0x10d0b3ef, d, 0xff, 0xff, 0x052701e6, 0x68e93ba2);
    d := Feed(0x10d0b3ef, d, 0xff, 0xff, 0x68e93ba2, 0xee657f3b);
    assert d == Eight(0xff);
  }

  lemma {:induction false} Ones4()
    ensures Run(0xee657f3b, Eight(0xff)) == 0x9d5754bc
  {
    Extremes();
    hide Run, Widened;
    RunNone(0xee657f3b);
    var d: bytes := [];
    d := Feed(0xee657f3b, d, 0xff, 0xff, 0xee657f3b, 0x04f9d4a4);
    d := Feed(0xee657f3b, d, 0xff, 0xff, 0x04f9d4a4, 0xc8a8883c);
    d := Feed(0xee657f3b, d, 0xff, 0xff, 0xc8a8883c, 0xd0157db8);
    d := Feed(0xee657f3b, d, 0xff, 0xff, 0xd0157db8, 0x95616c2a);
    d := Feed(0xee657f3b, d, 0xff, 0xff, 0x95616c2a, 0xe6b794db);
    d := Feed(0xee657f3b, d, 0xff, 0xff, 0xe6b794db, 0xe7c1ae55);
    d := Feed(0xee657f3b, d, 0xff, 0xff, 0xe7c1ae55, 0xc94e5c30);
    d := Feed(0xee657f3b, d, 0xff, 0xff, 0xc94e5c30, 0x9d5754bc);
    assert d == Eight(0xff);
  }

  /** 32 bytes of ones. */
  lemma {:induction false} Ones()
    ensures Value(Eight(0xff) + Eight(0xff) + Eight(0xff) + Eight(0xff)) == 0x62a8ab43
  {
    hide Run, Eight;
    Ones1();
    Ones2();
    Ones3();
    Ones4();
    var e := Eight(0xff);
    RunConcat(0xffff_ffff, e, e);
    RunConcat(0xffff_ffff, e + e, e);
    RunConcat(0xffff_ffff, e + e + e, e);
  }
}
