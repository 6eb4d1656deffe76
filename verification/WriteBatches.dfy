/** Write batches as bytes: a sequence number, a count, and tagged records. */
module WriteBatches {
  import opened Coding
  import opened Wrappers

  const HEADER: nat := 12

  datatype Op = Put(key: bytes, value: bytes) | Delete(key: bytes)

  function Record(op: Op): (b: bytes)
    ensures |b| > 0
  {
    match op
    case Put(k, v) => [1] + LengthPrefixed(k) + LengthPrefixed(v)
    case Delete(k) => [0] + LengthPrefixed(k)
  }

  function Records(ops: seq<Op>): bytes
  {
    if ops == [] then [] else Records(ops[..|ops| - 1]) + Record(ops[|ops| - 1])
  }

  /** The representation of a batch. */
  function Encoded(sequence: nat, ops: seq<Op>): (b: bytes)
    ensures |b| >= HEADER
  {
    Fixed(sequence, 8) + Fixed(|ops|, 4) + Records(ops)
  }

  ghost predicate Sized(ops: seq<Op>)
  {
    |ops| < WORD32 && forall i :: 0 <= i < |ops| ==> OpSized(ops[i])
  }

  ghost predicate OpSized(op: Op)
  {
    |op.key| < WORD32 && (op.Put? ==> |op.value| < WORD32)
  }

  // ----- reading

  /** The first record and what follows it. */
  function ReadOp(b: bytes): (r: Option<(Op, bytes)>)
    ensures r.Some? ==> |r.value.1| < |b|
  {
    if b == [] then None
    else if b[0] == 1 then
      match GetLengthPrefixed(b[1..])
      case None => None
      case Some((k, rest)) =>
        match GetLengthPrefixed(rest)
        case None => None
        case Some((v, tail)) => Some((Put(k, v), tail))
    else if b[0] == 0 then
      match GetLengthPrefixed(b[1..])
      case None => None
      case Some((k, tail)) => Some((Delete(k), tail))
    else None
  }

  lemma {:induction false} RecordReads(op: Op, tail: bytes)
    requires OpSized(op)
    ensures ReadOp(Record(op) + tail) == Some((op, tail))
  {
    hide LengthPrefixed, GetLengthPrefixed;
    var b := Record(op) + tail;
    match op
    case Put(k, v) =>
      var x, y := LengthPrefixed(k), LengthPrefixed(v);
      assert b[1..] == x + (y + tail);
      LengthPrefixedRoundTrip(k, y + tail);
      LengthPrefixedRoundTrip(v, tail);
    case Delete(k) =>
      assert b[1..] == LengthPrefixed(k) + tail;
      LengthPrefixedRoundTrip(k, tail);
  }

  lemma {:induction false} RecordsSnoc(ops: seq<Op>, op: Op)
    ensures Records(ops + [op]) == Records(ops) + Record(op)
  {
    assert (ops + [op])[..|ops|] == ops;
  }

  lemma {:induction false} RecordsConcat(a: seq<Op>, b: seq<Op>)
    ensures Records(a + b) == Records(a) + Records(b)
  {
    hide Record;
    if b == [] {
      assert a + b == a;
    } else {
      var k := |b| - 1;
      RecordsConcat(a, b[..k]);
      RecordsSnoc(a + b[..k], b[k]);
      assert a + b == a + b[..k] + [b[k]];
      Regroup(Records(a), Records(b[..k]), Record(b[k]));
    }
  }

  lemma {:induction false} OneRecord(op: Op)
    ensures Records([op]) == Record(op)
  {
    hide Record;
    RecordsSnoc([], op);
    assert [] + [op] == [op] && Records([]) == [] && [] + Record(op) == Record(op);
  }

  lemma {:induction false} RecordsCons(ops: seq<Op>, i: nat)
    requires i < |ops|
    ensures Records(ops[i..]) == Record(ops[i]) + Records(ops[i + 1..])
  {
    hide Record;
    assert ops[i..] == [ops[i]] + ops[i + 1..];
    RecordsConcat([ops[i]], ops[i + 1..]);
    OneRecord(ops[i]);
  }

  datatype Result = Ok(ops: seq<Op>) | Corruption(ops: seq<Op>)

  function StoredCount(rep: bytes): nat
    requires |rep| >= HEADER
  {
    Unfixed(rep[8..12])
  }

  /** The records handed over so far and the input left make up the batch. */
  ghost predicate Reading(ops: seq<Op>, done: seq<Op>, input: bytes)
  {
    Sized(ops) && |done| <= |ops| && done == ops[..|done|] && input == Records(ops[|done|..])
  }

  /** `Iterate`: hands every record to the handler; the result lists those handed over. An
      encoded batch yields exactly its operations. */
  method Iterate(rep: bytes, ghost sequence: nat, ghost ops: seq<Op>) returns (r: Result)
    ensures Sized(ops) && rep == Encoded(sequence, ops) ==> r == Ok(ops)
  {
    hide Reading, ReadOp;
    if |rep| < HEADER {
      return Corruption([]);
    }
    ghost var batch := Sized(ops) && rep == Encoded(sequence, ops);
    var input, done := rep[HEADER..], [];
    if batch { StartReading(sequence, ops); }
    while input != []
      invariant batch ==> Reading(ops, done, input)
      decreases |input|
    {
      if batch { NextRecord(ops, done, input); }
      var next := ReadOp(input);
      if next.None? {
        return Corruption(done);
      }
      ReadShorter(input);
      done, input := done + [next.value.0], next.value.1;
    }
    if batch { NoMoreRecords(sequence, ops, done); }
    if |done| != StoredCount(rep) {
      r := Corruption(done);
    } else {
      r := Ok(done);
    }
  }

  lemma {:induction false} ReadShorter(b: bytes)
    ensures ReadOp(b).Some? ==> |ReadOp(b).value.1| < |b|
  {
  }

  lemma {:induction false} StartReading(sequence: nat, ops: seq<Op>)
    requires Sized(ops)
    ensures Reading(ops, [], Encoded(sequence, ops)[HEADER..])
  {
    EncodedParts(sequence, ops);
    assert ops[0..] == ops;
  }

  lemma {:induction false} NextRecord(ops: seq<Op>, done: seq<Op>, input: bytes)
    requires Reading(ops, done, input) && input != []
    ensures ReadOp(input).Some? && Reading(ops, done + [ReadOp(input).value.0], ReadOp(input).value.1)
  {
    hide ReadOp, Record;
    var i := |done|;
    SomeRecord(ops, i);
    RecordsCons(ops, i);
    RecordReads(ops[i], Records(ops[i + 1..]));
    assert ops[..i + 1] == ops[..i] + [ops[i]];
  }

  lemma {:induction false} SomeRecord(ops: seq<Op>, i: nat)
    requires i <= |ops|
    ensures Records(ops[i..]) != [] ==> i < |ops|
    ensures Records(ops[i..]) == [] ==> i == |ops|
  {
    hide Record;
    if i < |ops| {
      RecordsCons(ops, i);
    } else {
      assert ops[i..] == [];
    }
  }

  lemma {:induction false} NoMoreRecords(sequence: nat, ops: seq<Op>, done: seq<Op>)
    requires Reading(ops, done, [])
    ensures done == ops && StoredCount(Encoded(sequence, ops)) == |ops|
  {
    SomeRecord(ops, |done|);
    EncodedParts(sequence, ops);
    assert ops[..|ops|] == ops;
  }

  lemma {:induction false} EncodedParts(sequence: nat, ops: seq<Op>)
    requires |ops| < WORD32
    ensures var b := Encoded(sequence, ops);
            b[..8] == Fixed(sequence, 8) && b[HEADER..] == Records(ops) && StoredCount(b) == |ops|
  {
    hide Fixed, Unfixed, Records;
    var b := Encoded(sequence, ops);
    assert b[8..12] == Fixed(|ops|, 4);
    Width4();
    FixedRoundTrip(|ops|, 4);
  }

  lemma {:induction false} EncodedSequence(sequence: nat, ops: seq<Op>, s: nat)
    ensures Fixed(s, 8) + Encoded(sequence, ops)[8..] == Encoded(s, ops)
  {
    hide Fixed, Records;
    var a, b, c := Fixed(sequence, 8), Fixed(|ops|, 4), Records(ops);
    assert (a + b + c)[8..] == b + c;
    assert Fixed(s, 8) + (b + c) == Fixed(s, 8) + b + c;
  }

  lemma {:induction false} Regroup(a: bytes, b: bytes, c: bytes)
    ensures a + b + c == a + (b + c)
  {
  }

  /** Raising the count and appending records encodes the longer batch. */
  lemma {:induction false} EncodedMore(sequence: nat, ops: seq<Op>, more: seq<Op>)
    requires |ops| < WORD32
    ensures var b := Encoded(sequence, ops);
            && StoredCount(b) == |ops| && b[HEADER..] == Records(ops)
            && b[..8] + Fixed(|ops| + |more|, 4) + b[HEADER..] + Records(more) == Encoded(sequence, ops + more)
  {
    hide Fixed, Records, StoredCount;
    EncodedParts(sequence, ops);
    RecordsConcat(ops, more);
    var b, a, c := Encoded(sequence, ops), Fixed(sequence, 8), Fixed(|ops| + |more|, 4);
    Regroup(a + c, Records(ops), Records(more));
    assert Encoded(sequence, ops + more) == a + c + (Records(ops) + Records(more));
  }

  // ----- building

  class WriteBatch {
    var rep: bytes
    ghost var sequence: nat
    ghost var ops: seq<Op>

    ghost predicate Valid()
      reads this
    {
      Sized(ops) && sequence < WORD64 && rep == Encoded(sequence, ops)
    }

    constructor ()
      ensures Valid() && ops == [] && sequence == 0
    {
      rep := Fixed(0, 8) + Fixed(0, 4);
      sequence, ops := 0, [];
    }

    function Count(): nat
      requires |rep| >= HEADER
      reads this
    {
      StoredCount(rep)
    }

    /** The count in place, the rest as it was. */
    method SetCount(n: nat)
      requires |rep| >= HEADER
      modifies this`rep
      ensures rep == old(rep)[..8] + Fixed(n, 4) + old(rep)[HEADER..]
    {
      rep := rep[..8] + Fixed(n, 4) + rep[HEADER..];
    }

    method SetSequence(s: nat)
      requires Valid() && s < WORD64
      modifies this
      ensures Valid() && sequence == s && ops == old(ops)
    {
      hide Encoded, Fixed;
      EncodedSequence(sequence, ops, s);
      rep := Fixed(s, 8) + rep[8..];
      sequence := s;
    }

    function Sequence(): nat
      requires |rep| >= HEADER
      reads this
    {
      Unfixed(rep[..8])
    }

    lemma {:induction false} SequenceIs()
      requires Valid()
      ensures Sequence() == sequence && Count() == |ops|
    {
      EncodedParts(sequence, ops);
      Width8();
      FixedRoundTrip(sequence, 8);
    }

    /** One more record, and the count raised. */
    method Add(op: Op)
      requires Valid() && OpSized(op) && |ops| + 1 < WORD32
      modifies this
      ensures Valid() && ops == old(ops) + [op] && sequence == old(sequence)
    {
      hide Encoded, Fixed, Record, StoredCount;
      EncodedMore(sequence, ops, [op]);
      OneRecord(op);
      var n := Count();
      SetCount(n + 1);
      rep := rep + Record(op);
      ops := ops + [op];
    }

    /** The records of another batch after this one's. */
    method Append(source: WriteBatch)
      requires Valid() && source.Valid() && source != this && |ops| + |source.ops| < WORD32
      modifies this
      ensures Valid() && ops == old(ops) + source.ops && sequence == old(sequence)
    {
      hide Encoded, Fixed, Records, StoredCount;
      EncodedMore(sequence, ops, source.ops);
      EncodedMore(source.sequence, source.ops, []);
      var n := Count() + source.Count();
      SetCount(n);
      rep := rep + source.rep[HEADER..];
      ops := ops + source.ops;
    }
  }
}
