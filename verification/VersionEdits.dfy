/** Version edits as MANIFEST records: tagged fields, in the order the encoder writes them. */
module VersionEdits {
  import opened Coding
  import opened Wrappers

  const NUM_LEVELS: nat := 7

  /** One tagged field. Internal keys are stored bytes. */
  datatype Field =
    | Comparator(name: bytes)
    | LogNumber(number: nat)
    | NextFileNumber(number: nat)
    | LastSequence(number: nat)
    | CompactPointer(level: nat, key: bytes)
    | DeletedFile(level: nat, number: nat)
    | NewFile(level: nat, number: nat, size: nat, smallest: bytes, largest: bytes)
    | PrevLogNumber(number: nat)

  ghost predicate FieldOk(f: Field)
  {
    match f
    case Comparator(name) => |name| < WORD32
    case LogNumber(n) => n < WORD64
    case NextFileNumber(n) => n < WORD64
    case LastSequence(n) => n < WORD64
    case PrevLogNumber(n) => n < WORD64
    case CompactPointer(l, k) => l < NUM_LEVELS && 0 < |k| < WORD32
    case DeletedFile(l, n) => l < NUM_LEVELS && n < WORD64
    case NewFile(l, n, s, a, b) => l < NUM_LEVELS && n < WORD64 && s < WORD64 && 0 < |a| < WORD32 && 0 < |b| < WORD32
  }

  function TagOf(f: Field): (t: nat)
    ensures 1 <= t <= 9
  {
    match f
    case Comparator(_) => 1
    case LogNumber(_) => 2
    case NextFileNumber(_) => 3
    case LastSequence(_) => 4
    case CompactPointer(_, _) => 5
    case DeletedFile(_, _) => 6
    case NewFile(_, _, _, _, _) => 7
    case PrevLogNumber(_) => 9
  }

  function Body(f: Field): bytes
  {
    match f
    case Comparator(name) => LengthPrefixed(name)
    case LogNumber(n) => Varint(n)
    case NextFileNumber(n) => Varint(n)
    case LastSequence(n) => Varint(n)
    case PrevLogNumber(n) => Varint(n)
    case CompactPointer(l, k) => Varint(l) + LengthPrefixed(k)
    case DeletedFile(l, n) => Varint(l) + Varint(n)
    case NewFile(l, n, s, a, b) => Varint(l) + (Varint(n) + (Varint(s) + (LengthPrefixed(a) + LengthPrefixed(b))))
  }

  function EncodeField(f: Field): (b: bytes)
    ensures |b| > 0
  {
    Varint(TagOf(f)) + Body(f)
  }

  // ----- decoding one field

  function GetLevel(b: bytes): (r: Option<(nat, bytes)>)
    ensures r.Some? ==> |r.value.1| < |b|
  {
    match GetVarint32(b)
    case None => None
    case Some((v, rest)) => if v < NUM_LEVELS then Some((v, rest)) else None
  }

  function GetInternalKey(b: bytes): (r: Option<(bytes, bytes)>)
    ensures r.Some? ==> |r.value.1| < |b|
  {
    match GetLengthPrefixed(b)
    case None => None
    case Some((k, rest)) => if k == [] then None else Some((k, rest))
  }

  function DecodeNewFile(b: bytes): (r: Option<(Field, bytes)>)
    ensures r.Some? ==> |r.value.1| < |b|
  {
    match GetLevel(b)
    case None => None
    case Some((l, b1)) =>
      match GetVarint64(b1)
      case None => None
      case Some((n, b2)) =>
        match GetVarint64(b2)
        case None => None
        case Some((s, b3)) =>
          match GetInternalKey(b3)
          case None => None
          case Some((x, b4)) =>
            match GetInternalKey(b4)
            case None => None
            case Some((y, b5)) => Some((NewFile(l, n, s, x, y), b5))
  }

  function DecodeBody(tag: nat, b: bytes): (r: Option<(Field, bytes)>)
    ensures r.Some? ==> |r.value.1| < |b|
  {
    if tag == 1 then
      match GetLengthPrefixed(b)
      case None => None
      case Some((s, rest)) => Some((Comparator(s), rest))
    else if tag == 2 || tag == 3 || tag == 4 || tag == 9 then
      match GetVarint64(b)
      case None => None
      case Some((n, rest)) =>
        Some((if tag == 2 then LogNumber(n) else if tag == 3 then NextFileNumber(n)
            else if tag == 4 then LastSequence(n) else PrevLogNumber(n), rest))
    else if tag == 5 then
      match GetLevel(b)
      case None => None
      case Some((l, b1)) =>
        match GetInternalKey(b1)
        case None => None
        case Some((k, rest)) => Some((CompactPointer(l, k), rest))
    else if tag == 6 then
      match GetLevel(b)
      case None => None
      case Some((l, b1)) =>
        match GetVarint64(b1)
        case None => None
        case Some((n, rest)) => Some((DeletedFile(l, n), rest))
    else if tag == 7 then DecodeNewFile(b)
    else None
  }

  lemma {:induction false} LevelReads(l: nat, rest: bytes)
    requires l < NUM_LEVELS
    ensures GetLevel(Varint(l) + rest) == Some((l, rest))
  {
    hide Varint, GetVarint32;
    Varint32RoundTrip(l, rest);
  }

  lemma {:induction false} KeyReads(k: bytes, rest: bytes)
    requires 0 < |k| < WORD32
    ensures GetInternalKey(LengthPrefixed(k) + rest) == Some((k, rest))
  {
    hide LengthPrefixed, GetLengthPrefixed;
    LengthPrefixedRoundTrip(k, rest);
  }

  lemma {:induction false} NewFileReads(f: Field, rest: bytes)
    requires f.NewFile? && FieldOk(f)
    ensures DecodeNewFile(Body(f) + rest) == Some((f, rest))
  {
    hide Varint, LengthPrefixed, GetLevel, GetVarint64, GetInternalKey;
    var d := LengthPrefixed(f.largest) + rest;
    var c := LengthPrefixed(f.smallest) + d;
    var b := Varint(f.size) + c;
    var a := Varint(f.number) + b;
    assert Body(f) + rest == Varint(f.level) + a;
    LevelReads(f.level, a);
    Varint64RoundTrip(f.number, b);
    Varint64RoundTrip(f.size, c);
    KeyReads(f.smallest, d);
    KeyReads(f.largest, rest);
  }

  lemma {:induction false} BodyReads(f: Field, rest: bytes)
    requires FieldOk(f)
    ensures DecodeBody(TagOf(f), Body(f) + rest) == Some((f, rest))
  {
    hide Varint, LengthPrefixed, GetLevel, GetVarint64, GetInternalKey, GetLengthPrefixed, DecodeNewFile;
    match f
    case Comparator(name) => LengthPrefixedRoundTrip(name, rest);
    case LogNumber(n) => Varint64RoundTrip(n, rest);
    case NextFileNumber(n) => Varint64RoundTrip(n, rest);
    case LastSequence(n) => Varint64RoundTrip(n, rest);
    case PrevLogNumber(n) => Varint64RoundTrip(n, rest);
    case CompactPointer(l, k) =>
      assert Body(f) + rest == Varint(l) + (LengthPrefixed(k) + rest);
      LevelReads(l, LengthPrefixed(k) + rest);
      KeyReads(k, rest);
    case DeletedFile(l, n) =>
      assert Body(f) + rest == Varint(l) + (Varint(n) + rest);
      LevelReads(l, Varint(n) + rest);
      Varint64RoundTrip(n, rest);
    case NewFile(_, _, _, _, _) => NewFileReads(f, rest);
  }

  /** Tag, then body. */
  lemma {:induction false} FieldReads(f: Field, rest: bytes)
    requires FieldOk(f)
    ensures GetVarint32(EncodeField(f) + rest) == Some((TagOf(f), Body(f) + rest))
    ensures DecodeBody(TagOf(f), Body(f) + rest) == Some((f, rest))
  {
    hide Varint, GetVarint32, Body, DecodeBody;
    assert EncodeField(f) + rest == Varint(TagOf(f)) + (Body(f) + rest);
    Varint32RoundTrip(TagOf(f), Body(f) + rest);
    BodyReads(f, rest);
  }

  // ----- whole edits

  datatype NewEntry = NewEntry(level: nat, number: nat, size: nat, smallest: bytes, largest: bytes)

  datatype VersionEdit = VersionEdit(comparator: Option<bytes>, logNumber: Option<nat>, prevLogNumber: Option<nat>,
      nextFileNumber: Option<nat>,
                                     lastSequence: Option<nat>, pointers: seq<(nat, bytes)>, deleted: set<(nat, nat)>,
                                         added: seq<NewEntry>)

  const CLEARED := VersionEdit(None, None, None, None, None, [], {}, [])

  /** What decoding a field does to the edit. */
  function Put(e: VersionEdit, f: Field): VersionEdit
  {
    match f
    case Comparator(name) => e.(comparator := Some(name))
    case LogNumber(n) => e.(logNumber := Some(n))
    case PrevLogNumber(n) => e.(prevLogNumber := Some(n))
    case NextFileNumber(n) => e.(nextFileNumber := Some(n))
    case LastSequence(n) => e.(lastSequence := Some(n))
    case CompactPointer(l, k) => e.(pointers := e.pointers + [(l, k)])
    case DeletedFile(l, n) => e.(deleted := e.deleted + {(l, n)})
    case NewFile(l, n, s, a, b) => e.(added := e.added + [NewEntry(l, n, s, a, b)])
  }

  function Collect(e: VersionEdit, fs: seq<Field>): VersionEdit
  {
    if fs == [] then e else Put(Collect(e, fs[..|fs| - 1]), fs[|fs| - 1])
  }

  function EncodeFields(fs: seq<Field>): bytes
  {
    if fs == [] then [] else EncodeFields(fs[..|fs| - 1]) + EncodeField(fs[|fs| - 1])
  }

  function PointerFields(ps: seq<(nat, bytes)>): (fs: seq<Field>)
    ensures |fs| == |ps| && forall i :: 0 <= i < |ps| ==> fs[i] == CompactPointer(ps[i].0, ps[i].1)
  {
    seq(|ps|, i requires 0 <= i < |ps| => CompactPointer(ps[i].0, ps[i].1))
  }

  function DeletedFields(order: seq<(nat, nat)>): (fs: seq<Field>)
    ensures |fs| == |order| && forall i :: 0 <= i < |order| ==> fs[i] == DeletedFile(order[i].0, order[i].1)
  {
    seq(|order|, i requires 0 <= i < |order| => DeletedFile(order[i].0, order[i].1))
  }

  function AddedField(n: NewEntry): Field
  {
    NewFile(n.level, n.number, n.size, n.smallest, n.largest)
  }

  function AddedFields(ns: seq<NewEntry>): (fs: seq<Field>)
    ensures |fs| == |ns| && forall i :: 0 <= i < |ns| ==> fs[i] == AddedField(ns[i])
  {
    seq(|ns|, i requires 0 <= i < |ns| => AddedField(ns[i]))
  }

  function Scalars(e: VersionEdit): seq<Field>
  {
    (if e.comparator.Some? then [Comparator(e.comparator.value)] else [])
    + (if e.logNumber.Some? then [LogNumber(e.logNumber.value)] else [])
    + (if e.prevLogNumber.Some? then [PrevLogNumber(e.prevLogNumber.value)] else [])
    + (if e.nextFileNumber.Some? then [NextFileNumber(e.nextFileNumber.value)] else [])
    + (if e.lastSequence.Some? then [LastSequence(e.lastSequence.value)] else [])
  }

  /** The fields of an edit, its deletions in some order. */
  function FieldsOf(e: VersionEdit, order: seq<(nat, nat)>): seq<Field>
  {
    Scalars(e) + PointerFields(e.pointers) + DeletedFields(order) + AddedFields(e.added)
  }

  ghost function SetOf(order: seq<(nat, nat)>): set<(nat, nat)>
  {
    set p | p in order
  }

  lemma {:induction false} CollectSnoc(e: VersionEdit, fs: seq<Field>, f: Field)
    ensures Collect(e, fs + [f]) == Put(Collect(e, fs), f)
  {
    assert (fs + [f])[..|fs|] == fs;
  }

  lemma {:induction false} CollectConcat(e: VersionEdit, a: seq<Field>, b: seq<Field>)
    ensures Collect(e, a + b) == Collect(Collect(e, a), b)
  {
    if b == [] {
      assert a + b == a;
    } else {
      var k := |b| - 1;
      CollectConcat(e, a, b[..k]);
      assert a + b == a + b[..k] + [b[k]];
      CollectSnoc(e, a + b[..k], b[k]);
    }
  }

  lemma {:induction false} CollectPointers(e: VersionEdit, ps: seq<(nat, bytes)>)
    ensures Collect(e, PointerFields(ps)) == e.(pointers := e.pointers + ps)
  {
    if ps == [] {
      assert e.pointers + ps == e.pointers;
    } else {
      var k := |ps| - 1;
      CollectPointers(e, ps[..k]);
      assert PointerFields(ps) == PointerFields(ps[..k]) + [CompactPointer(ps[k].0, ps[k].1)];
      CollectSnoc(e, PointerFields(ps[..k]), CompactPointer(ps[k].0, ps[k].1));
      assert e.pointers + ps[..k] + [ps[k]] == e.pointers + ps;
    }
  }

  lemma {:induction false} CollectDeleted(e: VersionEdit, order: seq<(nat, nat)>)
    ensures Collect(e, DeletedFields(order)) == e.(deleted := e.deleted + SetOf(order))
  {
    if order == [] {
      assert e.deleted + SetOf(order) == e.deleted;
    } else {
      var k := |order| - 1;
      CollectDeleted(e, order[..k]);
      assert DeletedFields(order) == DeletedFields(order[..k]) + [DeletedFile(order[k].0, order[k].1)];
      CollectSnoc(e, DeletedFields(order[..k]), DeletedFile(order[k].0, order[k].1));
      assert order == order[..k] + [order[k]];
      assert e.deleted + SetOf(order[..k]) + {order[k]} == e.deleted + SetOf(order);
    }
  }

  lemma {:induction false} CollectAdded(e: VersionEdit, ns: seq<NewEntry>)
    ensures Collect(e, AddedFields(ns)) == e.(added := e.added + ns)
  {
    if ns == [] {
      assert e.added + ns == e.added;
    } else {
      var k := |ns| - 1;
      CollectAdded(e, ns[..k]);
      assert AddedFields(ns) == AddedFields(ns[..k]) + [AddedField(ns[k])];
      CollectSnoc(e, AddedFields(ns[..k]), AddedField(ns[k]));
      assert e.added + ns[..k] + [ns[k]] == e.added + ns;
    }
  }

  lemma {:induction false} CollectOne(e: VersionEdit, f: Field)
    ensures Collect(e, [f]) == Put(e, f) && Collect(e, []) == e
  {
    assert [] + [f] == [f];
    CollectSnoc(e, [], f);
  }

  lemma {:induction false} CollectScalars(e: VersionEdit)
    ensures Collect(CLEARED, Scalars(e)) ==
            CLEARED.(comparator := e.comparator, logNumber := e.logNumber, prevLogNumber := e.prevLogNumber,
                                                     nextFileNumber := e.nextFileNumber, lastSequence := e.lastSequence)
  {
    hide Collect;
    var a := if e.comparator.Some? then [Comparator(e.comparator.value)] else [];
    var b := if e.logNumber.Some? then [LogNumber(e.logNumber.value)] else [];
    var c := if e.prevLogNumber.Some? then [PrevLogNumber(e.prevLogNumber.value)] else [];
    var d := if e.nextFileNumber.Some? then [NextFileNumber(e.nextFileNumber.value)] else [];
    var f := if e.lastSequence.Some? then [LastSequence(e.lastSequence.value)] else [];
    CollectConcat(CLEARED, a + b + c + d, f);
    CollectConcat(CLEARED, a + b + c, d);
    CollectConcat(CLEARED, a + b, c);
    CollectConcat(CLEARED, a, b);
    var e1 := Collect(CLEARED, a);
    var e2 := Collect(e1, b);
    var e3 := Collect(e2, c);
    var e4 := Collect(e3, d);
    CollectOne(CLEARED, Comparator(e.comparator.GetOr([])));
    CollectOne(e1, LogNumber(e.logNumber.GetOr(0)));
    CollectOne(e2, PrevLogNumber(e.prevLogNumber.GetOr(0)));
    CollectOne(e3, NextFileNumber(e.nextFileNumber.GetOr(0)));
    CollectOne(e4, LastSequence(e.lastSequence.GetOr(0)));
  }

  /** The fields of an edit make up the edit again. */
  lemma {:induction false} CollectFields(e: VersionEdit, order: seq<(nat, nat)>)
    requires SetOf(order) == e.deleted
    ensures Collect(CLEARED, FieldsOf(e, order)) == e
  {
    hide Collect, Scalars, PointerFields, DeletedFields, AddedFields;
    var a, b, c, d := Scalars(e), PointerFields(e.pointers), DeletedFields(order), AddedFields(e.added);
    CollectConcat(CLEARED, a + b + c, d);
    CollectConcat(CLEARED, a + b, c);
    CollectConcat(CLEARED, a, b);
    CollectScalars(e);
    CollectPointers(Collect(CLEARED, a), e.pointers);
    CollectDeleted(Collect(CLEARED, a + b), order);
    CollectAdded(Collect(CLEARED, a + b + c), e.added);
    assert [] + e.pointers == e.pointers && {} + SetOf(order) == e.deleted && [] + e.added == e.added;
  }

  // ----- encoding

  ghost predicate AllOk(fs: seq<Field>)
  {
    forall i :: 0 <= i < |fs| ==> FieldOk(fs[i])
  }

  lemma {:induction false} EncodeSnoc(fs: seq<Field>, f: Field)
    ensures EncodeFields(fs + [f]) == EncodeFields(fs) + EncodeField(f)
  {
    assert (fs + [f])[..|fs|] == fs;
  }

  lemma {:induction false} Regroup(a: bytes, b: bytes, c: bytes)
    ensures a + b + c == a + (b + c)
  {
  }

  lemma {:induction false} EncodeConcat(a: seq<Field>, b: seq<Field>)
    ensures EncodeFields(a + b) == EncodeFields(a) + EncodeFields(b)
  {
    hide EncodeField;
    if b == [] {
      assert a + b == a;
    } else {
      var k := |b| - 1;
      EncodeConcat(a, b[..k]);
      EncodeSnoc(a + b[..k], b[k]);
      assert a + b == a + b[..k] + [b[k]];
      Regroup(EncodeFields(a), EncodeFields(b[..k]), EncodeField(b[k]));
    }
  }

  lemma {:induction false} EncodeCons(fs: seq<Field>, i: nat)
    requires i < |fs|
    ensures EncodeFields(fs[i..]) == EncodeField(fs[i]) + EncodeFields(fs[i + 1..])
  {
    hide EncodeField;
    assert fs[i..] == [fs[i]] + fs[i + 1..];
    EncodeConcat([fs[i]], fs[i + 1..]);
    EncodeSnoc([], fs[i]);
    assert [] + [fs[i]] == [fs[i]] && EncodeFields([]) == [] && [] + EncodeField(fs[i]) == EncodeField(fs[i]);
  }

  method PutFields(fs: seq<Field>, dst: bytes) returns (r: bytes)
    ensures r == dst + EncodeFields(fs)
  {
    hide EncodeField;
    r := dst;
    for i := 0 to |fs|
      invariant r == dst + EncodeFields(fs[..i])
    {
      EncodeSnoc(fs[..i], fs[i]);
      assert fs[..i + 1] == fs[..i] + [fs[i]];
      r := r + EncodeField(fs[i]);
    }
    assert fs[..|fs|] == fs;
  }

  /** `EncodeTo`: scalars, then compaction pointers, deletions and additions. */
  method EncodeTo(e: VersionEdit) returns (dst: bytes, ghost order: seq<(nat, nat)>)
    ensures SetOf(order) == e.deleted && dst == EncodeFields(FieldsOf(e, order))
  {
    hide EncodeFields, Scalars, PointerFields, DeletedFields, AddedFields;
    dst := PutFields(Scalars(e), []);
    ghost var a, b := Scalars(e), PointerFields(e.pointers);
    dst := PutFields(PointerFields(e.pointers), dst);
    EncodeConcat(a, b);
    var listed := ListOf(e.deleted);
    order := listed;
    dst := PutFields(DeletedFields(listed), dst);
    EncodeConcat(a + b, DeletedFields(listed));
    dst := PutFields(AddedFields(e.added), dst);
    EncodeConcat(a + b + DeletedFields(listed), AddedFields(e.added));
  }

  method ListOf(s: set<(nat, nat)>) returns (order: seq<(nat, nat)>)
    ensures SetOf(order) == s
  {
    order := [];
    var rest := s;
    while rest != {}
      invariant SetOf(order) + rest == s
      decreases rest
    {
      var p :| p in rest;
      assert SetOf(order + [p]) == SetOf(order) + {p};
      order, rest := order + [p], rest - {p};
    }
  }

  // ----- decoding

  /** `i` fields have been decoded into the edit. */
  ghost predicate Reading(fs: seq<Field>, i: nat, e: VersionEdit, input: bytes)
  {
    AllOk(fs) && i <= |fs| && e == Collect(CLEARED, fs[..i]) && input == EncodeFields(fs[i..])
  }

  lemma {:induction false} ReadOne(fs: seq<Field>, i: nat, e: VersionEdit, input: bytes)
    requires Reading(fs, i, e, input)
    ensures GetVarint32(input).Some? <==> i < |fs|
    ensures i == |fs| ==> input == [] && e == Collect(CLEARED, fs)
    ensures i < |fs| ==>
              var (tag, rest) := GetVarint32(input).value;
              DecodeBody(tag, rest).Some?
                  && Reading(fs, i + 1, Put(e, DecodeBody(tag, rest).value.0), DecodeBody(tag, rest).value.1)
  {
    hide EncodeField, DecodeBody, GetVarint32, EncodeFields, Collect, FieldOk, Body;
    if i < |fs| {
      EncodeCons(fs, i);
      FieldReads(fs[i], EncodeFields(fs[i + 1..]));
      assert fs[..i + 1] == fs[..i] + [fs[i]];
      CollectSnoc(CLEARED, fs[..i], fs[i]);
    } else {
      assert fs[i..] == [] && fs[..i] == fs;
      NoTag();
    }
  }

  lemma {:induction false} NoTag()
    ensures GetVarint32([]).None? && EncodeFields([]) == []
  {
  }

  /** `DecodeFrom`: fields until no tag follows; whatever is left then is an error. */
  method DecodeFrom(src: bytes, ghost fs: seq<Field>) returns (r: Option<VersionEdit>)
    ensures AllOk(fs) && src == EncodeFields(fs) ==> r == Some(Collect(CLEARED, fs))
  {
    var e, input := CLEARED, src;
    ghost var i, stream := 0, AllOk(fs) && src == EncodeFields(fs);
    assert fs[..0] == [] && fs[0..] == fs;
    assert stream ==> Reading(fs, 0, e, input);
    hide Reading, DecodeBody, GetVarint32, EncodeFields, Collect, AllOk;
    while true
      invariant stream ==> Reading(fs, i, e, input)
      decreases |input|
    {
      if stream { ReadOne(fs, i, e, input); }
      var t := GetVarint32(input);
      if t.None? {
        break;
      }
      var (tag, rest) := t.value;
      var f := DecodeBody(tag, rest);
      if f.None? {
        return None;
      }
      DecodeShorter(input, tag, rest);
      e, input := Put(e, f.value.0), f.value.1;
      i := i + 1;
    }
    if input != [] {
      return None;
    }
    r := Some(e);
  }

  lemma {:induction false} DecodeShorter(b: bytes, tag: nat, rest: bytes)
    requires GetVarint32(b) == Some((tag, rest))
    ensures DecodeBody(tag, rest).Some? ==> |DecodeBody(tag, rest).value.1| < |b|
  {
  }

  ghost predicate EditOk(e: VersionEdit)
  {
    forall order :: SetOf(order) == e.deleted ==> AllOk(FieldsOf(e, order))
  }

  /** Encoding and decoding an edit gives the edit back. */
  method RoundTrip(e: VersionEdit) returns (r: Option<VersionEdit>)
    requires EditOk(e)
    ensures r == Some(e)
  {
    hide EncodeFields, FieldsOf, Collect;
    var dst, order := EncodeTo(e);
    r := DecodeFrom(dst, FieldsOf(e, order));
    CollectFields(e, order);
  }
}
