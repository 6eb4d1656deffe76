/** The file formats byte by byte, as numbers, so that files written by one build are read by another. */
module Layouts {
  import opened Coding
  import Crc32c
  import Keys
  import Ordering
  import TableFormat
  import VersionEdits
  import Wal
  import WriteBatches

  // ----- integers

  lemma {:induction false} FixedStep(n: nat, width: nat)
    ensures Fixed(n, width + 1) == [n % 256] + Fixed(n / 256, width) && Fixed(n, 0) == []
  {
  }

  /** Four bytes, the lowest first. */
  lemma {:induction false} Fixed32Bytes(n: nat)
    ensures Fixed(n, 4) == [n % 256, n / 0x100 % 256, n / 0x1_0000 % 256, n / 0x100_0000 % 256]
  {
    hide Fixed;
    FixedStep(n, 3);
    FixedStep(n / 0x100, 2);
    FixedStep(n / 0x1_0000, 1);
    FixedStep(n / 0x100_0000, 0);
    FixedStep(n / 0x1_0000_0000, 0);
  }

  /** Eight bytes, the lowest first. */
  lemma {:induction false} Fixed64Bytes(n: nat)
    ensures Fixed(n, 8) == [n % 256, n / 0x100 % 256, n / 0x1_0000 % 256, n / 0x100_0000 % 256]
                           + Fixed(n / 0x1_0000_0000, 4)
  {
    hide Fixed;
    FixedStep(n, 7);
    FixedStep(n / 0x100, 6);
    FixedStep(n / 0x1_0000, 5);
    FixedStep(n / 0x100_0000, 4);
  }

  /** One byte up to 127; two up to 16383, seven low bits first, the first with its high bit set. */
  lemma {:induction false} VarintBytes(n: nat)
    ensures n < 128 ==> Varint(n) == [n]
    ensures 128 <= n < 16384 ==> Varint(n) == [n % 128 + 128, n / 128]
  {
    if 128 <= n < 16384 {
      assert Varint(n / 128) == [n / 128];
    }
  }

  // ----- the log

  /** The first seven bytes of a fragment: the masked checksum of type and payload, the length, the type. */
  lemma {:induction false} LogHeader(f: Wal.Fragment)
    requires |f.payload| < 65536
    ensures var c, n, e := Crc32c.Number(Crc32c.Mask(Crc32c.Value([f.kind] + f.payload))), |f.payload|, Wal.Emit(f);
            && |e| == 7 + n && e[7..] == f.payload
            && e[..7] == [c % 256, c / 0x100 % 256, c / 0x1_0000 % 256, c / 0x100_0000 % 256, n % 256, n / 256, f.kind]
  {
    hide Crc32c.Mask, Crc32c.Number, Crc32c.Extended, Crc32c.Value, Fixed;
    Crc32c.ExtendConcat(0, [f.kind], f.payload);
    var crc := Crc32c.Value([f.kind] + f.payload);
    ValueIs([f.kind], f.payload);
    Fixed32Bytes(Crc32c.Number(Crc32c.Mask(crc)));
  }

  lemma {:induction false} ValueIs(a: bytes, b: bytes)
    ensures Crc32c.Extended(Crc32c.Value(a), b) == Crc32c.Value(a + b)
  {
    hide Crc32c.Extended;
    Crc32c.ExtendConcat(0, a, b);
  }

  /** Types: 1 for a whole record; otherwise 2 for its first fragment, 4 for its last and 3 between. */
  lemma {:induction false} LogTypes(p: nat, data: bytes, i: nat)
    requires i < |Wal.FragmentsOf(p, data, true)|
    ensures var fs := Wal.FragmentsOf(p, data, true);
            fs[i].kind == if |fs| == 1 then 1 else if i == 0 then 2 else if i == |fs| - 1 then 4 else 3
  {
    Wal.FragmentsSpell(p, data, true);
  }

  /** Blocks of 32768 bytes: a fragment starts where at least seven bytes are left in its block, after zeros if fewer
      were left, ends in the same block, and reaches its end unless it is the record's last. */
  lemma {:induction false} LogBlocks(p: nat, data: bytes)
    ensures var f, start := Wal.FragmentsOf(p, data, true)[0], Wal.Align(p);
            && start == (if p % 32768 > 32768 - 7 then p + (32768 - p % 32768) else p)
            && start / 32768 == (start + 7 + |f.payload| - 1) / 32768
            && (|Wal.FragmentsOf(p, data, true)| > 1 ==> (start + 7 + |f.payload|) % 32768 == 0)
  {
    var n := if |data| < Wal.Room(p) then |data| else Wal.Room(p);
    assert Wal.FragmentsOf(p, data, true)[0].payload == data[..n];
  }

  // ----- tables

  /** The last 48 bytes: two handles of two varints each, zeros up to 40, and the magic number. */
  lemma {:induction false} FooterBytes(meta: TableFormat.Handle, index: TableFormat.Handle)
    requires TableFormat.HandleOk(meta) && TableFormat.HandleOk(index)
    ensures var b := TableFormat.EncodeFooter(meta, index);
            var handles := Varint(meta.offset) + Varint(meta.size) + Varint(index.offset) + Varint(index.size);
            && |b| == 48 && |handles| <= 40 && b[..|handles|] == handles
            && (forall i :: |handles| <= i < 40 ==> b[i] == 0)
            && b[40..] == [0x31, 0x2b, 0x6a, 0x9d, 0x0c, 0x4e, 0x7f, 0x8c]
  {
    TableFormat.HandleRoundTrip(meta, []);
    TableFormat.HandleRoundTrip(index, []);
    MagicBytes();
    hide Varint, Fixed, TableFormat.DecodeHandle;
    var handles := Varint(meta.offset) + Varint(meta.size) + Varint(index.offset) + Varint(index.size);
    assert TableFormat.EncodeHandle(meta) + TableFormat.EncodeHandle(index) == handles;
    Padded(handles, Fixed(TableFormat.MAGIC, 8));
  }

  lemma {:induction false} Padded(handles: bytes, magic: bytes)
    requires |handles| <= 40 && |magic| == 8
    ensures var b := handles + TableFormat.Zeros(40 - |handles|) + magic;
            && |b| == 48 && b[..|handles|] == handles && b[40..] == magic
            && forall i :: |handles| <= i < 40 ==> b[i] == 0
  {
  }

  lemma {:induction false} MagicBytes()
    ensures Fixed(TableFormat.MAGIC, 8) == [0x31, 0x2b, 0x6a, 0x9d, 0x0c, 0x4e, 0x7f, 0x8c]
  {
    hide Fixed;
    FixedStep(0x8c7f4e0c9d6a2b31, 7);
    FixedStep(0x8c7f4e0c9d6a2b, 6);
    FixedStep(0x8c7f4e0c9d6a, 5);
    FixedStep(0x8c7f4e0c9d, 4);
    FixedStep(0x8c7f4e0c, 3);
    FixedStep(0x8c7f4e, 2);
    FixedStep(0x8c7f, 1);
    FixedStep(0x8c, 0);
    FixedStep(0, 0);
  }

  /** After a block: the type byte 0 and the masked checksum of the block and that byte. */
  lemma {:induction false} BlockTrailer(contents: bytes)
    ensures var c, n := Crc32c.Number(Crc32c.Mask(Crc32c.Value(contents + [0]))), |contents|;
            && TableFormat.Framed(contents)[..n] == contents
            && TableFormat.Framed(contents)[n..] ==
               [0, c % 256, c / 0x100 % 256, c / 0x1_0000 % 256, c / 0x100_0000 % 256]
  {
    hide Crc32c.Mask, Crc32c.Number, Crc32c.Extended, Crc32c.Value, Fixed;
    ValueIs(contents, [0]);
    Fixed32Bytes(Crc32c.Number(Crc32c.Mask(Crc32c.Value(contents + [0]))));
  }

  /** Rotation by 15 bits and a constant. */
  lemma {:induction false} MaskValues()
    ensures Crc32c.Mask(0) == 0xa282_ead8 && Crc32c.Mask(0x8000) == 0xa282_ead9 && Crc32c.Mask(1) == 0xa284_ead8
    ensures Crc32c.Mask(0xffff_ffff) == 0xa282_ead7
  {
  }

  // ----- keys, batches and edits

  /** An internal key: the user key, the type (0 for a deletion, 1 for a value), seven bytes of sequence number. */
  lemma {:induction false} KeyBytes(k: Keys.StoredKey)
    requires k.sequence <= Keys.MAX_SEQUENCE
    ensures var b, n, s := Keys.EncodeKey(k), |k.user|, k.sequence;
            && |b| == n + 8 && b[..n] == k.user
            && b[n] == (if k.kind == Ordering.Value then 1 else 0)
            && b[n + 1..] == Fixed(s, 7)
  {
    hide Fixed;
    var tag := Keys.Pack(k.sequence, k.kind);
    FixedStep(tag, 7);
  }

  /** A batch: eight bytes of sequence number, four of count, then the records. */
  lemma {:induction false} BatchBytes(sequence: nat, ops: seq<WriteBatches.Op>)
    ensures var b := WriteBatches.Encoded(sequence, ops);
            b[..8] == Fixed(sequence, 8) && b[8..12] == Fixed(|ops|, 4) && b[12..] == WriteBatches.Records(ops)
  {
    hide Fixed, WriteBatches.Records;
    var a, c, r := Fixed(sequence, 8), Fixed(|ops|, 4), WriteBatches.Records(ops);
    assert WriteBatches.Encoded(sequence, ops) == a + c + r;
  }

  /** A record: 1, key and value for a put; 0 and the key for a deletion; each string after its length. */
  lemma {:induction false} RecordBytes(k: bytes, v: bytes)
    ensures WriteBatches.Record(WriteBatches.Put(k, v)) == [1] + Varint(|k|) + k + Varint(|v|) + v
    ensures WriteBatches.Record(WriteBatches.Delete(k)) == [0] + Varint(|k|) + k
  {
    hide Varint;
    assert [1] + (Varint(|k|) + k) + (Varint(|v|) + v) == [1] + Varint(|k|) + k + Varint(|v|) + v;
    assert [0] + (Varint(|k|) + k) == [0] + Varint(|k|) + k;
  }

  /** The fields of an edit and their tags. */
  lemma {:induction false} FieldBytes(l: nat, n: nat, s: nat, x: bytes, y: bytes)
    ensures VersionEdits.EncodeField(VersionEdits.Comparator(x)) == [1] + (Varint(|x|) + x)
    ensures VersionEdits.EncodeField(VersionEdits.LogNumber(n)) == [2] + Varint(n)
    ensures VersionEdits.EncodeField(VersionEdits.NextFileNumber(n)) == [3] + Varint(n)
    ensures VersionEdits.EncodeField(VersionEdits.LastSequence(n)) == [4] + Varint(n)
    ensures VersionEdits.EncodeField(VersionEdits.CompactPointer(l, x)) == [5] + (Varint(l) + (Varint(|x|) + x))
    ensures VersionEdits.EncodeField(VersionEdits.DeletedFile(l, n)) == [6] + (Varint(l) + Varint(n))
    ensures VersionEdits.EncodeField(VersionEdits.NewFile(l, n, s, x, y)) ==
            [7] + (Varint(l) + (Varint(n) + (Varint(s) + ((Varint(|x|) + x) + (Varint(|y|) + y)))))
    ensures VersionEdits.EncodeField(VersionEdits.PrevLogNumber(n)) == [9] + Varint(n)
  {
    Tags();
    hide Varint;
  }

  lemma {:induction false} Tags()
    ensures Varint(1) == [1] && Varint(2) == [2] && Varint(3) == [3] && Varint(4) == [4]
    ensures Varint(5) == [5] && Varint(6) == [6] && Varint(7) == [7] && Varint(9) == [9]
  {
    VarintBytes(1);
    VarintBytes(9);
  }
}
