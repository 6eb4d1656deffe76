/** The pieces of a table file: block handles, blocks framed with type and checksum, the footer. */
module TableFormat {
  import opened Coding
  import Crc32c
  import opened Wrappers

  datatype Handle = Handle(offset: nat, size: nat)

  const MAX_HANDLE: nat := 20
  const FOOTER: nat := 48
  const MAGIC: nat := 0x8c7f_4e0c_9d6a_2b31
  const TRAILER: nat := 5
  const NO_COMPRESSION: byte := 0

  // ----- handles

  function EncodeHandle(h: Handle): bytes
  {
    Varint(h.offset) + Varint(h.size)
  }

  /** The handle and what follows it; fails where a varint is malformed. */
  function DecodeHandle(b: bytes): Option<(Handle, bytes)>
  {
    match GetVarint64(b)
    case None => None
    case Some((offset, rest)) =>
      match GetVarint64(rest)
      case None => None
      case Some((size, rest)) => Some((Handle(offset, size), rest))
  }

  ghost predicate HandleOk(h: Handle)
  {
    h.offset < WORD64 && h.size < WORD64
  }

  lemma {:induction false} HandleRoundTrip(h: Handle, rest: bytes)
    requires HandleOk(h)
    ensures DecodeHandle(EncodeHandle(h) + rest) == Some((h, rest))
    ensures |EncodeHandle(h)| <= MAX_HANDLE
  {
    hide GetVarint64, Varint;
    assert EncodeHandle(h) + rest == Varint(h.offset) + (Varint(h.size) + rest);
    Varint64RoundTrip(h.offset, Varint(h.size) + rest);
    Varint64RoundTrip(h.size, rest);
    VarintLength(h.offset);
    VarintLength(h.size);
  }

  lemma {:induction false} VarintLength(n: nat)
    requires n < WORD64
    ensures |Varint(n)| <= 10
  {
    Powers128();
    VarintRoundTrip(n, [], 10);
  }

  // ----- the footer

  function Zeros(n: nat): (b: bytes)
    ensures |b| == n
  {
    seq(n, _ => 0)
  }

  /** Both handles, padded to their largest size, and the magic number. */
  function EncodeFooter(meta: Handle, index: Handle): bytes
  {
    var handles := EncodeHandle(meta) + EncodeHandle(index);
    handles + Zeros(if |handles| < 2 * MAX_HANDLE then 2 * MAX_HANDLE - |handles| else 0) + Fixed(MAGIC, 8)
  }

  function DecodeFooter(b: bytes): Option<(Handle, Handle)>
  {
    if |b| < FOOTER || Unfixed(b[FOOTER - 8..FOOTER]) != MAGIC then None
    else
      match DecodeHandle(b)
      case None => None
      case Some((meta, rest)) =>
        match DecodeHandle(rest)
        case None => None
        case Some((index, _)) => Some((meta, index))
  }

  lemma {:induction false} FooterRoundTrip(meta: Handle, index: Handle)
    requires HandleOk(meta) && HandleOk(index)
    ensures |EncodeFooter(meta, index)| == FOOTER
    ensures DecodeFooter(EncodeFooter(meta, index)) == Some((meta, index))
  {
    hide EncodeHandle, DecodeHandle, Fixed, Unfixed, Power;
    var a, b := EncodeHandle(meta), EncodeHandle(index);
    HandleRoundTrip(meta, []);
    HandleRoundTrip(index, []);
    var tail := Zeros(2 * MAX_HANDLE - |a + b|) + Fixed(MAGIC, 8);
    var f := EncodeFooter(meta, index);
    assert f == a + (b + tail);
    HandleRoundTrip(meta, b + tail);
    HandleRoundTrip(index, tail);
    assert f[FOOTER - 8..FOOTER] == Fixed(MAGIC, 8);
    Width8();
    FixedRoundTrip(MAGIC, 8);
  }

  // ----- framed blocks

  /** The checksum covers the contents and the type. */
  function Framed(contents: bytes): (b: bytes)
    ensures |b| == |contents| + TRAILER
  {
    contents + [NO_COMPRESSION] + Crc32c.Stored(Crc32c.Extended(Crc32c.Value(contents), [NO_COMPRESSION]))
  }

  /** The handle says where in the file the contents stand, framed. */
  ghost predicate BlockAt(file: bytes, h: Handle, contents: bytes)
  {
    && h.size == |contents| && h.offset + h.size + TRAILER <= |file|
    && file[h.offset..h.offset + h.size + TRAILER] == Framed(contents)
  }

  /** Appending to a file leaves its blocks where they are. */
  lemma {:induction false} BlockStays(file: bytes, more: bytes, h: Handle, contents: bytes)
    requires BlockAt(file, h, contents)
    ensures BlockAt(file + more, h, contents)
  {
    var a, b := h.offset, h.offset + h.size + TRAILER;
    assert (file + more)[a..b] == file[a..b];
  }

  lemma {:induction false} BlockAppended(file: bytes, contents: bytes)
    ensures BlockAt(file + Framed(contents), Handle(|file|, |contents|), contents)
  {
  }

  /** `WriteRawBlock`: contents, type and masked checksum are appended; the handle says where. */
  method WriteRawBlock(file: bytes, contents: bytes) returns (file': bytes, handle: Handle)
    ensures file' == file + Framed(contents) && handle == Handle(|file|, |contents|)
  {
    hide Crc32c.Stored, Crc32c.Extended;
    handle := Handle(|file|, |contents|);
    file' := file + contents;
    var crc := Crc32c.Extend(0, contents);
    crc := Crc32c.Extend(crc, [NO_COMPRESSION]);
    file' := file' + ([NO_COMPRESSION] + Crc32c.Stored(crc));
    assert file' == file + Framed(contents);
  }

  /** The block and its trailer are in the file, the type is known, and the checksum is right if it is looked at. */
  ghost predicate Readable(file: bytes, h: Handle, verify: bool)
  {
    && h.offset + h.size + TRAILER <= |file|
    && file[h.offset + h.size] == NO_COMPRESSION
    && (verify ==> Crc32c.Value(file[h.offset..h.offset + h.size + 1]) ==
                   Crc32c.Loaded(file[h.offset + h.size + 1..h.offset + h.size + 5]))
  }

  lemma {:induction false} SliceOfSlice(b: bytes, lo: nat, hi: nat, i: nat, j: nat)
    requires lo <= hi <= |b| && i <= j <= hi - lo
    ensures b[lo..hi][i..j] == b[lo + i..lo + j]
  {
    var x, y := b[lo..hi][i..j], b[lo + i..lo + j];
    assert |x| == |y|;
    forall k | 0 <= k < |x| ensures x[k] == y[k] {
      assert b[lo..hi][i + k] == b[lo + i + k];
    }
  }

  /** `ReadBlock`: contents that were written are read back, with or without checking; a short file, a wrong
      checksum that is checked, and an unknown type are errors. */
  method ReadBlock(file: bytes, handle: Handle, verify: bool, ghost contents: bytes) returns (r: Option<bytes>)
    ensures BlockAt(file, handle, contents) ==> r == Some(contents)
    ensures r.Some? <==> Readable(file, handle, verify)
    ensures r.Some? ==> r.value == file[handle.offset..handle.offset + handle.size]
  {
    hide Crc32c.Stored, Crc32c.Extended, Crc32c.Loaded;
    var n := handle.size;
    if handle.offset + n + TRAILER > |file| {
      return None;
    }
    var data := file[handle.offset..handle.offset + n + TRAILER];
    assert data[..n] == file[handle.offset..handle.offset + n];
    SliceOfSlice(file, handle.offset, handle.offset + n + TRAILER, 0, n + 1);
    SliceOfSlice(file, handle.offset, handle.offset + n + TRAILER, n + 1, n + 5);
    if BlockAt(file, handle, contents) { FrameReads(data, contents); }
    if verify {
      var actual := Crc32c.Extend(0, data[..n + 1]);
      if actual != Crc32c.Loaded(data[n + 1..n + 5]) {
        return None;
      }
    }
    if data[n] != NO_COMPRESSION {
      return None;
    }
    r := Some(data[..n]);
  }

  lemma {:induction false} FrameReads(data: bytes, contents: bytes)
    requires data == Framed(contents)
    ensures var n := |contents|;
            && data[..n] == contents && data[n] == NO_COMPRESSION
            && Crc32c.Extended(0, data[..n + 1]) == Crc32c.Loaded(data[n + 1..n + 5])
  {
    hide Crc32c.Stored, Crc32c.Extended, Crc32c.Loaded;
    var n := |contents|;
    var crc := Crc32c.Extended(Crc32c.Value(contents), [NO_COMPRESSION]);
    assert data[..n + 1] == contents + [NO_COMPRESSION];
    assert data[n + 1..n + 5] == Crc32c.Stored(crc);
    Crc32c.ExtendConcat(0, contents, [NO_COMPRESSION]);
    Crc32c.StoredRoundTrip(crc);
  }
}
