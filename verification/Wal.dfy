/** The write-ahead log format: records cut into checksummed fragments that never cross a
    block boundary. */
module Wal {
  import opened Coding
  import Crc32c

  const BLOCK: nat := 32768
  const HEADER: nat := 7

  const FULL: byte := 1
  const FIRST: byte := 2
  const MIDDLE: byte := 3
  const LAST: byte := 4

  datatype Fragment = Fragment(kind: byte, payload: bytes)

  // ----- layout

  /** Where the next fragment starts: a block's last few bytes cannot hold a header. */
  function Align(p: nat): (s: nat)
    ensures p <= s < p + HEADER && s % BLOCK <= BLOCK - HEADER
  {
    if BLOCK - p % BLOCK < HEADER then p + (BLOCK - p % BLOCK) else p
  }

  /** How many payload bytes fit into the block after the header. */
  function Room(p: nat): (n: nat)
    ensures n <= BLOCK - HEADER
  {
    BLOCK - HEADER - Align(p) % BLOCK
  }

  function EndOf(p: nat, f: Fragment): nat
  {
    Align(p) + HEADER + |f.payload|
  }

  function Checksum(f: Fragment): bv32
  {
    Crc32c.Extended(Crc32c.Value([f.kind]), f.payload)
  }

  function Header(f: Fragment): (b: bytes)
    requires |f.payload| < 65536
    ensures |b| == HEADER
  {
    Crc32c.Stored(Checksum(f)) + [|f.payload| % 256, |f.payload| / 256, f.kind]
  }

  function Emit(f: Fragment): (b: bytes)
    requires |f.payload| < 65536
    ensures |b| == HEADER + |f.payload|
  {
    Header(f) + f.payload
  }

  function Zeros(n: nat): (b: bytes)
    ensures |b| == n
  {
    seq(n, _ => 0)
  }

  ghost predicate Fits(p: nat, frags: seq<Fragment>)
    decreases |frags|
  {
    frags == [] || (|frags[0].payload| <= Room(p) && Fits(EndOf(p, frags[0]), frags[1..]))
  }

  function EndAll(p: nat, frags: seq<Fragment>): nat
    decreases |frags|
  {
    if frags == [] then p else EndAll(EndOf(p, frags[0]), frags[1..])
  }

  /** The bytes of some fragments written from position `p` on. */
  ghost function Lay(p: nat, frags: seq<Fragment>): bytes
    requires Fits(p, frags)
    decreases |frags|
  {
    if frags == [] then [] else Zeros(Align(p) - p) + Emit(frags[0]) + Lay(EndOf(p, frags[0]), frags[1..])
  }

  lemma {:induction false} LaySize(p: nat, frags: seq<Fragment>)
    requires Fits(p, frags)
    ensures p + |Lay(p, frags)| == EndAll(p, frags)
    decreases |frags|
  {
    if frags != [] {
      LaySize(EndOf(p, frags[0]), frags[1..]);
    }
  }

  lemma {:induction false} FitsConcat(p: nat, a: seq<Fragment>, b: seq<Fragment>)
    requires Fits(p, a) && Fits(EndAll(p, a), b)
    ensures Fits(p, a + b) && EndAll(p, a + b) == EndAll(EndAll(p, a), b)
    decreases |a|
  {
    hide Room, EndOf;
    if a == [] {
      assert a + b == b;
    } else {
      assert (a + b)[0] == a[0] && (a + b)[1..] == a[1..] + b;
      FitsConcat(EndOf(p, a[0]), a[1..], b);
    }
  }

  lemma {:induction false} LayConcat(p: nat, a: seq<Fragment>, b: seq<Fragment>)
    requires Fits(p, a) && Fits(EndAll(p, a), b)
    ensures Fits(p, a + b) && EndAll(p, a + b) == EndAll(EndAll(p, a), b)
    ensures Lay(p, a + b) == Lay(p, a) + Lay(EndAll(p, a), b)
    decreases |a|
  {
    hide Room, EndOf, Emit, Zeros, Align;
    FitsConcat(p, a, b);
    if a == [] {
      assert a + b == b;
    } else {
      var q := EndOf(p, a[0]);
      assert (a + b)[0] == a[0] && (a + b)[1..] == a[1..] + b;
      LayConcat(q, a[1..], b);
      var x, y, z := Zeros(Align(p) - p) + Emit(a[0]), Lay(q, a[1..]), Lay(EndAll(p, a), b);
      assert x + (y + z) == (x + y) + z;
    }
  }

  lemma {:induction false} FitsSplit(p: nat, frags: seq<Fragment>, i: nat)
    requires Fits(p, frags) && i <= |frags|
    ensures Fits(p, frags[..i]) && Fits(EndAll(p, frags[..i]), frags[i..])
    ensures EndAll(p, frags) == EndAll(EndAll(p, frags[..i]), frags[i..])
    decreases i
  {
    if i == 0 {
      assert frags[..0] == [] && frags[0..] == frags;
    } else {
      FitsSplit(EndOf(p, frags[0]), frags[1..], i - 1);
      assert frags[..i][1..] == frags[1..][..i - 1] && frags[i..] == frags[1..][i - 1..];
    }
  }

  lemma {:induction false} LayHead(q: nat, b: seq<Fragment>)
    requires b != [] && Fits(q, b)
    ensures |b[0].payload| <= Room(q) && EndOf(q, b[0]) <= q + |Lay(q, b)|
    ensures Lay(q, b)[Align(q) - q..EndOf(q, b[0]) - q] == Emit(b[0])
  {
    hide Emit, Zeros, Room, Align;
    assert Lay(q, b) == Zeros(Align(q) - q) + Emit(b[0]) + Lay(EndOf(q, b[0]), b[1..]);
  }

  lemma {:induction false} EndOfPrefix(p: nat, frags: seq<Fragment>, i: nat)
    requires Fits(p, frags) && i < |frags|
    ensures EndAll(p, frags[..i + 1]) == EndOf(EndAll(p, frags[..i]), frags[i])
  {
    FitsSplit(p, frags, i + 1);
    FitsSplit(p, frags[..i + 1], i);
    assert frags[..i + 1][..i] == frags[..i] && frags[..i + 1][i..] == [frags[i]];
  }

  /** Each fragment's bytes stand at its start, inside one block. */
  lemma {:induction false} LayAt(p: nat, frags: seq<Fragment>, i: nat)
    requires Fits(p, frags) && i < |frags|
    ensures var q := EndAll(p, frags[..i]);
            && |frags[i].payload| <= Room(q)
            && p <= q && EndOf(q, frags[i]) <= p + |Lay(p, frags)|
            && Lay(p, frags)[Align(q) - p..EndOf(q, frags[i]) - p] == Emit(frags[i])
  {
    hide Emit, Zeros, Align, Fits, Lay;
    var a, b := frags[..i], frags[i..];
    var q := EndAll(p, a);
    FitsSplit(p, frags, i);
    assert frags == a + b && b[0] == frags[i];
    LayConcat(p, a, b);
    LaySize(p, a);
    LayHead(q, b);
    var whole, left, right := Lay(p, frags), Lay(p, a), Lay(q, b);
    Within(left, right, Align(q) - q, EndOf(q, b[0]) - q);
  }

  lemma {:induction false} Within(left: bytes, right: bytes, lo: nat, hi: nat)
    requires lo <= hi <= |right|
    ensures (left + right)[|left| + lo..|left| + hi] == right[lo..hi]
  {
  }

  // ----- cutting records into fragments

  function Kind(begin: bool, end: bool): byte
  {
    if begin && end then FULL else if begin then FIRST else if end then LAST else MIDDLE
  }

  /** A block whose room is used up by a header alone is followed by a fresh one. */
  lemma {:induction false} RoomAgain(p: nat)
    requires Room(p) == 0
    ensures Room(Align(p) + HEADER) == BLOCK - HEADER
  {
  }

  function FragmentsOf(p: nat, data: bytes, begin: bool): (fs: seq<Fragment>)
    ensures |fs| > 0
    decreases |data|, if Room(p) == 0 then 1 else 0
  {
    var n := if |data| < Room(p) then |data| else Room(p);
    var f := Fragment(Kind(begin, n == |data|), data[..n]);
    if n == |data| then [f]
    else
      assert n == 0 ==> Room(EndOf(p, f)) != 0 by { if n == 0 { RoomAgain(p); } }
      [f] + FragmentsOf(EndOf(p, f), data[n..], false)
  }

  lemma {:induction false} FragmentsFit(p: nat, data: bytes, begin: bool)
    ensures Fits(p, FragmentsOf(p, data, begin))
    decreases |data|, if Room(p) == 0 then 1 else 0
  {
    var n := if |data| < Room(p) then |data| else Room(p);
    var f := Fragment(Kind(begin, n == |data|), data[..n]);
    if n < |data| {
      if n == 0 { RoomAgain(p); }
      FragmentsFit(EndOf(p, f), data[n..], false);
      assert ([f] + FragmentsOf(EndOf(p, f), data[n..], false))[1..] == FragmentsOf(EndOf(p, f), data[n..], false);
    }
  }

  function Joined(fs: seq<Fragment>): bytes
  {
    if fs == [] then [] else fs[0].payload + Joined(fs[1..])
  }

  /** The fragments of a record: their kinds mark its two ends, their payloads join up to it. */
  ghost predicate Spells(fs: seq<Fragment>, data: bytes, begin: bool)
  {
    && |fs| > 0
    && (forall i :: 0 <= i < |fs| ==> fs[i].kind == Kind(begin && i == 0, i == |fs| - 1))
    && Joined(fs) == data
  }

  lemma {:induction false} FragmentsSpell(p: nat, data: bytes, begin: bool)
    ensures Spells(FragmentsOf(p, data, begin), data, begin)
    decreases |data|, if Room(p) == 0 then 1 else 0
  {
    hide Room, EndOf;
    var n := if |data| < Room(p) then |data| else Room(p);
    var f := Fragment(Kind(begin, n == |data|), data[..n]);
    if n < |data| {
      if n == 0 { RoomAgain(p); assert EndOf(p, f) == Align(p) + HEADER by { EndOfEmpty(p, f); } }
      FragmentsSpell(EndOf(p, f), data[n..], false);
      var rest := FragmentsOf(EndOf(p, f), data[n..], false);
      assert ([f] + rest)[1..] == rest;
      assert data[..n] + data[n..] == data;
    } else {
      assert FragmentsOf(p, data, begin) == [f] && data[..n] == data;
      assert [f][1..] == [] && Joined([f]) == f.payload + Joined([]);
    }
  }

  lemma {:induction false} EndOfEmpty(p: nat, f: Fragment)
    requires f.payload == []
    ensures EndOf(p, f) == Align(p) + HEADER
  {
  }

  // ----- the writer

  class Writer {
    var dest: bytes
    var blockOffset: nat

    ghost predicate Valid()
      reads this
    {
      blockOffset <= BLOCK && blockOffset <= |dest| && (|dest| - blockOffset) % BLOCK == 0
    }

    constructor ()
      ensures Valid() && dest == []
    {
      dest, blockOffset := [], 0;
    }

    method EmitPhysicalRecord(kind: byte, payload: bytes)
      requires Valid() && blockOffset + HEADER + |payload| <= BLOCK
      modifies this
      ensures Valid() && dest == old(dest) + Emit(Fragment(kind, payload))
      ensures blockOffset == old(blockOffset) + HEADER + |payload|
    {
      hide Crc32c.Stored, Crc32c.Extended;
      var typeCrc := Crc32c.Extend(0, [kind]);
      var crc := Crc32c.Extend(typeCrc, payload);
      dest := dest + (Crc32c.Stored(crc) + [|payload| % 256, |payload| / 256, kind]);
      dest := dest + payload;
      blockOffset := blockOffset + HEADER + |payload|;
      assert dest == old(dest) + Emit(Fragment(kind, payload));
    }

    /** One fragment of what is left, in a fresh block if need be. */
    method AddFragment(left: bytes, begin: bool) returns (n: nat)
      requires Valid()
      modifies this
      ensures Valid() && n == FragmentSize(|old(dest)|, left)
      ensures var p, f := |old(dest)|, FirstFragment(|old(dest)|, left, begin);
              dest == old(dest) + Zeros(Align(p) - p) + Emit(f) && |dest| == EndOf(p, f)
    {
      hide Emit, Crc32c.Stored;
      ghost var p := |dest|;
      var leftover := BLOCK - blockOffset;
      OffsetInBlock(|dest|, blockOffset);
      if leftover < HEADER {
        if leftover > 0 {
          dest := dest + Zeros(leftover);
        }
        blockOffset := 0;
      }
      assert |dest| == Align(p) && dest == old(dest) + Zeros(Align(p) - p) && blockOffset == Align(p) % BLOCK;
      var avail := BLOCK - blockOffset - HEADER;
      n := if |left| < avail then |left| else avail;
      var end := |left| == n;
      var kind := if begin && end then FULL else if begin then FIRST else if end then LAST else MIDDLE;
      EmitPhysicalRecord(kind, left[..n]);
    }

    /** A record is appended as its fragments, laid out from the end of the file on. */
    method AddRecord(data: bytes)
      requires Valid()
      modifies this
      ensures Valid()
      ensures var p := |old(dest)|;
              Fits(p, FragmentsOf(p, data, true)) && dest == old(dest) + Lay(p, FragmentsOf(p, data, true))
    {
      hide ToWrite, Fits, Lay, FragmentsOf, Emit, Zeros, EndOf, FragmentSize, FirstFragment, Room, Align;
      FragmentsFit(|dest|, data, true);
      ghost var goal := dest + Lay(|dest|, FragmentsOf(|dest|, data, true));
      StartWrite(dest, data, goal);
      var left, begin, more := data, true, true;
      while more
        invariant Valid() && (more ==> ToWrite(dest, left, begin, goal)) && (!more ==> dest == goal)
        decreases more, |left|, if Room(|dest|) == 0 then 1 else 0
      {
        ghost var was, p := dest, |dest|;
        var n := AddFragment(left, begin);
        Written(was, left, begin, goal, dest);
        left, begin, more := left[n..], false, n < |left|;
      }
    }
  }

  lemma {:induction false} StartWrite(dest: bytes, data: bytes, goal: bytes)
    requires Fits(|dest|, FragmentsOf(|dest|, data, true))
    requires goal == dest + Lay(|dest|, FragmentsOf(|dest|, data, true))
    ensures ToWrite(dest, data, true, goal)
  {
    hide Fits, Lay, FragmentsOf;
  }

  function FragmentSize(p: nat, left: bytes): (n: nat)
    ensures n <= |left| && n < 65536
  {
    if |left| < Room(p) then |left| else Room(p)
  }

  function FirstFragment(p: nat, left: bytes, begin: bool): (f: Fragment)
    ensures |f.payload| == FragmentSize(p, left)
  {
    var n := FragmentSize(p, left);
    Fragment(Kind(begin, n == |left|), left[..n])
  }

  /** What is left, laid out after what is there, completes the goal. */
  ghost predicate ToWrite(dest: bytes, left: bytes, begin: bool, goal: bytes)
  {
    var fs := FragmentsOf(|dest|, left, begin);
    Fits(|dest|, fs) && dest + Lay(|dest|, fs) == goal
  }

  lemma {:induction false} Written(was: bytes, left: bytes, begin: bool, goal: bytes, now: bytes)
    requires ToWrite(was, left, begin, goal)
    requires var p, f := |was|, FirstFragment(|was|, left, begin);
             now == was + Zeros(Align(p) - p) + Emit(f) && |now| == EndOf(p, f)
    ensures var n := FragmentSize(|was|, left);
            && (n == |left| ==> now == goal)
            && (n < |left| ==> ToWrite(now, left[n..], false, goal))
            && (n == 0 < |left| ==> Room(|was|) == 0 && Room(|now|) != 0)
  {
    hide Fits, Lay, FragmentsOf, Emit, Zeros, EndOf, Room, Align, Kind;
    var p, n, f := |was|, FragmentSize(|was|, left), FirstFragment(|was|, left, begin);
    NoRoom(p, left, begin);
    LayStep(p, left, begin, n);
    var pad, e := Zeros(Align(p) - p), Emit(f);
    if n < |left| {
      var rest := Lay(EndOf(p, f), FragmentsOf(EndOf(p, f), left[n..], false));
      assert was + (pad + e + rest) == was + pad + e + rest;
    } else {
      assert was + (pad + e) == was + pad + e;
    }
  }

  lemma {:induction false} NoRoom(p: nat, left: bytes, begin: bool)
    ensures FragmentSize(p, left) == 0 < |left| ==> Room(p) == 0 && Room(EndOf(p, FirstFragment(p, left, begin))) != 0
  {
    if FragmentSize(p, left) == 0 < |left| {
      RoomAgain(p);
    }
  }

  lemma {:induction false} OffsetInBlock(n: nat, offset: nat)
    requires offset <= BLOCK && offset <= n && (n - offset) % BLOCK == 0
    ensures n % BLOCK == offset % BLOCK
    ensures BLOCK - offset < HEADER ==> Align(n) - n == BLOCK - offset && Align(n) % BLOCK == 0
    ensures BLOCK - offset >= HEADER ==> Align(n) == n && offset == n % BLOCK
  {
  }

  /** The layout of what is left: padding, one fragment, and the layout of the rest. */
  lemma {:induction false} LayStep(p: nat, left: bytes, begin: bool, n: nat)
    requires n == if |left| < Room(p) then |left| else Room(p)
    requires Fits(p, FragmentsOf(p, left, begin))
    ensures var f := Fragment(Kind(begin, n == |left|), left[..n]);
            if n == |left| then Lay(p, FragmentsOf(p, left, begin)) == Zeros(Align(p) - p) + Emit(f)
            else
              var rest := FragmentsOf(EndOf(p, f), left[n..], false);
              Fits(EndOf(p, f), rest)
                  && Lay(p, FragmentsOf(p, left, begin)) == Zeros(Align(p) - p) + Emit(f) + Lay(EndOf(p, f), rest)
  {
    hide Room, EndOf, Emit, Zeros, Align;
    var f := Fragment(Kind(begin, n == |left|), left[..n]);
    if n < |left| {
      var rest := FragmentsOf(EndOf(p, f), left[n..], false);
      assert FragmentsOf(p, left, begin) == [f] + rest;
      assert ([f] + rest)[1..] == rest;
    } else {
      assert FragmentsOf(p, left, begin) == [f];
    }
  }

  // ----- the reader

  const END_OF_FILE: int := 5
  const BAD_RECORD: int := 6

  function BlockEnd(b: nat): nat
  {
    b - b % BLOCK + BLOCK
  }

  /** The file is what some fragments leave when it is cut off anywhere. */
  ghost predicate TornFrom(file: bytes, frags: seq<Fragment>)
  {
    && Fits(0, frags) && |file| <= |Lay(0, frags)| && file == Lay(0, frags)[..|file|]
    && forall i :: 0 <= i < |frags| ==> frags[i].kind != 0
  }

  /** Fragment `i` was written completely before the cut. */
  ghost predicate Contained(file: bytes, frags: seq<Fragment>, i: nat)
  {
    i < |frags| && EndAll(0, frags[..i + 1]) <= |file|
  }

  /** The payload length that a header states. */
  function StatedLength(header: bytes): nat
    requires |header| >= HEADER
  {
    var low: int, high: int := header[4], header[5];
    low + 256 * high
  }

  /** A reader buffering `file[b..e]` has consumed the first `i` fragments. */
  ghost predicate Consumed(file: bytes, frags: seq<Fragment>, i: nat, b: nat, e: nat, eof: bool)
  {
    && TornFrom(file, frags) && i <= |frags| && b <= e <= |file| && e <= BlockEnd(b)
    && EndAll(0, frags[..i]) <= b && Align(b) == Align(EndAll(0, frags[..i]))
    && (if eof then e == |file| else e % BLOCK == 0)
  }

  /** With less than a header left in the block, the next block starts where the next
      fragment does. */
  lemma {:induction false} NextBlock(file: bytes, frags: seq<Fragment>, i: nat, b: nat, e: nat, n: nat)
    requires Consumed(file, frags, i, b, e, false) && e - b < HEADER && n <= BLOCK && e + n <= |file|
    requires (n < BLOCK ==> e + n == |file|)
    ensures Consumed(file, frags, i, e, e + n, n < BLOCK)
  {
    hide TornFrom, EndAll;
    NextBlockStart(b, e);
  }

  lemma {:induction false} NextBlockStart(b: nat, e: nat)
    requires b <= e <= BlockEnd(b) && e % BLOCK == 0 && e - b < HEADER
    ensures Align(b) == e == Align(e) && BlockEnd(e) == e + BLOCK
  {
  }

  lemma {:induction false} NothingMore(file: bytes, frags: seq<Fragment>, i: nat, b: nat, e: nat)
    requires Consumed(file, frags, i, b, e, true) && e - b < HEADER
    ensures !Contained(file, frags, i)
  {
    if i < |frags| {
      EndOfPrefix(0, frags, i);
    }
  }

  /** A full header in the buffer is the next fragment's. */
  lemma {:induction false} HeaderFound(file: bytes, frags: seq<Fragment>, i: nat, b: nat, e: nat, eof: bool)
    requires Consumed(file, frags, i, b, e, eof) && e - b >= HEADER
    ensures i < |frags| && b == Align(EndAll(0, frags[..i])) && |frags[i].payload| < 65536
    ensures EndAll(0, frags[..i + 1]) == b + HEADER + |frags[i].payload| <= BlockEnd(b)
    ensures file[b..b + HEADER] == Header(frags[i])
    ensures b + HEADER + |frags[i].payload| <= |file| ==> file[b..b + HEADER + |frags[i].payload|] == Emit(frags[i])
  {
    hide Fits, Lay, EndAll, Align, Room, BlockEnd, Header;
    LaySize(0, frags);
    assert frags[..|frags|] == frags;
    AlignedInBlock(b, e);
    var q := EndAll(0, frags[..i]);
    LayAt(0, frags, i);
    EndOfPrefix(0, frags, i);
    RoomInBlock(q);
    var x, whole := b + HEADER + |frags[i].payload|, Lay(0, frags);
    assert whole[b..x] == Emit(frags[i]);
    assert file[b..b + HEADER] == whole[b..x][..HEADER];
    if x <= |file| {
      assert file[b..x] == whole[b..x];
    }
  }

  lemma {:induction false} AlignedInBlock(b: nat, e: nat)
    requires b + HEADER <= e <= BlockEnd(b)
    ensures Align(b) == b
  {
  }

  lemma {:induction false} RoomInBlock(q: nat)
    ensures Align(q) + HEADER + Room(q) <= BlockEnd(Align(q))
  {
  }

  lemma {:induction false} HeaderStates(f: Fragment)
    requires |f.payload| < 65536
    ensures StatedLength(Header(f)) == |f.payload| && Header(f)[6] == f.kind
    ensures Header(f)[..4] == Crc32c.Stored(Checksum(f))
  {
    hide Crc32c.Stored, Checksum;
  }

  /** The checksum stored with a fragment is the one a reader computes over type and payload. */
  lemma {:induction false} ChecksumHolds(f: Fragment)
    ensures Crc32c.Loaded(Crc32c.Stored(Checksum(f))) == Crc32c.Value([f.kind] + f.payload)
  {
    hide Crc32c.Stored, Crc32c.Loaded, Crc32c.Extended;
    Crc32c.StoredRoundTrip(Checksum(f));
    Crc32c.ExtendConcat(0, [f.kind], f.payload);
  }

  lemma {:induction false} FragmentFound(file: bytes, frags: seq<Fragment>, i: nat, b: nat, e: nat, eof: bool)
    requires Consumed(file, frags, i, b, e, eof) && i < |frags| && |frags[i].payload| < 65536
    requires EndAll(0, frags[..i + 1]) == b + HEADER + |frags[i].payload| <= BlockEnd(b)
    requires b + HEADER + |frags[i].payload| <= e
    ensures Consumed(file, frags, i + 1, b + HEADER + |frags[i].payload|, e, eof)
  {
    hide TornFrom, EndAll, Align;
    BlockOfEnd(b, b + HEADER + |frags[i].payload|, e);
  }

  lemma {:induction false} BlockOfEnd(b: nat, x: nat, e: nat)
    requires b <= x <= e <= BlockEnd(b)
    ensures e <= BlockEnd(x)
  {
  }

  /** The bytes at `p` are a fragment with its own length and checksum. */
  ghost predicate IntactAt(file: bytes, p: nat, f: Fragment)
  {
    var n := |f.payload|;
    && p + HEADER + n <= |file|
    && file[p + HEADER..p + HEADER + n] == f.payload && file[p + 6] == f.kind
    && file[p + 4] as int + 256 * (file[p + 5] as int) == n
    && Crc32c.Value(file[p + 6..p + HEADER + n]) == Crc32c.Loaded(file[p..p + 4])
  }

  /** The fragment read is an intact one that ends where reading goes on. */
  ghost predicate NextIntact(file: bytes, lo: nat, hi: nat, kind: int, fragment: bytes)
  {
    && 0 <= kind < 256
    && exists p :: lo <= p && p + HEADER + |fragment| == hi && IntactAt(file, p, Fragment(kind, fragment))
  }

  lemma {:induction false} IntactInFile(file: bytes, b: nat, e: nat, buffer: bytes)
    requires b <= e <= |file| && buffer == file[b..e] && |buffer| >= HEADER
    requires var n := StatedLength(buffer);
             HEADER + n <= |buffer| && Crc32c.Value(buffer[6..HEADER + n]) == Crc32c.Loaded(buffer[..4])
    ensures var n := StatedLength(buffer);
            IntactAt(file, b, Fragment(buffer[6], buffer[HEADER..HEADER + n]))
  {
    hide Crc32c.Value, Crc32c.Loaded;
    var n := StatedLength(buffer);
    assert file[b + HEADER..b + HEADER + n] == buffer[HEADER..HEADER + n];
    assert file[b + 6..b + HEADER + n] == buffer[6..HEADER + n] && file[b..b + 4] == buffer[..4];
  }

  /** Intact fragments at ascending places, one after the other. */
  ghost predicate Found(file: bytes, ps: seq<nat>, fs: seq<Fragment>, lo: nat, hi: nat)
  {
    && |ps| == |fs|
    && (forall k :: 0 <= k < |fs| ==>
          lo <= ps[k] && ps[k] + HEADER + |fs[k].payload| <= hi && IntactAt(file, ps[k], fs[k]))
    && (forall j, k :: 0 <= j < k < |fs| ==> ps[j] + HEADER + |fs[j].payload| <= ps[k])
  }

  /** The record is spelled by intact fragments of the file: one that is marked whole, or a first, any number of
      middle ones and a last. */
  ghost predicate Authentic(file: bytes, lo: nat, hi: nat, record: bytes)
  {
    exists ps, fs :: Found(file, ps, fs, lo, hi) && Spells(fs, record, true)
  }

  ghost predicate Begun(file: bytes, lo: nat, hi: nat, scratch: bytes)
  {
    exists ps, fs :: Found(file, ps, fs, lo, hi) && Opens(fs, scratch)
  }

  ghost predicate Opens(fs: seq<Fragment>, scratch: bytes)
  {
    && |fs| > 0 && fs[0].kind == FIRST && (forall k :: 0 < k < |fs| ==> fs[k].kind == MIDDLE) && Joined(fs) == scratch
  }

  lemma {:induction false} FoundMore(file: bytes, ps: seq<nat>, fs: seq<Fragment>, lo: nat, mid: nat, hi: nat, p: nat,
                                     f: Fragment)
    requires Found(file, ps, fs, lo, mid) && lo <= mid <= p && p + HEADER + |f.payload| <= hi && IntactAt(file, p, f)
    ensures Found(file, ps + [p], fs + [f], lo, hi)
  {
    hide IntactAt;
  }

  lemma {:induction false} JoinedOne(f: Fragment)
    ensures Joined([f]) == f.payload
  {
    assert [f][1..] == [] && f.payload + [] == f.payload;
  }

  /** A fragment that starts a record. */
  lemma {:induction false} StartsOne(file: bytes, lo: nat, mid: nat, hi: nat, kind: int, fragment: bytes)
    requires lo <= mid <= hi && NextIntact(file, mid, hi, kind, fragment)
    ensures kind == FULL ==> Authentic(file, lo, hi, fragment)
    ensures kind == FIRST ==> Begun(file, lo, hi, fragment)
  {
    hide IntactAt, Found, Spells, Opens;
    var p :| mid <= p && p + HEADER + |fragment| == hi && IntactAt(file, p, Fragment(kind, fragment));
    FoundFirst(file, lo, hi, p, Fragment(kind, fragment));
  }

  lemma {:induction false} FoundFirst(file: bytes, lo: nat, hi: nat, p: nat, f: Fragment)
    requires lo <= p && p + HEADER + |f.payload| <= hi && IntactAt(file, p, f)
    ensures Found(file, [p], [f], lo, hi)
    ensures f.kind == FULL ==> Spells([f], f.payload, true)
    ensures f.kind == FIRST ==> Opens([f], f.payload)
  {
    hide IntactAt;
    JoinedOne(f);
  }

  /** A fragment that continues one. */
  lemma {:induction false} GrowsOne(file: bytes, lo: nat, mid: nat, hi: nat, kind: int, fragment: bytes, scratch: bytes)
    requires lo <= mid <= hi && Begun(file, lo, mid, scratch) && NextIntact(file, mid, hi, kind, fragment)
    ensures kind == MIDDLE ==> Begun(file, lo, hi, scratch + fragment)
    ensures kind == LAST ==> Authentic(file, lo, hi, scratch + fragment)
  {
    hide IntactAt, Found, Opens, Spells;
    var p :| mid <= p && p + HEADER + |fragment| == hi && IntactAt(file, p, Fragment(kind, fragment));
    var f := Fragment(kind, fragment);
    var ps: seq<nat>, fs :| Found(file, ps, fs, lo, mid) && Opens(fs, scratch);
    FoundMore(file, ps, fs, lo, mid, hi, p, f);
    OpensMore(fs, scratch, f);
    assert Found(file, ps + [p], fs + [f], lo, hi);
  }

  lemma {:induction false} OpensMore(fs: seq<Fragment>, scratch: bytes, f: Fragment)
    requires Opens(fs, scratch)
    ensures f.kind == MIDDLE ==> Opens(fs + [f], scratch + f.payload)
    ensures f.kind == LAST ==> Spells(fs + [f], scratch + f.payload, true)
  {
    JoinedSnoc(fs, f);
  }

  /** What comes out of a fragment: a record, or a record begun. */
  lemma {:induction false} DispatchAuthentic(file: bytes, lo: nat, mid: nat, hi: nat, kind: int, fragment: bytes,
                                             scratch: bytes, inFragmented: bool)
    requires lo <= mid <= hi && (inFragmented ==> Begun(file, lo, mid, scratch))
    requires kind != END_OF_FILE && kind != BAD_RECORD ==> NextIntact(file, mid, hi, kind, fragment)
    ensures match Dispatch(kind, fragment, scratch, inFragmented)
            case Return(r, _) => Authentic(file, lo, hi, r)
            case Stop => true
            case Continue(s, g, _) => g ==> Begun(file, lo, hi, s)
  {
    hide NextIntact, Authentic, Begun;
    if kind == FULL || kind == FIRST {
      StartsOne(file, lo, mid, hi, kind, fragment);
    } else if inFragmented && (kind == MIDDLE || kind == LAST) {
      GrowsOne(file, lo, mid, hi, kind, fragment, scratch);
    }
  }

  class Reader {
    const file: bytes
    const checksum: bool
    var filePos: nat
    var buffer: bytes
    var eof: bool
    var reports: nat      // corruptions reported so far

    ghost predicate Valid()
      reads this
    {
      filePos <= |file| && |buffer| <= filePos && buffer == file[filePos - |buffer|..filePos]
    }

    /** Where the unread bytes start. */
    function Start(): nat
      requires |buffer| <= filePos
      reads this
    {
      filePos - |buffer|
    }

    ghost predicate Reading(frags: seq<Fragment>, i: nat)
      reads this
    {
      Valid() && Consumed(file, frags, i, Start(), filePos, eof)
    }

    constructor (file: bytes, checksum: bool)
      ensures this.file == file && this.checksum == checksum && Valid() && reports == 0
      ensures forall frags :: TornFrom(file, frags) ==> Reading(frags, 0)
    {
      this.file, this.checksum := file, checksum;
      filePos, buffer, eof, reports := 0, [], false, 0;
      new;
      forall frags | TornFrom(file, frags) ensures Reading(frags, 0) { assert frags[..0] == []; }
    }

    /** Up to one block more of the file. */
    method ReadBlock()
      requires Valid()
      modifies this
      ensures Valid() && reports == old(reports) && |buffer| <= BLOCK && Start() == old(filePos)
      ensures filePos == old(filePos) + |buffer|
      ensures eof == (|buffer| < BLOCK) && (eof ==> filePos == |file|)
    {
      var n := if |file| - filePos < BLOCK then |file| - filePos else BLOCK;
      buffer := file[filePos..filePos + n];
      filePos := filePos + n;
      eof := n < BLOCK;
    }

    /** What a reader of torn fragments gets: the next complete one, or the end of the file. */
    ghost predicate Got(frags: seq<Fragment>, i: nat, kind: int, fragment: bytes)
      reads this
    {
      if Contained(file, frags, i) then kind == frags[i].kind && fragment == frags[i].payload && Reading(frags, i + 1)
      else kind == END_OF_FILE
    }

    method ReadPhysicalRecord(ghost frags: seq<Fragment>, ghost i: nat) returns (kind: int, fragment: bytes)
      requires Valid()
      modifies this
      ensures Valid() && (kind != END_OF_FILE ==> Start() > old(Start()))
      ensures checksum && kind != END_OF_FILE && kind != BAD_RECORD ==>
                NextIntact(file, old(Start()), Start(), kind, fragment)
      ensures old(Reading(frags, i)) ==> reports == old(reports) && Got(frags, i, kind, fragment)
    {
      fragment := [];
      hide Consumed, Contained;
      while |buffer| < HEADER
        invariant Valid() && reports == old(reports) && Start() >= old(Start())
        invariant (old(Reading(frags, i)) ==> Reading(frags, i))
        decreases |file| - filePos, if eof then 0 else 1
      {
        if !eof {
          ghost var b, e := Start(), filePos;
          ReadBlock();
          if old(Reading(frags, i)) { NextBlock(file, frags, i, b, e, |buffer|); }
        } else {
          if old(Reading(frags, i)) { NothingMore(file, frags, i, Start(), filePos); }
          buffer := [];
          kind := END_OF_FILE;
          return;
        }
      }
      kind, fragment := TakeRecord(frags, i);
    }

    /** The record whose header starts the buffer. */
    method TakeRecord(ghost frags: seq<Fragment>, ghost i: nat) returns (kind: int, fragment: bytes)
      requires Valid() && |buffer| >= HEADER
      modifies this
      ensures Valid() && (kind != END_OF_FILE ==> Start() > old(Start()))
      ensures checksum && kind != END_OF_FILE && kind != BAD_RECORD ==>
                NextIntact(file, old(Start()), Start(), kind, fragment)
      ensures old(Reading(frags, i)) ==> reports == old(reports) && Got(frags, i, kind, fragment)
    {
      hide Consumed, Contained, StatedLength, Crc32c.Loaded, Crc32c.Value;
      fragment := [];
      ghost var stream := Reading(frags, i);
      var length := StatedLength(buffer);
      if stream { HeaderInBuffer(file, frags, i, Start(), filePos, eof, buffer); }
      if HEADER + length > |buffer| {
        buffer := [];
        if !eof {
          reports := reports + 1;
          kind := BAD_RECORD;
          return;
        }
        kind := END_OF_FILE;
        return;
      }
      kind := buffer[6];
      if kind == 0 && length == 0 {
        buffer := [];
        kind := BAD_RECORD;
        return;
      }
      if checksum {
        if Crc32c.Value(buffer[6..HEADER + length]) != Crc32c.Loaded(buffer[..4]) {
          buffer := [];
          reports := reports + 1;
          kind := BAD_RECORD;
          return;
        }
      }
      if checksum { IntactInFile(file, Start(), filePos, buffer); }
      fragment := buffer[HEADER..HEADER + length];
      buffer := buffer[HEADER + length..];
    }

    /** The next record of torn fragments is returned exactly if it was written completely;
        otherwise the reader ends, and reports nothing either way. */
    method ReadRecord(ghost frags: seq<Fragment>, ghost lo: nat, ghost hi: nat, ghost data: bytes)
      returns (found: bool, record: bytes)
      requires Valid()
      modifies this
      ensures Valid() && (found ==> Start() > old(Start()))
      ensures checksum && found ==> Authentic(file, old(Start()), Start(), record)
      ensures old(Reading(frags, lo)) && RecordAt(frags, lo, hi, data) ==>
                reports == old(reports) && if EndAll(0, frags[..hi]) <= |file| then found && record == data
                    && Reading(frags, hi) else !found
      ensures old(Reading(frags, lo)) && lo == |frags| ==> reports == old(reports) && !found
    {
      hide Consumed, Contained, EndAll, TornFrom, Assembling, Dispatch, RecordAt, Authentic, Begun, NextIntact;
      var scratch, inFragmented := [], false;
      ghost var i, stream := lo, Reading(frags, lo) && (RecordAt(frags, lo, hi, data) || lo == |frags|);
      if stream {
        ConsumedIsTorn(file, frags, lo, Start(), filePos, eof);
        AssemblyStart(frags, lo, hi, data);
      }
      while true
        invariant Valid() && Start() >= old(Start())
        invariant checksum && inFragmented ==> Begun(file, old(Start()), Start(), scratch)
        invariant stream ==>
                  reports == old(reports) && Reading(frags, i)
                      && Assembling(frags, lo, hi, data, i, scratch, inFragmented)
        decreases |file| - Start()
      {
        ghost var mid := Start();
        var kind, fragment := ReadPhysicalRecord(frags, i);
        if checksum && kind != END_OF_FILE {
          DispatchAuthentic(file, old(Start()), mid, Start(), kind, fragment, scratch, inFragmented);
        }
        if stream {
          DispatchOne(file, frags, lo, hi, data, i, scratch, inFragmented, kind, fragment);
          i := i + 1;
        }
        DispatchEnds(kind, fragment, scratch, inFragmented);
        match Dispatch(kind, fragment, scratch, inFragmented)
        case Return(r, reported) =>
          reports := reports + if reported then 1 else 0;
          return true, r;
        case Stop =>
          return false, [];
        case Continue(s, f, reported) =>
          reports := reports + if reported then 1 else 0;
          scratch, inFragmented := s, f;
      }
    }
  }

  /** What `ReadRecord` does with a fragment: return a record, stop, or go on; and whether it
      reports a corruption. */
  datatype Outcome = Return(record: bytes, reported: bool) | Stop | Continue(scratch: bytes, inFragmented: bool,
      reported: bool)

  function Dispatch(kind: int, fragment: bytes, scratch: bytes, inFragmented: bool): Outcome
  {
    if kind == FULL then Return(fragment, inFragmented && scratch != [])
    else if kind == FIRST then Continue(fragment, true, inFragmented && scratch != [])
    else if kind == MIDDLE then
      if inFragmented then Continue(scratch + fragment, true, false) else Continue(scratch, false, true)
    else if kind == LAST then
      if inFragmented then Return(scratch + fragment, false) else Continue(scratch, false, true)
    else if kind == END_OF_FILE then Stop
    else if kind == BAD_RECORD then
      if inFragmented then Continue([], false, true) else Continue(scratch, false, false)
    else Continue([], false, true)
  }

  lemma {:induction false} DispatchEnds(kind: int, fragment: bytes, scratch: bytes, inFragmented: bool)
    ensures Dispatch(kind, fragment, scratch, inFragmented).Stop? <==> kind == END_OF_FILE
  {
  }

  // ----- putting records together

  ghost predicate RecordAt(frags: seq<Fragment>, lo: nat, hi: nat, data: bytes)
  {
    lo < hi <= |frags| && Spells(frags[lo..hi], data, true)
  }

  /** Fragments `lo` up to `i` of the record have been read. */
  ghost predicate Assembling(frags: seq<Fragment>, lo: nat, hi: nat, data: bytes, i: nat, scratch: bytes,
                             inFragmented: bool)
  {
    if lo == |frags| then i == lo
    else RecordAt(frags, lo, hi, data) && lo <= i < hi && inFragmented == (i > lo) && scratch == Joined(frags[lo..i])
  }

  lemma {:induction false} ConsumedIsTorn(file: bytes, frags: seq<Fragment>, i: nat, b: nat, e: nat, eof: bool)
    requires Consumed(file, frags, i, b, e, eof)
    ensures TornFrom(file, frags)
  {
  }

  lemma {:induction false} AssemblyStart(frags: seq<Fragment>, lo: nat, hi: nat, data: bytes)
    requires RecordAt(frags, lo, hi, data) || lo == |frags|
    ensures Assembling(frags, lo, hi, data, lo, [], false)
  {
    if lo < |frags| {
      assert frags[lo..lo] == [];
    }
  }

  lemma {:induction false} JoinedSnoc(fs: seq<Fragment>, f: Fragment)
    ensures Joined(fs + [f]) == Joined(fs) + f.payload
  {
    if fs == [] {
      assert [f][1..] == [] && fs + [f] == [f];
    } else {
      assert (fs + [f])[1..] == fs[1..] + [f];
      JoinedSnoc(fs[1..], f);
    }
  }

  lemma {:induction false} EndAllMonotone(frags: seq<Fragment>, i: nat, j: nat)
    requires Fits(0, frags) && i <= j <= |frags|
    ensures EndAll(0, frags[..i]) <= EndAll(0, frags[..j])
    decreases j
  {
    if i < j {
      EndOfPrefix(0, frags, j - 1);
      EndAllMonotone(frags, i, j - 1);
    }
  }

  /** Reading one more fragment of torn fragments: the record is finished, or goes on, or the
      file ends before the record does; nothing is reported. */
  lemma {:induction false} DispatchOne(file: bytes, frags: seq<Fragment>, lo: nat, hi: nat, data: bytes, i: nat,
                                       scratch: bytes, inFragmented: bool,
                                       kind: int, fragment: bytes)
    requires Assembling(frags, lo, hi, data, i, scratch, inFragmented) && TornFrom(file, frags)
    requires if Contained(file, frags, i) then kind == frags[i].kind && fragment == frags[i].payload
             else kind == END_OF_FILE
    ensures match Dispatch(kind, fragment, scratch, inFragmented)
            case Stop =>
              !Contained(file, frags, i) && (RecordAt(frags, lo, hi, data) ==> EndAll(0, frags[..hi]) > |file|)
            case Return(r, reported) =>
              && Contained(file, frags, i) && lo < |frags| && !reported
              && i + 1 == hi && r == data && EndAll(0, frags[..hi]) <= |file|
            case Continue(s, f, reported) =>
              && Contained(file, frags, i) && lo < |frags| && !reported
              && Assembling(frags, lo, hi, data, i + 1, s, f)
  {
    hide Fits, Lay, EndAll;
    if lo < |frags| {
      EndAllMonotone(frags, i + 1, hi);
      var fs := frags[lo..hi];
      assert fs[i - lo] == frags[i];
      assert frags[lo..i + 1] == frags[lo..i] + [frags[i]];
      JoinedSnoc(frags[lo..i], frags[i]);
      if i == lo {
        assert frags[lo..i] == [] && [] + frags[i].payload == frags[i].payload;
      }
    }
  }

  lemma {:induction false} IntactFragment(buffer: bytes, f: Fragment)
    requires |f.payload| < 65536 && HEADER + |f.payload| <= |buffer| && buffer[..HEADER + |f.payload|] == Emit(f)
    ensures var n := |f.payload|;
            && buffer[6] == f.kind && buffer[HEADER..HEADER + n] == f.payload
            && Crc32c.Value(buffer[6..HEADER + n]) == Crc32c.Loaded(buffer[..4])
  {
    hide Crc32c.Value, Crc32c.Loaded, Crc32c.Stored, Checksum, Header;
    HeaderStates(f);
    var n, e := |f.payload|, buffer[..HEADER + |f.payload|];
    assert e == Header(f) + f.payload;
    assert buffer[HEADER..HEADER + n] == e[HEADER..] == f.payload;
    assert buffer[6] == e[6] == Header(f)[6];
    assert buffer[6..HEADER + n] == [f.kind] + f.payload;
    assert buffer[..4] == e[..4] == Header(f)[..4];
    ChecksumHolds(f);
  }

  /** A header in the buffer is the next fragment's; if that fragment was cut off, this is the
      end of the file; otherwise it is intact. */
  lemma {:induction false} HeaderInBuffer(file: bytes, frags: seq<Fragment>, i: nat, b: nat, e: nat, eof: bool,
                                          buffer: bytes)
    requires Consumed(file, frags, i, b, e, eof) && e - b >= HEADER && e <= |file| && buffer == file[b..e]
    ensures var n := StatedLength(buffer);
            if HEADER + n > |buffer| then eof && !Contained(file, frags, i)
            else
              && Contained(file, frags, i) && buffer[6] == frags[i].kind != 0
                 && buffer[HEADER..HEADER + n] == frags[i].payload
              && Consumed(file, frags, i + 1, b + HEADER + n, e, eof)
              && Crc32c.Value(buffer[6..HEADER + n]) == Crc32c.Loaded(buffer[..4])
  {
    hide Crc32c.Value, Crc32c.Loaded, Fits, Lay, EndAll, Align, Header, Emit;
    HeaderFound(file, frags, i, b, e, eof);
    HeaderStates(frags[i]);
    assert buffer[..HEADER] == file[b..b + HEADER];
    var n := |frags[i].payload|;
    LengthInBuffer(buffer, frags[i]);
    if HEADER + n <= |buffer| {
      FragmentFound(file, frags, i, b, e, eof);
      assert buffer[..HEADER + n] == file[b..b + HEADER + n];
      IntactFragment(buffer, frags[i]);
    }
  }

  lemma {:induction false} LengthInBuffer(buffer: bytes, f: Fragment)
    requires |f.payload| < 65536 && |buffer| >= HEADER && buffer[..HEADER] == Header(f)
    ensures StatedLength(buffer) == |f.payload|
  {
    hide Header;
    HeaderStates(f);
    var h := buffer[..HEADER];
    assert buffer[4] == h[4] && buffer[5] == h[5];
  }

  // ----- whole logs

  function AllFragments(records: seq<bytes>): seq<Fragment>
  {
    if records == [] then []
    else
      var before := AllFragments(records[..|records| - 1]);
      before + FragmentsOf(EndAll(0, before), records[|records| - 1], true)
  }

  lemma {:induction false} AllFit(records: seq<bytes>)
    ensures Fits(0, AllFragments(records))
  {
    if records != [] {
      var before := AllFragments(records[..|records| - 1]);
      AllFit(records[..|records| - 1]);
      FragmentsFit(EndAll(0, before), records[|records| - 1], true);
      FitsConcat(0, before, FragmentsOf(EndAll(0, before), records[|records| - 1], true));
    }
  }

  /** The bytes of a log that holds some records. */
  ghost function Encoded(records: seq<bytes>): bytes
  {
    AllFit(records);
    Lay(0, AllFragments(records))
  }

  lemma {:induction false} EncodedSnoc(records: seq<bytes>, r: bytes)
    ensures var n := |Encoded(records)|;
            && n == EndAll(0, AllFragments(records))
            && Fits(n, FragmentsOf(n, r, true))
               && Encoded(records + [r]) == Encoded(records) + Lay(n, FragmentsOf(n, r, true))
  {
    var all := records + [r];
    assert all[..|all| - 1] == records;
    AllFit(records);
    AllFit(all);
    var before := AllFragments(records);
    LaySize(0, before);
    FragmentsFit(EndAll(0, before), r, true);
    hide Fits, Lay, FragmentsOf, EndAll;
    LayConcat(0, before, FragmentsOf(EndAll(0, before), r, true));
  }

  lemma {:induction false} EncodedSize(records: seq<bytes>)
    ensures |Encoded(records)| == EndAll(0, AllFragments(records))
  {
    AllFit(records);
    LaySize(0, AllFragments(records));
  }

  lemma {:induction false} EncodedLonger(records: seq<bytes>, r: bytes)
    ensures |Encoded(records)| <= |Encoded(records + [r])|
  {
    hide Encoded, Lay, Fits, FragmentsOf, AllFragments, EndAll;
    EncodedSnoc(records, r);
  }

  method WriteLog(records: seq<bytes>) returns (file: bytes)
    ensures file == Encoded(records)
  {
    hide Encoded, Fits, Lay, FragmentsOf;
    var writer := new Writer();
    EncodedNone();
    assert records[..0] == [];
    for i := 0 to |records|
      invariant writer.Valid() && writer.dest == Encoded(records[..i])
    {
      EncodedSnoc(records[..i], records[i]);
      assert records[..i + 1] == records[..i] + [records[i]];
      writer.AddRecord(records[i]);
    }
    assert records[..|records|] == records;
    file := writer.dest;
  }

  lemma {:induction false} EncodedNone()
    ensures Encoded([]) == []
  {
  }

  lemma {:induction false} AllFragmentsSplit(records: seq<bytes>, j: nat)
    requires j <= |records|
    ensures AllFragments(records[..j]) <= AllFragments(records)
    decreases |records|
  {
    if j < |records| {
      var k := |records| - 1;
      AllFragmentsSplit(records[..k], j);
      assert records[..k][..j] == records[..j];
    } else {
      assert records[..j] == records;
    }
  }

  /** Record `j` is spelled by the fragments between those of the first `j` and the first
      `j + 1` records. */
  lemma {:induction false} RecordPlace(records: seq<bytes>, j: nat)
    requires j < |records|
    ensures var frags, lo, hi := AllFragments(records), |AllFragments(records[..j])|, |AllFragments(records[..j + 1])|;
            RecordAt(frags, lo, hi, records[j]) && frags[..lo] == AllFragments(records[..j])
                && frags[..hi] == AllFragments(records[..j + 1])
  {
    AllFragmentsSplit(records, j);
    AllFragmentsSplit(records, j + 1);
    var before := AllFragments(records[..j]);
    assert records[..j + 1][..j] == records[..j];
    var fs := FragmentsOf(EndAll(0, before), records[j], true);
    FragmentsSpell(EndAll(0, before), records[j], true);
    assert AllFragments(records[..j + 1]) == before + fs;
    hide FragmentsOf, Spells, EndAll;
    var frags := AllFragments(records);
    assert frags[|before|..|before| + |fs|] == fs;
  }

  /** How many fragments the first `j` records take. */
  ghost function Mark(records: seq<bytes>, j: nat): nat
    requires j <= |records|
  {
    |AllFragments(records[..j])|
  }

  lemma {:induction false} NextPlace(records: seq<bytes>, j: nat, frags: seq<Fragment>) returns (hi: nat, data: bytes)
    requires j <= |records| && frags == AllFragments(records)
    ensures j == |records| ==> Mark(records, j) == |frags|
    ensures j < |records| ==>
              && hi == Mark(records, j + 1) <= |frags| && data == records[j]
                 && RecordAt(frags, Mark(records, j), hi, data)
              && EndAll(0, frags[..hi]) == |Encoded(records[..j + 1])| && records[..j + 1] == records[..j] + [data]
  {
    hide AllFragments, Encoded, EndAll, Spells, Lay, FragmentsOf, Fits;
    if j < |records| {
      RecordPlace(records, j);
      EncodedSize(records[..j + 1]);
      hi, data := Mark(records, j + 1), records[j];
    } else {
      assert records[..j] == records;
      hi, data := 0, [];
    }
  }

  lemma {:induction false} EncodedTorn(records: seq<bytes>, n: nat)
    requires n <= |Encoded(records)|
    ensures TornFrom(Encoded(records)[..n], AllFragments(records))
  {
    AllFit(records);
    KindsNonzero(records);
  }

  lemma {:induction false} KindsNonzero(records: seq<bytes>)
    ensures forall i :: 0 <= i < |AllFragments(records)| ==> AllFragments(records)[i].kind != 0
  {
    if records != [] {
      var before, r := AllFragments(records[..|records| - 1]), records[|records| - 1];
      KindsNonzero(records[..|records| - 1]);
      FragmentsSpell(EndAll(0, before), r, true);
    }
  }

  lemma {:induction false} EncodedGrows(records: seq<bytes>, i: nat, j: nat)
    requires i <= j <= |records|
    ensures |Encoded(records[..i])| <= |Encoded(records[..j])|
    decreases j
  {
    hide Encoded;
    if i < j {
      EncodedLonger(records[..j - 1], records[j - 1]);
      assert records[..j] == records[..j - 1] + [records[j - 1]];
      EncodedGrows(records, i, j - 1);
    }
  }

  ghost predicate Whole(file: bytes, records: seq<bytes>, j: nat)
  {
    j <= |records| && |Encoded(records[..j])| <= |file|
  }

  lemma {:induction false} LogStart(file: bytes, records: seq<bytes>)
    requires |file| <= |Encoded(records)| && file == Encoded(records)[..|file|]
    ensures TornFrom(file, AllFragments(records)) && Mark(records, 0) == 0 && Whole(file, records, 0)
  {
    hide Encoded, TornFrom, AllFragments;
    EncodedTorn(records, |file|);
    assert records[..0] == [];
    EncodedNone();
    NoFragments();
  }

  lemma {:induction false} NoFragments()
    ensures AllFragments([]) == []
  {
  }

  method ReadNext(reader: Reader, ghost records: seq<bytes>, ghost j: nat) returns (found: bool, record: bytes)
    requires j <= |records| && reader.Valid() && reader.Reading(AllFragments(records), Mark(records, j))
    modifies reader
    ensures reader.Valid() && reader.reports == old(reader.reports) && (found ==> reader.Start() > old(reader.Start()))
    ensures found <==> j < |records| && Whole(reader.file, records, j + 1)
    ensures found ==> record == records[j] && reader.Reading(AllFragments(records), Mark(records, j + 1))
  {
    hide Encoded, TornFrom, RecordAt, Consumed, AllFragments, EndAll, Mark;
    ghost var frags := AllFragments(records);
    ghost var hi, data := NextPlace(records, j, frags);
    found, record := reader.ReadRecord(frags, Mark(records, j), hi, data);
  }

  /** Reading a log cut off anywhere gives exactly the records whose bytes are all there, in
      order, and reports no corruption. */
  method ReadLog(file: bytes, ghost records: seq<bytes>) returns (out: seq<bytes>, reports: nat)
    requires |file| <= |Encoded(records)| && file == Encoded(records)[..|file|]
    ensures reports == 0 && |out| <= |records| && out == records[..|out|]
    ensures forall j :: 0 <= j <= |records| ==> (j <= |out| <==> |Encoded(records[..j])| <= |file|)
  {
    hide Encoded, TornFrom, Consumed, AllFragments, Mark, Whole;
    LogStart(file, records);
    var reader := new Reader(file, true);
    out := [];
    while true
      invariant fresh(reader) && reader.file == file && reader.Valid() && reader.reports == 0
      invariant |out| <= |records| && out == records[..|out|] && Whole(file, records, |out|)
      invariant reader.Reading(AllFragments(records), Mark(records, |out|))
      decreases |file| - reader.Start()
    {
      var found, record := ReadNext(reader, records, |out|);
      if !found {
        break;
      }
      assert records[..|out| + 1] == records[..|out|] + [record];
      out := out + [record];
    }
    reports := reader.reports;
    Exactly(file, records, |out|);
  }

  lemma {:induction false} Exactly(file: bytes, records: seq<bytes>, m: nat)
    requires m <= |records| && Whole(file, records, m) && (m < |records| ==> !Whole(file, records, m + 1))
    ensures forall j :: 0 <= j <= |records| ==> (j <= m <==> |Encoded(records[..j])| <= |file|)
  {
    hide Encoded;
    forall j | 0 <= j <= |records|
      ensures j <= m <==> |Encoded(records[..j])| <= |file|
    {
      if j <= m { EncodedGrows(records, j, m); } else { EncodedGrows(records, m + 1, j); }
    }
  }
}
