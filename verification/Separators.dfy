/** Shortened index keys: the bytewise separator and successor, and their use for internal
    keys. */
module Separators {
  import opened Coding
  import opened Keys
  import Ordering
  import opened Wrappers

  lemma {:induction false} CompareAt(a: bytes, b: bytes, i: nat)
    requires i < |a| && i < |b| && a[..i] == b[..i] && a[i] != b[i]
    ensures Compare(a, b) < 0 <==> a[i] < b[i]
    ensures Compare(a, b) != 0
  {
    if i > 0 {
      assert a[0] == a[..i][0] == b[..i][0] == b[0];
      assert a[1..][..i - 1] == a[..i][1..] && b[1..][..i - 1] == b[..i][1..];
      CompareAt(a[1..], b[1..], i - 1);
    }
  }

  /** The two differ first at `i`, and there is a byte between. */
  ghost predicate RoomAt(start: bytes, limit: bytes, i: int)
  {
    0 <= i < |start| && i < |limit| && start[..i] == limit[..i] && start[i] as int + 1 < limit[i] as int
  }

  lemma {:induction false} RoomUnique(start: bytes, limit: bytes, i: int, j: nat)
    requires RoomAt(start, limit, i) && j <= |start| && j <= |limit| && start[..j] == limit[..j]
    requires j < |start| && j < |limit| ==> start[j] != limit[j]
    ensures i == j
  {
  }

  /** `FindShortestSeparator`: for `start` below `limit`, a key from `start` on that is still
      below `limit` and no longer than `start`. */
  method FindShortestSeparator(start: bytes, limit: bytes) returns (r: bytes)
    ensures |r| <= |start| && (start == limit ==> r == start)
    ensures Compare(start, limit) < 0 ==> Compare(start, r) <= 0 && Compare(r, limit) < 0
    ensures forall i :: RoomAt(start, limit, i) ==> r == start[..i] + [start[i] + 1]
    ensures (forall i :: !RoomAt(start, limit, i)) ==> r == start
  {
    var least := if |start| < |limit| then |start| else |limit|;
    var diff := 0;
    while diff < least && start[diff] == limit[diff]
      invariant diff <= least && start[..diff] == limit[..diff]
    {
      diff := diff + 1;
    }
    r := start;
    RankEmbedsOrder(start, start);
    if diff < least {
      var c: int := start[diff];
      if c < 0xff && c + 1 < limit[diff] {
        r := start[..diff] + [c + 1];
        CompareAt(start, r, diff);
        CompareAt(r, limit, diff);
        assert RoomAt(start, limit, diff);
      }
    }
    forall i | RoomAt(start, limit, i) ensures i == diff { RoomUnique(start, limit, i, diff); }
  }

  /** No key of at most `i` bytes lies above one that starts with `i` bytes 0xff. */
  lemma {:induction false} NothingAbove(key: bytes, i: nat, s: bytes)
    requires i <= |key| && (forall j :: 0 <= j < i ==> key[j] == 0xff) && |s| <= i
    ensures Compare(key, s) >= 0
  {
    if s != [] && s[0] == key[0] {
      NothingAbove(key[1..], i - 1, s[1..]);
    }
  }

  /** `FindShortSuccessor`: a key from `key` on, no longer than it; unless all bytes are 0xff it is above `key`, and no
      key above `key` is shorter. */
  method FindShortSuccessor(key: bytes) returns (r: bytes)
    ensures |r| <= |key| && Compare(key, r) <= 0
    ensures (forall i :: 0 <= i < |key| ==> key[i] == 0xff) ==> r == key
    ensures (exists i :: 0 <= i < |key| && key[i] != 0xff) ==>
              Compare(key, r) < 0 && forall s :: Compare(key, s) < 0 ==> |s| >= |r|
    ensures forall i :: 0 <= i < |key| && key[i] != 0xff && (forall j :: 0 <= j < i ==> key[j] == 0xff) ==>
              r == key[..i] + [key[i] + 1]
  {
    RankEmbedsOrder(key, key);
    for i := 0 to |key|
      invariant forall j :: 0 <= j < i ==> key[j] == 0xff
    {
      var c: int := key[i];
      if c != 0xff {
        r := key[..i] + [c + 1];
        CompareAt(key, r, i);
        forall s: bytes | Compare(key, s) < 0 ensures |s| >= |r| {
          if |s| <= i { NothingAbove(key, i, s); }
        }
        return;
      }
    }
    r := key;
  }

  /** An index key after the entries up to `a` and before those from `b` on: it is `a` itself,
      or its user key lies strictly between theirs. */
  ghost predicate Separates(a: Ordering.InternalKey, s: Ordering.InternalKey, b: Option<Ordering.InternalKey>)
  {
    s == a || (a.user < s.user && (b.Some? ==> s.user < b.value.user))
  }

  /** Separating internal keys is at or above the one and below the other. */
  lemma {:induction false} SeparatesInOrder(a: Ordering.InternalKey, s: Ordering.InternalKey, b: Ordering.InternalKey)
    requires Ordering.Less(a, b) && Separates(a, s, Some(b))
    ensures Ordering.AtMost(a, s) && Ordering.Less(s, b)
  {
  }

  /** The internal-key comparator's separator: only the user key is shortened, and then the
      trailer sorts before every other trailer. */
  method InternalSeparator(start: StoredKey, limit: StoredKey) returns (r: StoredKey)
    requires Ordering.Less(Abstract(start), Abstract(limit))
    ensures Separates(Abstract(start), Abstract(r), Some(Abstract(limit)))
    ensures |r.user| <= |start.user| && (start.sequence <= MAX_SEQUENCE ==> r.sequence <= MAX_SEQUENCE)
    ensures forall i :: RoomAt(start.user, limit.user, i) && i + 1 < |start.user| ==>
              r == StoredKey(start.user[..i] + [start.user[i] + 1], MAX_SEQUENCE, Ordering.Value)
    ensures (forall i :: RoomAt(start.user, limit.user, i) ==> i + 1 == |start.user|) ==> r == start
  {
    RankEmbedsOrder(start.user, limit.user);
    var tmp := FindShortestSeparator(start.user, limit.user);
    forall i | RoomAt(start.user, limit.user, i) ensures Compare(start.user, tmp) < 0 {
      CompareAt(start.user, tmp, i);
    }
    hide Compare, RoomAt;
    if |tmp| < |start.user| && Compare(start.user, tmp) < 0 {
      RankEmbedsOrder(start.user, tmp);
      RankEmbedsOrder(tmp, limit.user);
      r := StoredKey(tmp, MAX_SEQUENCE, Ordering.Value);
    } else {
      r := start;
    }
  }

  lemma {:induction false} FirstRoom(key: bytes)
    ensures (exists i :: 0 <= i < |key| - 1 && key[i] != 0xff) ==>
              exists i :: 0 <= i < |key| - 1 && key[i] != 0xff && forall j :: 0 <= j < i ==> key[j] == 0xff
  {
    if i :| 0 <= i < |key| - 1 && key[i] != 0xff {
      var k := 0;
      while key[k] == 0xff
        invariant 0 <= k <= i && forall j :: 0 <= j < k ==> key[j] == 0xff
        decreases i - k
      {
        k := k + 1;
      }
    }
  }

  method InternalSuccessor(key: StoredKey) returns (r: StoredKey)
    ensures Separates(Abstract(key), Abstract(r), None) && |r.user| <= |key.user|
    ensures key.sequence <= MAX_SEQUENCE ==> r.sequence <= MAX_SEQUENCE
    ensures r == key || (|r.user| < |key.user| && r.sequence == MAX_SEQUENCE && r.kind == Ordering.Value)
    ensures (exists i :: 0 <= i < |key.user| - 1 && key.user[i] != 0xff) ==> |r.user| < |key.user|
  {
    var tmp := FindShortSuccessor(key.user);
    FirstRoom(key.user);
    hide Compare;
    if |tmp| < |key.user| && Compare(key.user, tmp) < 0 {
      RankEmbedsOrder(key.user, tmp);
      r := StoredKey(tmp, MAX_SEQUENCE, Ordering.Value);
    } else {
      r := key;
    }
  }
}
