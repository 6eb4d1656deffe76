/** The user-facing iterator. It walks an inner iterator over all internal entries in both
    directions and shows, per user key, the newest value at or below its snapshot. */
module DbIter {
  import opened Ordering
  import opened Wrappers

  // ----- which entries are shown

  ghost predicate Seen(es: seq<Entry>, s: nat, i: nat)
    requires i < |es|
  {
    es[i].key.sequence <= s
  }

  /** The newest entry of its user key at or below the snapshot, and a value. */
  ghost predicate Shown(es: seq<Entry>, s: nat, i: nat)
    requires i < |es|
  {
    && Seen(es, s, i) && es[i].key.kind.Value?
    && forall j :: 0 <= j < i && es[j].key.user == es[i].key.user ==> !Seen(es, s, j)
  }

  /** `i` is the first shown entry from `lo` on; past the end if there is none. */
  ghost predicate FirstShown(es: seq<Entry>, s: nat, lo: nat, i: nat)
  {
    && lo <= i <= |es|
    && (i < |es| ==> Shown(es, s, i))
    && forall j :: lo <= j < i ==> !Shown(es, s, j)
  }

  /** `i` is the last shown entry below `hi`; past the end if there is none. */
  ghost predicate LastShown(es: seq<Entry>, s: nat, hi: nat, i: nat)
    requires hi <= |es|
  {
    && (i < hi || i == |es|)
    && (i < |es| ==> Shown(es, s, i) && forall j :: i < j < hi ==> !Shown(es, s, j))
    && (i == |es| ==> forall j :: 0 <= j < hi ==> !Shown(es, s, j))
  }

  /** Shown entries are exactly the keys that read as something, with what they read as. */
  lemma {:induction false} ShownIsView(es: seq<Entry>, s: nat, i: nat)
    requires Sorted(es) && UniqueSeqs(SetOf(es)) && i < |es| && Shown(es, s, i)
    ensures View(SetOf(es), es[i].key.user, s) == Some(es[i].value)
  {
    var E, e := SetOf(es), es[i];
    forall d | d in E && Visible(d, e.key.user, s)
      ensures d.key.sequence <= e.key.sequence
    {
      var j :| 0 <= j < |es| && es[j] == d;
      assert Seen(es, s, j);
    }
    assert e in E && Newest(E, e.key.user, s, e);
    ViewOfNewest(E, e.key.user, s, e);
  }

  lemma {:induction false} ViewIsShown(es: seq<Entry>, s: nat, u: UserKey) returns (i: nat)
    requires Sorted(es) && UniqueSeqs(SetOf(es)) && View(SetOf(es), u, s).Some?
    ensures i < |es| && Shown(es, s, i) && es[i].key.user == u
  {
    var E := SetOf(es);
    ViewCases(E, u, s);
    var e :| Newest(E, u, s, e) && View(E, u, s) == Reading(e);
    i :| 0 <= i < |es| && es[i] == e;
    forall j | 0 <= j < i && es[j].key.user == u
      ensures !Seen(es, s, j)
    {
      assert es[j] in E && Less(es[j].key, es[i].key);
      assert Seen(es, s, j) ==> Visible(es[j], u, s);
    }
  }

  /** Shown entries come in strictly ascending user-key order. */
  lemma {:induction false} ShownAscend(es: seq<Entry>, s: nat, i: nat, j: nat)
    requires Sorted(es) && i < j < |es| && Shown(es, s, i) && Shown(es, s, j)
    ensures es[i].key.user < es[j].key.user
  {
    assert Less(es[i].key, es[j].key);
    assert Seen(es, s, i);
  }

  ghost predicate UsersAscend(es: seq<Entry>)
  {
    forall i, j :: 0 <= i <= j < |es| ==> es[i].key.user <= es[j].key.user
  }

  lemma {:induction false} SortedUsers(es: seq<Entry>)
    requires Sorted(es)
    ensures UsersAscend(es)
  {
    forall i, j | 0 <= i < j < |es| ensures es[i].key.user <= es[j].key.user {
      assert Less(es[i].key, es[j].key);
    }
  }

  /** A key shows at most one entry. */
  lemma {:induction false} OneShownPerKey(es: seq<Entry>, s: nat, i: nat)
    requires Sorted(es) && i < |es| && Shown(es, s, i)
    ensures forall j :: 0 <= j < |es| && Shown(es, s, j) && es[j].key.user == es[i].key.user ==> j == i
    ensures forall j :: 0 <= j < |es| && Shown(es, s, j) ==> (j < i <==> es[j].key.user < es[i].key.user)
  {
    forall j | 0 <= j < |es| && Shown(es, s, j) && j != i
      ensures j < i <==> es[j].key.user < es[i].key.user
      ensures es[j].key.user != es[i].key.user
    {
      if j < i { ShownAscend(es, s, j, i); } else { ShownAscend(es, s, i, j); }
    }
  }

  lemma {:induction false} LessTotal(a: InternalKey, b: InternalKey)
    ensures Less(a, b) || AtMost(b, a)
  {
  }

  // ----- shown entries against the map of user keys

  /** No key of the map lies strictly between the bounds. */
  ghost predicate NoKeyBetween(es: seq<Entry>, s: nat, lo: Option<UserKey>, hi: Option<UserKey>)
  {
    forall u :: (lo.Some? ==> lo.value < u) && (hi.Some? ==> u < hi.value) ==> View(SetOf(es), u, s) == None
  }

  function KeyAt(es: seq<Entry>, i: nat): Option<UserKey>
  {
    if i < |es| then Some(es[i].key.user) else None
  }

  /** Stepping forward reaches the least key of the map above the current one. */
  lemma {:induction false} NextIsNextKey(es: seq<Entry>, s: nat, i: nat, k: nat)
    requires Sorted(es) && UniqueSeqs(SetOf(es)) && i < |es| && Shown(es, s, i) && FirstShown(es, s, i + 1, k)
    ensures k < |es| ==> es[i].key.user < es[k].key.user && View(SetOf(es), es[k].key.user, s) == Some(es[k].value)
    ensures NoKeyBetween(es, s, KeyAt(es, i), KeyAt(es, k))
  {
    if k < |es| {
      ShownAscend(es, s, i, k);
      ShownIsView(es, s, k);
    }
    forall u | es[i].key.user < u && (k < |es| ==> u < es[k].key.user)
      ensures View(SetOf(es), u, s) == None
    {
      if View(SetOf(es), u, s).Some? {
        var j := ViewIsShown(es, s, u);
        OneShownPerKey(es, s, i);
        if k < |es| { OneShownPerKey(es, s, k); }
        assert false;
      }
    }
  }

  /** Stepping backward reaches the greatest key of the map below the current one. */
  lemma {:induction false} PrevIsPrevKey(es: seq<Entry>, s: nat, i: nat, k: nat)
    requires Sorted(es) && UniqueSeqs(SetOf(es)) && i < |es| && Shown(es, s, i) && LastShown(es, s, i, k)
    ensures k < |es| ==> es[k].key.user < es[i].key.user && View(SetOf(es), es[k].key.user, s) == Some(es[k].value)
    ensures NoKeyBetween(es, s, KeyAt(es, k), KeyAt(es, i))
  {
    if k < |es| {
      ShownAscend(es, s, k, i);
      ShownIsView(es, s, k);
    }
    forall u | u < es[i].key.user && (k < |es| ==> es[k].key.user < u)
      ensures View(SetOf(es), u, s) == None
    {
      if View(SetOf(es), u, s).Some? {
        var j := ViewIsShown(es, s, u);
        OneShownPerKey(es, s, i);
        if k < |es| { OneShownPerKey(es, s, k); }
        assert false;
      }
    }
  }

  /** Seeking reaches the least key of the map at or above the target. */
  lemma {:induction false} SeekIsSeekKey(es: seq<Entry>, s: nat, target: UserKey, k: nat)
    requires Sorted(es) && UniqueSeqs(SetOf(es)) && k <= |es|
    requires (k < |es| ==> Shown(es, s, k) && target <= es[k].key.user)
    requires forall j :: 0 <= j < k && Shown(es, s, j) ==> es[j].key.user < target
    ensures k < |es| ==> View(SetOf(es), es[k].key.user, s) == Some(es[k].value)
    ensures forall u :: target <= u && (k < |es| ==> u < es[k].key.user) ==> View(SetOf(es), u, s) == None
  {
    if k < |es| {
      ShownIsView(es, s, k);
    }
    forall u | target <= u && (k < |es| ==> u < es[k].key.user)
      ensures View(SetOf(es), u, s) == None
    {
      if View(SetOf(es), u, s).Some? {
        var j := ViewIsShown(es, s, u);
        if k < |es| { OneShownPerKey(es, s, k); }
        assert false;
      }
    }
  }

  /** The two ends reach the least and the greatest key of the map. */
  lemma {:induction false} EndsAreEndKeys(es: seq<Entry>, s: nat, first: nat, last: nat)
    requires Sorted(es) && UniqueSeqs(SetOf(es)) && FirstShown(es, s, 0, first) && LastShown(es, s, |es|, last)
    ensures NoKeyBetween(es, s, None, KeyAt(es, first)) && NoKeyBetween(es, s, KeyAt(es, last), None)
  {
    forall u | (first < |es| ==> u < es[first].key.user) || (last < |es| ==> es[last].key.user < u)
      ensures View(SetOf(es), u, s) == None
    {
      if View(SetOf(es), u, s).Some? {
        var j := ViewIsShown(es, s, u);
        if first < |es| { OneShownPerKey(es, s, first); }
        if last < |es| { OneShownPerKey(es, s, last); }
        assert false;
      }
    }
  }

  // ----- scanning forward

  /** The visible entries before `p` are skipped, or belong to keys before the one at `p`. */
  ghost predicate Passed(es: seq<Entry>, s: nat, skipping: bool, skip: Option<UserKey>, p: nat)
    requires p <= |es|
  {
    && (skipping ==>
          && skip.Some?
          && (forall j :: 0 <= j < p && Seen(es, s, j) ==> es[j].key.user <= skip.value)
          && (forall j :: p <= j < |es| && Seen(es, s, j) ==> skip.value <= es[j].key.user))
    && (!skipping ==> forall j, k :: 0 <= j < p <= k < |es| && Seen(es, s, j) ==> es[j].key.user < es[k].key.user)
  }

  /** The first shown entry from `lo` on whose key is beyond the one to skip. */
  ghost predicate FirstShownAfter(es: seq<Entry>, s: nat, lo: nat, skipping: bool, skip: Option<UserKey>, i: nat)
  {
    && lo <= i <= |es| && (skipping ==> skip.Some?)
    && (i < |es| ==> Shown(es, s, i) && (skipping ==> skip.value < es[i].key.user))
    && forall j :: lo <= j < i && Shown(es, s, j) ==> skipping && es[j].key.user <= skip.value
  }

  /** How a scan was started. */
  datatype Scan = Scan(lo: nat, skipping: bool, skip: Option<UserKey>)

  /** A scan that has reached `p`. What it skips now is what it was told to, or the key of the
      visible entry `w`. */
  ghost predicate Scanning(es: seq<Entry>, s: nat, scan: Scan, skips: bool, skip: Option<UserKey>, w: nat, p: nat)
  {
    && scan.lo <= p <= |es| && Sorted(es) && Passed(es, s, skips, skip, p)
    && (scan.skipping ==> skips && scan.skip.Some? && scan.skip.value <= skip.value)
    && (skips ==> (scan.skipping && skip == scan.skip) || (w < p && Seen(es, s, w) && es[w].key.user == skip.value))
    && (forall j :: scan.lo <= j < p && Shown(es, s, j) ==> scan.skipping && es[j].key.user <= scan.skip.value)
  }

  lemma {:induction false} ScanSome(es: seq<Entry>, s: nat, scan: Scan, skips: bool, skip: Option<UserKey>, w: nat,
                                    p: nat)
    requires Scanning(es, s, scan, skips, skip, w, p)
    ensures skips ==> skip.Some?
  {
  }

  lemma {:induction false} ScanNewer(es: seq<Entry>, s: nat, scan: Scan, skips: bool, skip: Option<UserKey>, w: nat,
                                     p: nat)
    requires Scanning(es, s, scan, skips, skip, w, p) && p < |es| && !Seen(es, s, p)
    ensures Scanning(es, s, scan, skips, skip, w, p + 1)
  {
  }

  lemma {:induction false} ScanDeletion(es: seq<Entry>, s: nat, scan: Scan, skips: bool, skip: Option<UserKey>, w: nat,
                                        p: nat)
    requires Scanning(es, s, scan, skips, skip, w, p) && p < |es| && Seen(es, s, p) && es[p].key.kind.Deletion?
    ensures Scanning(es, s, scan, true, Some(es[p].key.user), p, p + 1)
  {
    SortedUsers(es);
  }

  lemma {:induction false} ScanHidden(es: seq<Entry>, s: nat, scan: Scan, skips: bool, skip: Option<UserKey>, w: nat,
                                      p: nat)
    requires Scanning(es, s, scan, skips, skip, w, p) && p < |es| && Seen(es, s, p) && skips && skip.Some?
    requires es[p].key.user <= skip.value
    ensures Scanning(es, s, scan, skips, skip, w, p + 1)
  {
  }

  lemma {:induction false} ScanFound(es: seq<Entry>, s: nat, scan: Scan, skips: bool, skip: Option<UserKey>, w: nat,
                                     p: nat)
    requires Scanning(es, s, scan, skips, skip, w, p) && p < |es| && Seen(es, s, p) && es[p].key.kind.Value?
    requires skips ==> skip.Some? && skip.value < es[p].key.user
    ensures Shown(es, s, p) && FirstShownAfter(es, s, scan.lo, scan.skipping, scan.skip, p)
  {
  }

  lemma {:induction false} ScanEnd(es: seq<Entry>, s: nat, scan: Scan, skips: bool, skip: Option<UserKey>, w: nat)
    requires Scanning(es, s, scan, skips, skip, w, |es|)
    ensures FirstShownAfter(es, s, scan.lo, scan.skipping, scan.skip, |es|)
  {
  }

  // ----- scanning backward

  /** A scan from below `hi` that has come down to `p`: with a value in hand, entry `c` is the
      newest seen of its key so far; otherwise nothing from `p` on is shown. */
  ghost predicate Backing(es: seq<Entry>, s: nat, hi: nat, holding: bool, key: Option<UserKey>, value: Val, c: nat,
                          p: nat)
  {
    && p <= hi <= |es| && Sorted(es)
    && (!holding ==> forall j :: p <= j < hi ==> !Shown(es, s, j))
    && (holding ==>
          && p <= c < hi && Seen(es, s, c) && es[c].key.kind.Value? && key == Some(es[c].key.user)
             && value == es[c].value
          && (forall j :: p <= j < c ==> !Seen(es, s, j))
          && (forall j :: c < j < hi ==> !Shown(es, s, j)))
  }

  lemma {:induction false} BackNewer(es: seq<Entry>, s: nat, hi: nat, holding: bool, key: Option<UserKey>, value: Val,
                                     c: nat, p: nat)
    requires p > 0 && Backing(es, s, hi, holding, key, value, c, p) && !Seen(es, s, p - 1)
    ensures Backing(es, s, hi, holding, key, value, c, p - 1)
  {
  }

  /** An entry that is not of an earlier key than the one in hand replaces it. */
  lemma {:induction false} BackTake(es: seq<Entry>, s: nat, hi: nat, holding: bool, key: Option<UserKey>, value: Val,
                                    c: nat, p: nat)
    requires p > 0 && Backing(es, s, hi, holding, key, value, c, p) && Seen(es, s, p - 1)
    requires holding ==> key.Some? && key.value <= es[p - 1].key.user
    ensures es[p - 1].key.kind.Value? ==>
            Backing(es, s, hi, true, Some(es[p - 1].key.user), es[p - 1].value, p - 1, p - 1)
    ensures es[p - 1].key.kind.Deletion? ==> Backing(es, s, hi, false, None, [], c, p - 1)
  {
    SortedUsers(es);
    assert holding ==> es[c].key.user == es[p - 1].key.user;
    forall j | p - 1 < j < hi
      ensures !Shown(es, s, j)
    {
      if holding && j == c {
        assert Seen(es, s, p - 1);
      }
    }
  }

  lemma {:induction false} BackHolds(es: seq<Entry>, s: nat, hi: nat, holding: bool, key: Option<UserKey>, value: Val,
                                     c: nat, p: nat)
    requires Backing(es, s, hi, holding, key, value, c, p)
    ensures holding ==> key.Some? && c < |es| && key.value == es[c].key.user
  {
  }

  lemma {:induction false} BackDone(es: seq<Entry>, s: nat, hi: nat, key: Option<UserKey>, value: Val, c: nat, p: nat)
    requires Backing(es, s, hi, true, key, value, c, p)
    requires p > 0 ==> es[p - 1].key.user < es[c].key.user
    ensures c < |es| && Shown(es, s, c) && LastShown(es, s, hi, c) && key == Some(es[c].key.user)
    ensures value == es[c].value
    ensures forall j :: p <= j < |es| && es[j].key.user < es[c].key.user ==> !Seen(es, s, j)
  {
    SortedUsers(es);
  }

  lemma {:induction false} BackNone(es: seq<Entry>, s: nat, hi: nat, key: Option<UserKey>, value: Val, c: nat)
    requires Backing(es, s, hi, false, key, value, c, 0)
    ensures LastShown(es, s, hi, |es|)
  {
  }

  // ----- the iterator

  class DBIter {
    const entries: seq<Entry>
    const sequence: nat
    var pos: nat            // the inner iterator's position; not valid at the end
    var reverse: bool
    var valid: bool
    var savedKey: Option<UserKey>
    var savedValue: Val

    /** The iterator stands at shown entry `i`: going forward the inner iterator is there;
        going backward it has passed all that entry's key can show. */
    ghost predicate At(i: nat)
      reads this
    {
      && Sorted(entries) && pos <= |entries| && valid && i < |entries| && Shown(entries, sequence, i)
      && (!reverse ==> pos == i)
      && (reverse ==> savedKey == Some(entries[i].key.user) && savedValue == entries[i].value && Before(i))
    }

    ghost predicate Before(i: nat)
      requires i < |entries|
      reads this
    {
      && (pos < |entries| ==> entries[pos].key.user < entries[i].key.user)
      && forall j ::
           0 <= j < |entries| && entries[j].key.user < entries[i].key.user && (pos == |entries| || pos < j) ==>
             !Seen(entries, sequence, j)
    }

    /** At shown entry `i`, or not valid when `i` is the end. */
    ghost predicate Stands(i: nat)
      reads this
    {
      && Sorted(entries) && i <= |entries|
      && (i < |entries| ==> At(i))
      && (i == |entries| ==> !valid)
    }

    constructor (entries: seq<Entry>, sequence: nat)
      requires Sorted(entries)
      ensures this.entries == entries && this.sequence == sequence && Stands(|entries|)
    {
      this.entries, this.sequence := entries, sequence;
      pos, reverse, valid, savedKey, savedValue := |entries|, false, false, None, [];
    }

    function Key(): (k: UserKey)
      requires valid && (reverse ==> savedKey.Some?) && (!reverse ==> pos < |entries|)
      reads this
      ensures forall i: nat :: At(i) ==> k == entries[i].key.user
    {
      if reverse then savedKey.value else entries[pos].key.user
    }

    function Value(): (v: Val)
      requires valid && (!reverse ==> pos < |entries|)
      reads this
      ensures forall i: nat :: At(i) ==> v == entries[i].value
    {
      if reverse then savedValue else entries[pos].value
    }

    method FindNextUserEntry(skipping: bool) returns (ghost i: nat)
      requires Sorted(entries) && pos < |entries| && !reverse && Passed(entries, sequence, skipping, savedKey, pos)
      modifies this
      ensures Stands(i) && FirstShownAfter(entries, sequence, old(pos), skipping, old(savedKey), i)
    {
      ghost var scan := Scan(pos, skipping, savedKey);
      ghost var w := 0;
      var skips := skipping;
      hide Passed, FirstShownAfter, Shown, Sorted;
      while pos < |entries|
        invariant pos <= |entries| && !reverse && Scanning(entries, sequence, scan, skips, savedKey, w, pos)
        decreases |entries| - pos
      {
        hide Scanning;
        var e := entries[pos];
        if e.key.sequence <= sequence {
          match e.key.kind
          case Deletion =>
            ScanDeletion(entries, sequence, scan, skips, savedKey, w, pos);
            savedKey, skips, w := Some(e.key.user), true, pos;
          case Value =>
            ScanSome(entries, sequence, scan, skips, savedKey, w, pos);
            if skips && e.key.user <= savedKey.value {
              ScanHidden(entries, sequence, scan, skips, savedKey, w, pos);
            } else {
              ScanFound(entries, sequence, scan, skips, savedKey, w, pos);
              i := pos;
              valid, savedKey := true, None;
              return;
            }
        } else {
          ScanNewer(entries, sequence, scan, skips, savedKey, w, pos);
        }
        pos := pos + 1;
      }
      ScanEnd(entries, sequence, scan, skips, savedKey, w);
      i := |entries|;
      savedKey, valid := None, false;
    }

    method SeekToFirst() returns (ghost i: nat)
      requires Sorted(entries)
      modifies this
      ensures Stands(i) && FirstShown(entries, sequence, 0, i)
    {
      reverse, savedValue := false, [];
      pos := 0;
      if pos < |entries| {
        i := FindNextUserEntry(false);
      } else {
        valid := false;
        i := |entries|;
      }
    }

    /** The inner `Seek`: the first entry at or after the lookup key. */
    method SeekInner(target: InternalKey)
      modifies this`pos
      ensures pos <= |entries| && (forall j :: 0 <= j < pos ==> Less(entries[j].key, target))
      ensures pos < |entries| ==> AtMost(target, entries[pos].key)
    {
      pos := 0;
      while pos < |entries| && Less(entries[pos].key, target)
        invariant pos <= |entries| && forall j :: 0 <= j < pos ==> Less(entries[j].key, target)
      {
        pos := pos + 1;
      }
      if pos < |entries| {
        LessTotal(entries[pos].key, target);
      }
    }

    method Seek(target: UserKey) returns (ghost i: nat)
      requires Sorted(entries)
      modifies this
      ensures Stands(i) && (i < |entries| ==> target <= entries[i].key.user)
      ensures forall j :: 0 <= j < i && Shown(entries, sequence, j) ==> entries[j].key.user < target
    {
      SortedUsers(entries);
      reverse, savedValue, savedKey := false, [], None;
      SeekInner(LookupKey(target, sequence));
      if pos < |entries| {
        i := FindNextUserEntry(false);
      } else {
        valid := false;
        i := |entries|;
      }
    }

    method Next(ghost i: nat) returns (ghost k: nat)
      requires At(i)
      modifies this
      ensures Stands(k) && FirstShown(entries, sequence, i + 1, k)
    {
      SortedUsers(entries);
      if reverse {
        reverse := false;
        if pos == |entries| {
          pos := 0;
        } else {
          pos := pos + 1;
        }
        if pos == |entries| {
          assert false;  // the entries of the current key lie ahead
        }
      } else {
        savedKey := Some(entries[pos].key.user);
        pos := pos + 1;
        if pos == |entries| {
          valid, savedKey := false, None;
          k := |entries|;
          return;
        }
      }
      k := FindNextUserEntry(true);
      OneShownPerKey(entries, sequence, i);
    }

    /** One step back of the inner iterator; before the first entry it is not valid. */
    method PrevInner()
      requires pos < |entries|
      modifies this`pos
      ensures pos == if old(pos) == 0 then |entries| else old(pos) - 1
    {
      pos := if pos == 0 then |entries| else pos - 1;
    }

    /** How many entries the inner iterator has not yet come back over. */
    function Left(): nat
      reads this
    {
      if pos < |entries| then pos + 1 else 0
    }

    method FindPrevUserEntry() returns (ghost i: nat)
      requires Sorted(entries) && pos <= |entries| && reverse
      modifies this
      ensures Stands(i) && LastShown(entries, sequence, old(Left()), i)
    {
      ghost var hi, c := Left(), 0;
      var holding := false;
      hide Shown, Sorted, LastShown;
      while pos < |entries|
        invariant pos <= |entries| && reverse
        invariant Backing(entries, sequence, hi, holding, savedKey, savedValue, c, Left())
        decreases Left()
      {
        hide Backing;
        ghost var p := Left();
        var e := entries[pos];
        if e.key.sequence <= sequence {
          BackHolds(entries, sequence, hi, holding, savedKey, savedValue, c, p);
          if holding && e.key.user < savedKey.value {
            break;
          }
          BackTake(entries, sequence, hi, holding, savedKey, savedValue, c, p);
          holding := e.key.kind.Value?;
          if holding {
            savedKey, savedValue, c := Some(e.key.user), e.value, pos;
          } else {
            savedKey, savedValue := None, [];
          }
        } else {
          BackNewer(entries, sequence, hi, holding, savedKey, savedValue, c, p);
        }
        PrevInner();
      }
      if !holding {
        BackNone(entries, sequence, hi, savedKey, savedValue, c);
        valid, savedKey, savedValue, reverse := false, None, [], false;
        i := |entries|;
      } else {
        valid := true;
        i := c;
        BackDone(entries, sequence, hi, savedKey, savedValue, c, Left());
      }
    }

    method SeekToLast() returns (ghost i: nat)
      requires Sorted(entries)
      modifies this
      ensures Stands(i) && LastShown(entries, sequence, |entries|, i)
    {
      reverse, savedValue := true, [];
      pos := if |entries| > 0 then |entries| - 1 else 0;
      i := FindPrevUserEntry();
    }

    method Prev(ghost i: nat) returns (ghost k: nat)
      requires At(i)
      modifies this
      ensures Stands(k) && LastShown(entries, sequence, i, k)
    {
      SortedUsers(entries);
      OneShownPerKey(entries, sequence, i);
      if !reverse {
        savedKey := Some(entries[pos].key.user);
        while true
          invariant pos <= i && !reverse && savedKey == Some(entries[i].key.user)
          invariant entries[pos].key.user == savedKey.value
          decreases pos
        {
          PrevInner();
          if pos == |entries| {
            valid, savedKey, savedValue := false, None, [];
            k := |entries|;
            return;
          }
          if entries[pos].key.user < savedKey.value {
            break;
          }
        }
        reverse := true;
      }
      k := FindPrevUserEntry();
    }
  }
}
