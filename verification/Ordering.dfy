/** Internal keys as triples, the entries they name, and the multi-version view that a set
    of entries gives: what each user key reads as at each snapshot. */
module Ordering {
  import opened Wrappers

  /** A user key, named by its rank in the comparator's order (see `Keys.RankEmbedsOrder`). */
  type UserKey = real

  type Val = seq<int>

  datatype Kind = Deletion | Value

  datatype InternalKey = InternalKey(user: UserKey, sequence: nat, kind: Kind)

  datatype Entry = Entry(key: InternalKey, value: Val)

  /** User keys ascending; within one user key newest first. */
  predicate Less(a: InternalKey, b: InternalKey)
  {
    || a.user < b.user
    || (a.user == b.user && a.sequence > b.sequence)
    || (a.user == b.user && a.sequence == b.sequence && a.kind.Value? && b.kind.Deletion?)
  }

  predicate AtMost(a: InternalKey, b: InternalKey)
  {
    a == b || Less(a, b)
  }

  /** The key that seeks to the newest entry of `u` at or below snapshot `s`. */
  function LookupKey(u: UserKey, s: nat): InternalKey
  {
    InternalKey(u, s, Value)
  }

  ghost predicate Sorted(es: seq<Entry>)
  {
    forall i, j :: 0 <= i < j < |es| ==> Less(es[i].key, es[j].key)
  }

  ghost function SetOf(es: seq<Entry>): set<Entry>
  {
    set e | e in es
  }

  /** No two entries share user key and sequence number. */
  ghost predicate UniqueSeqs(E: set<Entry>)
  {
    forall d, e :: d in E && e in E && d.key.user == e.key.user && d.key.sequence == e.key.sequence ==> d == e
  }

  predicate Visible(e: Entry, u: UserKey, s: nat)
  {
    e.key.user == u && e.key.sequence <= s
  }

  /** `e` is the newest entry of `u` at or below snapshot `s`. */
  ghost predicate Newest(E: set<Entry>, u: UserKey, s: nat, e: Entry)
  {
    e in E && Visible(e, u, s) && forall d :: d in E && Visible(d, u, s) ==> d.key.sequence <= e.key.sequence
  }

  function Reading(e: Entry): Option<Val>
  {
    if e.key.kind.Value? then Some(e.value) else None
  }

  /** What `u` reads as at snapshot `s`: the newest visible value, or nothing when no entry
      is visible or the newest one is a deletion. */
  ghost function View(E: set<Entry>, u: UserKey, s: nat): Option<Val>
  {
    if e :| Newest(E, u, s, e) then Reading(e) else None
  }

  lemma {:induction false} ViewOfNewest(E: set<Entry>, u: UserKey, s: nat, e: Entry)
    requires UniqueSeqs(E) && Newest(E, u, s, e)
    ensures View(E, u, s) == Reading(e)
  {
    forall d | Newest(E, u, s, d)
      ensures d == e
    {
    }
  }

  lemma {:induction false} ViewOfNone(E: set<Entry>, u: UserKey, s: nat)
    requires forall e :: e in E ==> !Visible(e, u, s)
    ensures View(E, u, s) == None
  {
  }

  lemma {:induction false} NewestExists(E: set<Entry>, u: UserKey, s: nat, w: Entry) returns (e: Entry)
    requires w in E && Visible(w, u, s)
    ensures Newest(E, u, s, e)
    decreases |E|
  {
    if Newest(E, u, s, w) {
      e := w;
    } else {
      var d :| d in E && Visible(d, u, s) && d.key.sequence > w.key.sequence;
      var rest := E - {w};
      e := NewestExists(rest, u, s, d);
    }
  }

  /** Every set has a reading: either nothing is visible or some entry is newest. */
  lemma {:induction false} ViewCases(E: set<Entry>, u: UserKey, s: nat)
    requires UniqueSeqs(E)
    ensures || (View(E, u, s) == None && forall e :: e in E ==> !Visible(e, u, s))
            || exists e :: Newest(E, u, s, e) && View(E, u, s) == Reading(e)
  {
    if w :| w in E && Visible(w, u, s) {
      var e := NewestExists(E, u, s, w);
      ViewOfNewest(E, u, s, e);
    } else {
      ViewOfNone(E, u, s);
    }
  }

  // ----- plain maps

  function Lookup(m: map<UserKey, Val>, u: UserKey): Option<Val>
  {
    if u in m then Some(m[u]) else None
  }

  /** The map from user keys to what they read as at snapshot `s`. */
  ghost function MapAt(E: set<Entry>, s: nat): (m: map<UserKey, Val>)
    ensures forall u :: Lookup(m, u) == View(E, u, s)
    ensures forall u :: u in m <==> View(E, u, s).Some?
  {
    var users := set e | e in E :: e.key.user;
    map u | u in users && View(E, u, s).Some? :: View(E, u, s).value
  }

  lemma {:induction false} MapAtIs(E: set<Entry>, s: nat, m: map<UserKey, Val>)
    requires forall u :: View(E, u, s) == Lookup(m, u)
    ensures MapAt(E, s) == m
  {
    var n := MapAt(E, s);
    forall u ensures u in n <==> u in m { assert Lookup(n, u) == Lookup(m, u); }
    forall u | u in n ensures n[u] == m[u] { assert Lookup(n, u) == Lookup(m, u); }
  }
}
