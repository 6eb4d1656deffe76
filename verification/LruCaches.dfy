/** One shard of the cache: a handle table, a list of handles in use and a list of handles
    that may be evicted, with reference counts. */
module LruCaches {
  import opened HandleTables
  import opened Wrappers

  datatype Handle = Handle(key: Key, hash: nat, charge: nat, refs: nat, inCache: bool)

  /** A shard's state, with the handles its clients hold and the deleters that have run. The
      lists are oldest first. */
  datatype State = State(handles: map<nat, Handle>, lru: seq<nat>, inUse: seq<nat>, usage: int, slots: set<Slot>,
                         held: multiset<nat>, deleted: seq<nat>, nextId: nat)

  // ----- lists

  ghost predicate NoRepeats(list: seq<nat>)
  {
    forall i, j :: 0 <= i < j < |list| ==> list[i] != list[j]
  }

  /** Unlinking a handle from the list it is on. */
  function Without(list: seq<nat>, id: nat): seq<nat>
  {
    if list == [] then []
    else if list[|list| - 1] == id then list[..|list| - 1]
    else Without(list[..|list| - 1], id) + [list[|list| - 1]]
  }

  lemma {:induction false} WithoutMembers(list: seq<nat>, id: nat)
    requires NoRepeats(list)
    ensures NoRepeats(Without(list, id)) && forall x :: x in Without(list, id) <==> x in list && x != id
  {
    if list != [] {
      var k := |list| - 1;
      WithoutMembers(list[..k], id);
      assert list == list[..k] + [list[k]];
      assert list[k] !in list[..k];
      if list[k] != id { AppendNew(Without(list[..k], id), list[k]); }
    }
  }

  lemma {:induction false} AppendNew(list: seq<nat>, id: nat)
    requires NoRepeats(list) && id !in list
    ensures NoRepeats(list + [id]) && forall x :: x in list + [id] <==> x in list || x == id
  {
  }

  function ChargeOf(handles: map<nat, Handle>, id: nat): nat
  {
    if id in handles then handles[id].charge else 0
  }

  function Charge(handles: map<nat, Handle>, list: seq<nat>): nat
  {
    if list == [] then 0 else Charge(handles, list[..|list| - 1]) + ChargeOf(handles, list[|list| - 1])
  }

  lemma {:induction false} ChargeSame(a: map<nat, Handle>, b: map<nat, Handle>, list: seq<nat>)
    requires forall x :: x in list ==> ChargeOf(a, x) == ChargeOf(b, x)
    ensures Charge(a, list) == Charge(b, list)
  {
    if list != [] {
      ChargeSame(a, b, list[..|list| - 1]);
    }
  }

  lemma {:induction false} ChargeSnoc(handles: map<nat, Handle>, list: seq<nat>, id: nat)
    ensures Charge(handles, list + [id]) == Charge(handles, list) + ChargeOf(handles, id)
  {
    assert (list + [id])[..|list|] == list;
  }

  lemma {:induction false} ChargeWithout(handles: map<nat, Handle>, list: seq<nat>, id: nat)
    requires NoRepeats(list)
    ensures Charge(handles, list) == Charge(handles, Without(list, id)) + if id in list then ChargeOf(handles, id)
            else 0
  {
    if list != [] {
      var k := |list| - 1;
      assert list == list[..k] + [list[k]];
      if list[k] != id {
        ChargeWithout(handles, list[..k], id);
        ChargeSnoc(handles, Without(list[..k], id), list[k]);
      } else {
        assert id !in list[..k];
      }
    }
  }

  // ----- the invariant

  ghost predicate Counted(s: State)
  {
    && (forall id :: id in s.handles ==> id < s.nextId && s.handles[id].refs > 0)
    && (forall id :: id in s.handles ==> s.handles[id].refs == s.held[id] + if s.handles[id].inCache then 1 else 0)
    && (forall id :: id in s.held ==> id in s.handles)
  }

  /** A cached handle is on exactly the list its references dictate. */
  ghost predicate Listed(s: State)
  {
    && NoRepeats(s.lru) && NoRepeats(s.inUse)
    && (forall id :: id in s.lru <==> id in s.handles && s.handles[id].inCache && s.handles[id].refs == 1)
    && (forall id :: id in s.inUse <==> id in s.handles && s.handles[id].inCache && s.handles[id].refs != 1)
  }

  ghost predicate Charged(s: State)
  {
    s.usage == Charge(s.handles, s.lru) + Charge(s.handles, s.inUse)
  }

  function SlotFor(s: State, id: nat): Slot
    requires id in s.handles
  {
    Slot(s.handles[id].key, s.handles[id].hash, id)
  }

  /** The table holds exactly the cached handles. */
  ghost predicate Tabled(s: State)
  {
    && OnePerKey(s.slots)
    && (forall e :: e in s.slots ==> e.id in s.handles && s.handles[e.id].inCache && e == SlotFor(s, e.id))
    && (forall id :: id in s.handles && s.handles[id].inCache ==> SlotFor(s, id) in s.slots)
  }

  /** Deleters run once, and only for handles that are gone. */
  ghost predicate DeletedOnce(s: State)
  {
    NoRepeats(s.deleted) && forall id :: id in s.deleted ==> id !in s.handles && id < s.nextId
  }

  ghost predicate Ok(s: State)
  {
    Counted(s) && Listed(s) && Charged(s) && Tabled(s) && DeletedOnce(s)
  }

  // ----- references

  /** A handle that gains its second reference leaves the list of evictable ones. */
  function Ref(s: State, id: nat): State
    requires id in s.handles
  {
    var h := s.handles[id];
    var s := if h.refs == 1 && h.inCache then s.(lru := Without(s.lru, id), inUse := s.inUse + [id]) else s;
    s.(handles := s.handles[id := h.(refs := h.refs + 1)])
  }

  function Unref(s: State, id: nat): State
    requires id in s.handles && s.handles[id].refs > 0
  {
    var h := s.handles[id];
    if h.refs == 1 then s.(handles := s.handles - {id}, deleted := s.deleted + [id])
    else
      var s := s.(handles := s.handles[id := h.(refs := h.refs - 1)]);
      if h.inCache && h.refs == 2 then s.(lru := s.lru + [id], inUse := Without(s.inUse, id)) else s
  }

  /** A handle taken out of the table loses the cache's reference. */
  function FinishErase(s: State, id: nat): State
    requires id in s.handles && s.handles[id].refs > 0
  {
    var h := s.handles[id];
    Unref(s.(lru := Without(s.lru, id), inUse := Without(s.inUse, id),
             handles := s.handles[id := h.(inCache := false)], usage := s.usage - h.charge), id)
  }

  /** Handles that are in both maps are for the same key and cost the same. */
  ghost predicate Alike(a: map<nat, Handle>, b: map<nat, Handle>)
  {
    forall x :: x in a && x in b ==> a[x].key == b[x].key && a[x].hash == b[x].hash && a[x].charge == b[x].charge
  }

  /** What leaving the table does to the handles and the usage. */
  lemma {:induction false} EraseEffect(s: State, id: nat)
    requires id in s.handles && s.handles[id].refs > 0
    ensures var t := FinishErase(s, id);
            && Alike(s.handles, t.handles) && t.usage == s.usage - s.handles[id].charge
            && (forall x :: x in t.handles <==> x in s.handles && (x == id ==> s.handles[id].refs > 1))
            && (forall x :: x in t.handles && x != id ==> t.handles[x] == s.handles[x])
            && t.deleted == s.deleted + if s.handles[id].refs > 1 then [] else [id]
  {
    hide Without;
  }

  /** A handle is unlinked where it stands; the order of the others is kept. */
  lemma {:induction false} WithoutAt(list: seq<nat>, i: nat)
    requires NoRepeats(list) && i < |list|
    ensures Without(list, list[i]) == list[..i] + list[i + 1..]
  {
    var k := |list| - 1;
    if i < k {
      WithoutAt(list[..k], i);
      assert list[..k][..i] + list[..k][i + 1..] + [list[k]] == list[..i] + list[i + 1..];
    }
  }

  // ----- what the operations keep

  lemma {:induction false} RefListed(s: State, id: nat)
    requires Listed(s) && id in s.handles && s.handles[id].refs > 0
    ensures Listed(Ref(s, id))
  {
    hide Without;
    WithoutMembers(s.lru, id);
    if s.handles[id].refs == 1 && s.handles[id].inCache {
      AppendNew(s.inUse, id);
    }
  }

  lemma {:induction false} RefCharged(s: State, id: nat)
    requires Listed(s) && Charged(s) && id in s.handles
    ensures Charged(Ref(s, id))
  {
    hide Listed, Without;
    assert NoRepeats(s.lru) by { ListedNoRepeats(s); }
    var t := Ref(s, id);
    ListedPlace(s, id);
    ChargeWithout(s.handles, s.lru, id);
    ChargeSnoc(s.handles, s.inUse, id);
    ChargeSame(s.handles, t.handles, t.lru);
    ChargeSame(s.handles, t.handles, t.inUse);
  }

  lemma {:induction false} ListedNoRepeats(s: State)
    requires Listed(s)
    ensures NoRepeats(s.lru) && NoRepeats(s.inUse)
  {
  }

  lemma {:induction false} ListedPlace(s: State, id: nat)
    requires Listed(s)
    ensures id in s.lru <==> id in s.handles && s.handles[id].inCache && s.handles[id].refs == 1
    ensures id in s.inUse <==> id in s.handles && s.handles[id].inCache && s.handles[id].refs != 1
  {
  }

  /** Only the reference count of one handle differs. */
  ghost predicate Recounted(s: State, t: State, id: nat)
  {
    id in s.handles && exists n: nat :: t.handles == s.handles[id := s.handles[id].(refs := n)]
  }

  lemma {:induction false} RecountTabled(s: State, t: State, id: nat)
    requires Tabled(s) && t.slots == s.slots && Recounted(s, t, id)
    ensures Tabled(t)
  {
  }

  lemma {:induction false} RefCounted(s: State, id: nat)
    requires Counted(s) && id in s.handles
    ensures Counted(Ref(s, id).(held := s.held + multiset{id}))
  {
    hide Without;
  }

  /** Looking up a handle gives one more client a reference to it. */
  lemma {:induction false} LookupOk(s: State, id: nat)
    requires Ok(s) && id in s.handles
    ensures Ok(Ref(s, id).(held := s.held + multiset{id}))
  {
    hide Listed, Charged, Tabled, Counted, Without;
    var r, t := Ref(s, id), Ref(s, id).(held := s.held + multiset{id});
    RefCounted(s, id);
    PositiveRefs(s, id);
    RefListed(s, id);
    ListedFields(r, t);
    RefCharged(s, id);
    ChargedFields(r, t);
    assert t.handles == s.handles[id := s.handles[id].(refs := s.handles[id].refs + 1)];
    RecountTabled(s, t, id);
  }

  lemma {:induction false} PositiveRefs(s: State, id: nat)
    requires Counted(s) && id in s.handles
    ensures s.handles[id].refs > 0 && s.handles[id].refs == s.held[id] + if s.handles[id].inCache then 1 else 0
  {
  }

  lemma {:induction false} ChargedFields(s: State, t: State)
    requires Charged(s) && t.handles == s.handles && t.lru == s.lru && t.inUse == s.inUse && t.usage == s.usage
    ensures Charged(t)
  {
  }

  lemma {:induction false} ListedFields(s: State, t: State)
    requires Listed(s) && t.handles == s.handles && t.lru == s.lru && t.inUse == s.inUse
    ensures Listed(t)
  {
  }

  lemma {:induction false} UnrefListed(s: State, id: nat)
    requires Listed(s) && id in s.handles && s.handles[id].refs > 0
    requires (s.handles[id].inCache ==> s.handles[id].refs > 1)
    ensures Listed(Unref(s, id))
  {
    hide Without;
    WithoutMembers(s.inUse, id);
    if s.handles[id].refs == 2 && s.handles[id].inCache {
      AppendNew(s.lru, id);
    }
  }

  lemma {:induction false} UnrefCharged(s: State, id: nat)
    requires Listed(s) && Charged(s) && id in s.handles && s.handles[id].refs > 0
    requires (s.handles[id].inCache ==> s.handles[id].refs > 1)
    ensures Charged(Unref(s, id))
  {
    hide Listed, Without;
    ListedNoRepeats(s);
    var t := Unref(s, id);
    ListedPlace(s, id);
    WithoutMembers(s.inUse, id);
    ChargeWithout(s.handles, s.inUse, id);
    ChargeSnoc(s.handles, s.lru, id);
    ChargeSame(s.handles, t.handles, t.lru);
    ChargeSame(s.handles, t.handles, t.inUse);
  }

  lemma {:induction false} UnrefTabled(s: State, id: nat)
    requires Tabled(s) && id in s.handles && s.handles[id].refs > 0
    requires (s.handles[id].inCache ==> s.handles[id].refs > 1)
    ensures Tabled(Unref(s, id))
  {
    hide Without;
  }

  lemma {:induction false} UnrefDeleted(s: State, id: nat)
    requires DeletedOnce(s) && id in s.handles && s.handles[id].refs > 0 && id < s.nextId
    ensures DeletedOnce(Unref(s, id))
  {
    hide Without;
    if s.handles[id].refs == 1 {
      AppendNew(s.deleted, id);
    }
  }

  /** Counts that are one too high for handle `id`. */
  ghost predicate OverCounted(s: State, id: nat)
  {
    && (forall x :: x in s.handles ==> x < s.nextId && s.handles[x].refs > 0)
    && (forall x :: x in s.handles ==>
       s.handles[x].refs == s.held[x] + (if s.handles[x].inCache then 1 else 0) + if x == id then 1 else 0)
    && (forall x :: x in s.held ==> x in s.handles)
  }

  lemma {:induction false} UnrefCounted(s: State, id: nat)
    requires OverCounted(s, id) && id in s.handles
    ensures Counted(Unref(s, id))
  {
    hide Without;
  }

  /** Dropping the reference that is one too many restores the invariant. */
  lemma {:induction false} UnrefOk(s: State, id: nat)
    requires OverCounted(s, id) && Listed(s) && Charged(s) && Tabled(s) && DeletedOnce(s) && id in s.handles
    ensures Ok(Unref(s, id))
  {
    OverPositive(s, id);
    hide OverCounted, Listed, Charged, Tabled, DeletedOnce, Unref;
    UnrefCounted(s, id);
    UnrefListed(s, id);
    UnrefCharged(s, id);
    UnrefTabled(s, id);
    UnrefDeleted(s, id);
  }

  lemma {:induction false} OverPositive(s: State, id: nat)
    requires OverCounted(s, id) && id in s.handles
    ensures s.handles[id].refs > 0 && (s.handles[id].inCache ==> s.handles[id].refs > 1) && id < s.nextId
  {
  }

  /** Releasing gives a client's reference back. */
  lemma {:induction false} ReleaseOk(s: State, id: nat)
    requires Ok(s) && id in s.held
    ensures id in s.handles && s.handles[id].refs > 0 && Ok(Unref(s.(held := s.held - multiset{id}), id))
  {
    var t := s.(held := s.held - multiset{id});
    assert OverCounted(t, id);
    hide OverCounted, Listed, Charged, Tabled, DeletedOnce, Unref;
    ListedFields(s, t);
    ChargedFields(s, t);
    TabledFields(s, t);
    DeletedFields(s, t);
    UnrefOk(t, id);
  }

  lemma {:induction false} TabledFields(s: State, t: State)
    requires Tabled(s) && t.handles == s.handles && t.slots == s.slots
    ensures Tabled(t)
  {
  }

  lemma {:induction false} DeletedFields(s: State, t: State)
    requires DeletedOnce(s) && t.handles.Keys == s.handles.Keys && t.deleted == s.deleted && t.nextId == s.nextId
    ensures DeletedOnce(t)
  {
  }

  // ----- erasing

  /** A handle off the table and off its list, still holding the cache's reference. */
  function Detached(s: State, id: nat): State
    requires id in s.handles
  {
    s.(lru := Without(s.lru, id), inUse := Without(s.inUse, id),
       handles := s.handles[id := s.handles[id].(inCache := false)], usage := s.usage - s.handles[id].charge)
  }

  lemma {:induction false} DetachedListed(s: State, id: nat)
    requires Listed(s) && id in s.handles && s.handles[id].inCache
    ensures Listed(Detached(s, id))
  {
    hide Without;
    WithoutMembers(s.lru, id);
    WithoutMembers(s.inUse, id);
  }

  lemma {:induction false} DetachedCharged(s: State, id: nat)
    requires Listed(s) && Charged(s) && id in s.handles && s.handles[id].inCache
    ensures Charged(Detached(s, id))
  {
    hide Listed, Without;
    ListedNoRepeats(s);
    ListedPlace(s, id);
    var t := Detached(s, id);
    WithoutMembers(s.lru, id);
    WithoutMembers(s.inUse, id);
    ChargeWithout(s.handles, s.lru, id);
    ChargeWithout(s.handles, s.inUse, id);
    ChargeSame(s.handles, t.handles, t.lru);
    ChargeSame(s.handles, t.handles, t.inUse);
  }

  lemma {:induction false} DetachedTabled(s: State, e: Slot)
    requires Tabled(s) && e in s.slots
    ensures e.id in s.handles && Tabled(Detached(s, e.id).(slots := s.slots - {e}))
  {
    hide Without;
  }

  lemma {:induction false} DetachedCounted(s: State, id: nat)
    requires Counted(s) && id in s.handles && s.handles[id].inCache
    ensures OverCounted(Detached(s, id), id)
  {
    hide Without;
  }

  /** Erasing a cached handle: it stays alive exactly as long as clients hold it. */
  lemma {:induction false} EraseOk(s: State, e: Slot)
    requires Ok(s) && e in s.slots
    ensures e.id in s.handles && s.handles[e.id].refs > 0 && Ok(FinishErase(s.(slots := s.slots - {e}), e.id))
  {
    var id := e.id;
    assert id in s.handles && s.handles[id].inCache;
    hide Listed, Charged, Tabled, Counted, OverCounted, Without, Unref;
    PositiveRefs(s, id);
    var d := Detached(s, id);
    var t := d.(slots := s.slots - {e});
    assert Detached(s.(slots := s.slots - {e}), id) == t;
    DetachedCounted(s, id);
    OverFields(d, t, id);
    DetachedListed(s, id);
    ListedFields(d, t);
    DetachedCharged(s, id);
    ChargedFields(d, t);
    DetachedTabled(s, e);
    UnrefOk(t, id);
  }

  lemma {:induction false} OverFields(s: State, t: State, id: nat)
    requires OverCounted(s, id) && t.handles == s.handles && t.held == s.held && t.nextId == s.nextId
    ensures OverCounted(t, id)
  {
  }

  // ----- inserting

  /** A new handle, in the table and in use, held by the inserting client. */
  function AddHandle(s: State, key: Key, hash: nat, charge: nat): State
  {
    var id := s.nextId;
    s.(handles := s.handles[id := Handle(key, hash, charge, 2, true)], inUse := s.inUse + [id],
        usage := s.usage + charge,
       slots := s.slots + {Slot(key, hash, id)}, held := s.held + multiset{id}, nextId := id + 1)
  }

  lemma {:induction false} AddCounted(s: State, key: Key, hash: nat, charge: nat)
    requires Counted(s)
    ensures Counted(AddHandle(s, key, hash, charge)) && s.nextId !in s.handles && s.nextId !in s.held
  {
  }

  lemma {:induction false} AddListed(s: State, key: Key, hash: nat, charge: nat)
    requires Listed(s) && s.nextId !in s.handles
    ensures Listed(AddHandle(s, key, hash, charge))
  {
    AppendNew(s.inUse, s.nextId);
  }

  lemma {:induction false} AddCharged(s: State, key: Key, hash: nat, charge: nat)
    requires Listed(s) && Charged(s) && s.nextId !in s.handles
    ensures Charged(AddHandle(s, key, hash, charge))
  {
    var t := AddHandle(s, key, hash, charge);
    ChargeSnoc(t.handles, s.inUse, s.nextId);
    ChargeSame(s.handles, t.handles, s.lru);
    ChargeSame(s.handles, t.handles, s.inUse);
  }

  lemma {:induction false} AddTabled(s: State, key: Key, hash: nat, charge: nat)
    requires Tabled(s) && s.nextId !in s.handles && forall e :: e in s.slots ==> !Same(e, key, hash)
    ensures Tabled(AddHandle(s, key, hash, charge))
  {
  }

  lemma {:induction false} AddOk(s: State, key: Key, hash: nat, charge: nat)
    requires Ok(s) && forall e :: e in s.slots ==> !Same(e, key, hash)
    ensures Ok(AddHandle(s, key, hash, charge))
  {
    AddCounted(s, key, hash, charge);
    assert DeletedOnce(AddHandle(s, key, hash, charge));
    hide Listed, Charged, Tabled, Counted, DeletedOnce;
    AddListed(s, key, hash, charge);
    AddCharged(s, key, hash, charge);
    AddTabled(s, key, hash, charge);
  }

  /** Adding first and erasing the replaced handle then, as the code does, is erasing first. */
  lemma {:induction false} AddThenErase(s: State, key: Key, hash: nat, charge: nat, e: Slot)
    requires e.id in s.handles && s.handles[e.id].refs > 0 && e.id < s.nextId
    ensures var added := AddHandle(s, key, hash, charge).(slots := s.slots - {e} + {Slot(key, hash, s.nextId)});
            e.id in added.handles && added.handles[e.id].refs > 0
            && FinishErase(added, e.id) == AddHandle(FinishErase(s.(slots := s.slots - {e}), e.id), key, hash, charge)
  {
    var id, n, rest := e.id, s.nextId, s.(slots := s.slots - {e});
    var added := AddHandle(s, key, hash, charge).(slots := s.slots - {e} + {Slot(key, hash, n)});
    assert added == AddHandle(rest, key, hash, charge);
    AddThenDetach(rest, key, hash, charge, id);
    AddThenUnref(Detached(rest, id), key, hash, charge, id);
  }

  lemma {:induction false} AddThenDetach(s: State, key: Key, hash: nat, charge: nat, id: nat)
    requires id in s.handles && id < s.nextId
    ensures Detached(AddHandle(s, key, hash, charge), id) == AddHandle(Detached(s, id), key, hash, charge)
  {
    WithoutSnoc(s.inUse, id, s.nextId);
    hide Without;
    var a, b := Detached(AddHandle(s, key, hash, charge), id), AddHandle(Detached(s, id), key, hash, charge);
    assert a.handles == b.handles;
  }

  lemma {:induction false} AddThenUnref(s: State, key: Key, hash: nat, charge: nat, id: nat)
    requires id in s.handles && s.handles[id].refs > 0 && !s.handles[id].inCache && id < s.nextId
    ensures Unref(AddHandle(s, key, hash, charge), id) == AddHandle(Unref(s, id), key, hash, charge)
  {
    var a, b := Unref(AddHandle(s, key, hash, charge), id), AddHandle(Unref(s, id), key, hash, charge);
    assert a.handles == b.handles;
  }

  lemma {:induction false} WithoutSnoc(list: seq<nat>, id: nat, n: nat)
    requires id != n
    ensures Without(list + [n], id) == Without(list, id) + [n]
  {
    assert (list + [n])[..|list|] == list;
  }

  lemma {:induction false} SlotFacts(s: State, e: Slot)
    requires Ok(s) && e in s.slots
    ensures e.id in s.handles && s.handles[e.id].refs > 0 && e.id < s.nextId && s.handles[e.id].inCache
    ensures e == SlotFor(s, e.id)
  {
    hide Listed, Charged;
  }

  lemma {:induction false} ReplaceOk(s: State, key: Key, hash: nat, charge: nat, e: Slot)
    requires Ok(s) && e in s.slots && Same(e, key, hash)
    ensures var t := FinishErase(s.(slots := s.slots - {e}), e.id);
            e.id in s.handles && s.handles[e.id].refs > 0 && Ok(AddHandle(t, key, hash, charge))
  {
    EraseOk(s, e);
    var t := FinishErase(s.(slots := s.slots - {e}), e.id);
    assert t.slots == s.slots - {e};
    assert forall d :: d in t.slots ==> !Same(d, key, hash);
    AddOk(t, key, hash, charge);
  }

  lemma {:induction false} ReplaceWhole(s: State, added: State, key: Key, hash: nat, charge: nat, e: Slot)
    requires Ok(s) && e in s.slots && Same(e, key, hash)
    requires added == AddHandle(s, key, hash, charge).(slots := s.slots - {e} + {Slot(key, hash, s.nextId)})
    ensures e.id in added.handles && added.handles[e.id].refs > 0
    ensures var t := FinishErase(added, e.id);
            Ok(t) && t.held == added.held && t.slots == added.slots && t.lru == Without(s.lru, e.id)
  {
    hide Ok;
    SlotFacts(s, e);
    AddThenErase(s, key, hash, charge, e);
    ReplaceOk(s, key, hash, charge, e);
    EraseKeepsHeld(added, e.id);
  }

  /** Erasing the handle of a slot. */
  lemma {:induction false} EraseFacts(s: State, e: Slot)
    requires Ok(s) && e in s.slots
    ensures e.id in s.handles && s.handles[e.id].refs > 0
    ensures var t := FinishErase(s.(slots := s.slots - {e}), e.id);
            && Ok(t) && t.held == s.held && t.slots == s.slots - {e} && t.usage == s.usage - s.handles[e.id].charge
            && (forall x :: x in t.handles <==> x in s.handles && (x == e.id ==> x in s.held))
            && t.deleted == s.deleted + (if e.id in s.held then [] else [e.id]) && Alike(s.handles, t.handles)
  {
    SlotFacts(s, e);
    EraseOk(s, e);
    OkRefs(s, e.id);
    hide Ok, FinishErase;
    var t := s.(slots := s.slots - {e});
    EraseEffect(t, e.id);
    EraseKeepsHeld(t, e.id);
  }

  /** Evicting the handle at the front of its list. */
  lemma {:induction false} EvictFacts(s: State, id: nat)
    requires Ok(s) && id in s.lru
    ensures id in s.handles && SlotFor(s, id) in s.slots && OnePerKey(s.slots) && s.handles[id].refs > 0
    ensures var t := FinishErase(s.(slots := s.slots - {SlotFor(s, id)}), id);
            && Ok(t) && t.held == s.held && t.nextId == s.nextId && t.slots == s.slots - {SlotFor(s, id)}
            && t.lru == Without(s.lru, id) && t.usage == s.usage - s.handles[id].charge && t.handles == s.handles - {id}
            && t.deleted == s.deleted + [id]
  {
    assert id in s.handles && s.handles[id].refs == 1 && SlotFor(s, id) in s.slots && OnePerKey(s.slots);
    hide Ok, Listed, Charged, Tabled, Counted, DeletedOnce;
    EraseOk(s, SlotFor(s, id));
    hide Without;
  }

  lemma {:induction false} OkNoRepeats(s: State)
    requires Ok(s)
    ensures NoRepeats(s.lru)
  {
  }

  lemma {:induction false} UnusedThere(s: State)
    requires Ok(s)
    ensures forall x :: x in s.lru ==> x in s.handles && x < s.nextId
  {
  }

  /** A handle for the key has been inserted; a replaced handle and the evicted ones have left. */
  ghost predicate Inserted(s: State, t: State, key: Key, hash: nat, charge: nat, cached: bool, replaced: Option<nat>,
                           evicted: seq<nat>)
  {
    && Replaces(s, key, hash, cached, replaced)
    && NewHandle(s, t, key, hash, charge, cached)
    && SlotsAfter(s, t, Slot(key, hash, s.nextId), cached, replaced, evicted)
    && HandlesAfter(s, t, replaced, evicted)
    && t.usage == s.usage + (if cached then charge else 0)
                  - (if replaced.Some? then s.handles[replaced.value].charge else 0) - Charge(s.handles, evicted)
    && evicted + t.lru == if replaced.Some? then Without(s.lru, replaced.value) else s.lru
  }

  /** The handle replaced is the one the table had for the key, if it had one. */
  ghost predicate Replaces(s: State, key: Key, hash: nat, cached: bool, replaced: Option<nat>)
  {
    && (replaced.Some? ==> cached && replaced.value in s.handles && Slot(key, hash, replaced.value) in s.slots)
    && (cached && replaced.None? ==> forall e :: e in s.slots ==> !Same(e, key, hash))
  }

  ghost predicate NewHandle(s: State, t: State, key: Key, hash: nat, charge: nat, cached: bool)
  {
    var id := s.nextId;
    && id !in s.handles && id in t.handles && id !in t.lru && t.handles[id].key == key && t.handles[id].hash == hash
    && t.handles[id].charge == charge && (t.handles[id].inCache <==> cached)
  }

  ghost predicate SlotsAfter(s: State, t: State, slot: Slot, cached: bool, replaced: Option<nat>, evicted: seq<nat>)
  {
    forall e :: e in t.slots <==>
      (cached && e == slot) || (e in s.slots && e.id !in evicted && replaced != Some(e.id))
  }

  /** A replaced handle stays while a client holds it; the others keep their key and charge. */
  ghost predicate HandlesAfter(s: State, t: State, replaced: Option<nat>, evicted: seq<nat>)
  {
    && (forall x :: x in t.handles <==>
          x == s.nextId || (x in s.handles && x !in evicted && (replaced == Some(x) ==> x in s.held)))
    && Alike(s.handles, t.handles)
  }

  ghost predicate Evicts(s: State, t: State, evicted: seq<nat>)
  {
    && (forall e :: e in t.slots <==> e in s.slots && e.id !in evicted)
    && t.usage == s.usage - Charge(s.handles, evicted)
    && (forall x :: x in t.handles <==> x in s.handles && x !in evicted)
    && (forall x :: x in t.handles ==> t.handles[x] == s.handles[x])
    && evicted + t.lru == s.lru
  }

  lemma {:induction false} EvictsNone(s: State)
    ensures Evicts(s, s, [])
  {
    assert [] + s.lru == s.lru;
  }

  lemma {:induction false} EvictsOneMore(s: State, m: State, t: State, evicted: seq<nat>)
    requires Evicts(s, m, evicted) && m.lru != [] && m.lru[0] in m.handles
    requires forall e :: e in m.slots ==> e.id in m.handles && e == SlotFor(m, e.id)
    requires t.slots == m.slots - {SlotFor(m, m.lru[0])} && t.handles == m.handles - {m.lru[0]} && t.lru == m.lru[1..]
    requires t.usage == m.usage - m.handles[m.lru[0]].charge
    ensures Evicts(s, t, evicted + [m.lru[0]])
    ensures m.lru[0] in s.handles && s.handles[m.lru[0]] == m.handles[m.lru[0]]
  {
    var x := m.lru[0];
    ChargeSnoc(s.handles, evicted, x);
    assert evicted + [x] + t.lru == evicted + m.lru;
    forall e ensures e in t.slots <==> e in s.slots && e.id !in evicted + [x] {}
  }

  lemma {:induction false} PrunedAll(s: State, t: State, gone: seq<nat>)
    requires Evicts(s, t, gone) && t.lru == []
    ensures Evicts(s, t, s.lru)
  {
    assert gone == s.lru;
  }

  lemma {:induction false} EvictedThere(s: State, t: State, evicted: seq<nat>)
    requires Evicts(s, t, evicted)
    ensures forall x :: x in evicted ==> x in s.lru
  {
    forall x | x in evicted ensures x in s.lru { assert x in evicted + t.lru; }
  }

  lemma {:induction false} InsertThenEvict(s: State, m: State, t: State, key: Key, hash: nat, charge: nat, cached: bool,
                                           replaced: Option<nat>, evicted: seq<nat>)
    requires Inserted(s, m, key, hash, charge, cached, replaced, []) && Evicts(m, t, evicted)
    requires forall x :: x in m.lru ==> x in s.handles && x in m.handles && m.handles[x] == s.handles[x]
    ensures Inserted(s, t, key, hash, charge, cached, replaced, evicted)
  {
    forall x | x in evicted || x in t.lru ensures x in m.lru { assert x in evicted + t.lru; }
    EvictedCharge(s.handles, m.handles, evicted, t.lru, m.lru);
    assert [] + m.lru == m.lru && Charge(s.handles, []) == 0;
    SlotsThenEvict(s, m, t, Slot(key, hash, s.nextId), cached, replaced, evicted);
    HandlesThenEvict(s, m, t, replaced, evicted);
    hide Without, SlotsAfter, HandlesAfter, Charge;
  }

  lemma {:induction false} SlotsThenEvict(s: State, m: State, t: State, slot: Slot, cached: bool, replaced: Option<nat>,
                                          evicted: seq<nat>)
    requires SlotsAfter(s, m, slot, cached, replaced, []) && slot.id !in evicted
    requires forall e :: e in t.slots <==> e in m.slots && e.id !in evicted
    ensures SlotsAfter(s, t, slot, cached, replaced, evicted)
  {
  }

  lemma {:induction false} HandlesThenEvict(s: State, m: State, t: State, replaced: Option<nat>, evicted: seq<nat>)
    requires HandlesAfter(s, m, replaced, []) && s.nextId !in evicted
    requires forall x :: x in t.handles <==> x in m.handles && x !in evicted
    requires forall x :: x in t.handles ==> t.handles[x] == m.handles[x]
    ensures HandlesAfter(s, t, replaced, evicted)
  {
  }

  /** The handle that was in the key's place leaves. */
  lemma {:induction false} ReplaceInserts(s: State, added: State, key: Key, hash: nat, charge: nat, e: Slot)
    requires Ok(s) && e in s.slots && Same(e, key, hash)
    requires added == AddHandle(s, key, hash, charge).(slots := s.slots - {e} + {Slot(key, hash, s.nextId)})
    requires e.id in added.handles && added.handles[e.id].refs > 0
    ensures Inserted(s, FinishErase(added, e.id), key, hash, charge, true, Some(e.id), [])
  {
    OkSlots(s);
    SlotFacts(s, e);
    ReplaceUnused(s, added, key, hash, charge, e);
    ReplacedHandles(s, added, key, hash, charge, e);
    hide Ok, FinishErase, Without, HandlesAfter, Inserted, OnePerKey;
    EraseEffect(added, e.id);
    EraseKeepsHeld(added, e.id);
    forall d | d in s.slots && d.id == e.id ensures d == e { assert d == SlotFor(s, e.id); }
    ReplacedIs(s, FinishErase(added, e.id), key, hash, charge, e);
  }

  lemma {:induction false} ReplacedIs(s: State, t: State, key: Key, hash: nat, charge: nat, e: Slot)
    requires HandlesAfter(s, t, Some(e.id), []) && e in s.slots && Same(e, key, hash) && e.id in s.handles
    requires forall d :: d in s.slots && d.id == e.id ==> d == e
    requires s.nextId !in s.handles && s.nextId !in t.lru && s.nextId in t.handles
    requires t.handles[s.nextId] == Handle(key, hash, charge, 2, true)
    requires t.slots == s.slots - {e} + {Slot(key, hash, s.nextId)} && t.lru == Without(s.lru, e.id)
    requires t.usage == s.usage + charge - s.handles[e.id].charge
    ensures Inserted(s, t, key, hash, charge, true, Some(e.id), [])
  {
    hide Without, HandlesAfter;
    assert [] + t.lru == t.lru;
  }

  lemma {:induction false} ReplacedHandles(s: State, added: State, key: Key, hash: nat, charge: nat, e: Slot)
    requires Ok(s) && e in s.slots
    requires added == AddHandle(s, key, hash, charge).(slots := s.slots - {e} + {Slot(key, hash, s.nextId)})
    requires e.id in added.handles && added.handles[e.id].refs > 0
    ensures HandlesAfter(s, FinishErase(added, e.id), Some(e.id), [])
  {
    OkSlots(s);
    SlotFacts(s, e);
    OkRefs(s, e.id);
    hide Ok, FinishErase, Without, OnePerKey, HandlesAfter, Alike;
    EraseEffect(added, e.id);
    StaysIfHeld(s, added, FinishErase(added, e.id), e.id);
  }

  lemma {:induction false} StaysIfHeld(s: State, added: State, t: State, id: nat)
    requires s.nextId !in s.handles && s.nextId in added.handles && id in s.handles
    requires added.handles == s.handles[s.nextId := added.handles[s.nextId]]
    requires s.handles[id].refs == s.held[id] + 1 && Alike(added.handles, t.handles)
    requires forall x :: x in t.handles <==> x in added.handles && (x == id ==> added.handles[id].refs > 1)
    ensures HandlesAfter(s, t, Some(id), [])
  {
  }

  lemma {:induction false} AddInserts(s: State, key: Key, hash: nat, charge: nat)
    requires Ok(s) && forall e :: e in s.slots ==> !Same(e, key, hash)
    ensures Inserted(s, AddHandle(s, key, hash, charge), key, hash, charge, true, None, [])
  {
    OkSlots(s);
    UnusedThere(s);
    hide Ok, Without, OnePerKey, Inserted, SlotFor;
    AddsNew(s, key, hash, charge);
  }

  lemma {:induction false} AddsNew(s: State, key: Key, hash: nat, charge: nat)
    requires s.nextId !in s.handles && s.nextId !in s.lru && forall e :: e in s.slots ==> !Same(e, key, hash)
    ensures Inserted(s, AddHandle(s, key, hash, charge), key, hash, charge, true, None, [])
  {
    hide Without;
    assert [] + s.lru == s.lru;
  }

  lemma {:induction false} UncachedInserts(s: State, t: State, key: Key, hash: nat, charge: nat)
    requires Ok(s) && t.handles == s.handles[s.nextId := Handle(key, hash, charge, 1, false)]
    requires t.slots == s.slots && t.lru == s.lru && t.usage == s.usage
    ensures Inserted(s, t, key, hash, charge, false, None, [])
  {
    OkSlots(s);
    UnusedThere(s);
    hide Ok, Without;
    assert [] + s.lru == s.lru;
  }

  /** Adding a handle leaves the handles that nobody uses alone. */
  lemma {:induction false} AddUnused(s: State, key: Key, hash: nat, charge: nat)
    requires Ok(s)
    ensures s.nextId !in s.lru
    ensures forall x :: x in s.lru ==> x in s.handles && AddHandle(s, key, hash, charge).handles[x] == s.handles[x]
  {
    UnusedThere(s);
    hide Ok;
  }

  lemma {:induction false} ReplaceUnused(s: State, added: State, key: Key, hash: nat, charge: nat, e: Slot)
    requires Ok(s) && e in s.slots
    requires added == AddHandle(s, key, hash, charge).(slots := s.slots - {e} + {Slot(key, hash, s.nextId)})
    requires e.id in added.handles && added.handles[e.id].refs > 0
    ensures var t := FinishErase(added, e.id);
            s.nextId !in t.lru && forall x :: x in t.lru ==>
                x in s.handles && x in t.handles && t.handles[x] == s.handles[x]
  {
    SlotFacts(s, e);
    UnusedThere(s);
    WithoutMembers(s.lru, e.id) by { OkNoRepeats(s); }
    hide Ok, Without;
  }

  /** A handle that was looked up is not evictable. */
  lemma {:induction false} LookupPlace(s: State, e: Slot)
    requires Ok(s) && e in s.slots
    ensures e.id in s.handles && s.handles[e.id].inCache && e == SlotFor(s, e.id)
    ensures var t := Ref(s, e.id);
            && t.lru == Without(s.lru, e.id) && e.id !in t.lru
            && e.id in t.handles && t.handles[e.id] == s.handles[e.id].(refs := s.handles[e.id].refs + 1)
            && t.handles.Keys == s.handles.Keys && Alike(s.handles, t.handles) && t.usage == s.usage
            && t.deleted == s.deleted
  {
    SlotFacts(s, e);
    WithoutMembers(s.lru, e.id) by { OkNoRepeats(s); }
    ListedPlace(s, e.id);
    hide Ok;
    if e.id !in s.lru { WithoutAbsent(s.lru, e.id); }
    hide Without;
  }

  lemma {:induction false} WithoutAbsent(list: seq<nat>, id: nat)
    requires id !in list
    ensures Without(list, id) == list
  {
    if list != [] {
      WithoutAbsent(list[..|list| - 1], id);
    }
  }

  lemma {:induction false} NotCached(s: State, key: Key, hash: nat)
    requires Ok(s) && forall e :: e in s.slots ==> !Same(e, key, hash)
    ensures forall id :: id in s.handles && s.handles[id].inCache ==>
            !(s.handles[id].key == key && s.handles[id].hash == hash)
  {
    forall id | id in s.handles && s.handles[id].inCache
        ensures !(s.handles[id].key == key && s.handles[id].hash == hash) {
      assert SlotFor(s, id) in s.slots;
    }
  }

  /** A handle whose last client lets go becomes evictable, last in line, if it is cached, and
      is deleted otherwise. */
  lemma {:induction false} ReleasePlace(s: State, id: nat)
    requires Ok(s) && id in s.held
    ensures id in s.handles && s.handles[id].refs > 0
    ensures var t := Unref(s.(held := s.held - multiset{id}), id);
            && t.held == s.held - multiset{id} && t.slots == s.slots
            && t.lru == s.lru + (if id in t.handles && t.handles[id].inCache && id !in t.held then [id] else [])
            && t.deleted == s.deleted + (if id in t.handles then [] else [id])
            && (id in t.handles <==> id in t.held || s.handles[id].inCache)
            && t.handles.Keys + {id} == s.handles.Keys && Alike(s.handles, t.handles) && t.usage == s.usage
  {
    PositiveRefs(s, id) by { OkCounted(s, id); }
    OkRefs(s, id);
    hide Ok;
    var held := s.held - multiset{id};
    assert held[id] == s.held[id] - 1;
    hide Without;
  }

  lemma {:induction false} OkRefs(s: State, id: nat)
    requires Ok(s) && id in s.handles
    ensures s.handles[id].refs == s.held[id] + if s.handles[id].inCache then 1 else 0
  {
  }

  /** The table's slot for a handle. */
  lemma {:induction false} OkSlots(s: State)
    requires Ok(s)
    ensures forall e :: e in s.slots ==> e.id in s.handles && e == SlotFor(s, e.id)
    ensures s.nextId !in s.handles && OnePerKey(s.slots)
  {
  }

  lemma {:induction false} OkCounted(s: State, id: nat)
    requires Ok(s) && id in s.held
    ensures Counted(s) && id in s.handles
  {
  }

  // ----- the shard

  class LRUCache {
    var capacity: nat
    var handles: map<nat, Handle>
    var lru: seq<nat>
    var inUse: seq<nat>
    var usage: int
    var nextId: nat
    var deleted: seq<nat>           // deleters that have run
    const table: HandleTable
    ghost var held: multiset<nat>   // references that clients hold

    ghost function Model(): State
      reads this, table
    {
      State(handles, lru, inUse, usage, table.Slots(), held, deleted, nextId)
    }

    ghost predicate Valid()
      reads this, table
    {
      table.Valid() && Ok(Model())
    }

    constructor (capacity: nat)
      ensures Valid() && this.capacity == capacity && held == multiset{} && usage == 0 && fresh(table)
    {
      this.capacity := capacity;
      handles, lru, inUse, usage, nextId, deleted := map[], [], [], 0, 0, [];
      held := multiset{};
      table := new HandleTable();
    }

    method RefHandle(id: nat)
      requires id in handles
      modifies this`handles, this`lru, this`inUse
      ensures Model() == Ref(old(Model()), id)
    {
      var h := handles[id];
      if h.refs == 1 && h.inCache {
        lru := Without(lru, id);
        inUse := inUse + [id];
      }
      handles := handles[id := h.(refs := h.refs + 1)];
    }

    method UnrefHandle(id: nat)
      requires id in handles && handles[id].refs > 0
      modifies this`handles, this`lru, this`inUse, this`deleted
      ensures Model() == Unref(old(Model()), id)
    {
      var h := handles[id];
      h := h.(refs := h.refs - 1);
      if h.refs == 0 {
        deleted := deleted + [id];
        handles := handles - {id};
      } else {
        handles := handles[id := h];
        if h.inCache && h.refs == 1 {
          inUse := Without(inUse, id);
          lru := lru + [id];
        }
      }
    }

    method FinishEraseHandle(id: nat)
      requires id in handles && handles[id].refs > 0
      modifies this`handles, this`lru, this`inUse, this`deleted, this`usage
      ensures Model() == FinishErase(old(Model()), id)
    {
      var h := handles[id];
      lru, inUse := Without(lru, id), Without(inUse, id);
      handles := handles[id := h.(inCache := false)];
      usage := usage - h.charge;
      UnrefHandle(id);
    }

    method Lookup(key: Key, hash: nat) returns (r: Option<nat>)
      requires Valid()
      modifies this
      ensures Valid() && table.Slots() == old(table.Slots())
      ensures r.Some? ==>
              r.value in handles && handles[r.value].key == key && handles[r.value].hash == hash
                  && handles[r.value].inCache
      ensures r.Some? ==> held == old(held) + multiset{r.value} && r.value !in lru && lru == Without(old(lru), r.value)
      ensures handles.Keys == old(handles).Keys && Alike(old(handles), handles)
      ensures usage == old(usage) && deleted == old(deleted) && capacity == old(capacity)
      ensures r.None? ==> Model() == old(Model()) && forall id :: id in handles && handles[id].inCache ==>
              !(handles[id].key == key && handles[id].hash == hash)
    {
      hide Ok, Ref, Without, SlotsOf;
      ghost var s := Model();
      var slot := table.Lookup(key, hash);
      if slot.Some? {
        var id := slot.value.id;
        LookupPlace(s, slot.value);
        LookupOk(s, id);
        RefHandle(id);
        held := held + multiset{id};
        r := Some(id);
      } else {
        NotCached(s, key, hash);
        r := None;
      }
    }

    method Release(id: nat)
      requires Valid() && id in held
      modifies this
      ensures Valid() && held == old(held) - multiset{id} && table.Slots() == old(table.Slots())
      ensures lru == old(lru) + if id in handles && handles[id].inCache && id !in held then [id] else []
      ensures deleted == old(deleted) + if id in handles then [] else [id]
      ensures id in old(handles) && (id in handles <==> id in held || old(handles)[id].inCache)
      ensures handles.Keys + {id} == old(handles).Keys && Alike(old(handles), handles)
      ensures usage == old(usage) && capacity == old(capacity)
    {
      hide Ok, Unref, Without, SlotsOf;
      ReleaseOk(Model(), id);
      ReleasePlace(Model(), id);
      held := held - multiset{id};
      UnrefHandle(id);
    }

    method Erase(key: Key, hash: nat) returns (ghost erased: Option<nat>)
      requires Valid()
      modifies this, table
      ensures Valid() && held == old(held)
      ensures forall e :: e in table.Slots() <==> e in old(table.Slots()) && !Same(e, key, hash)
      ensures erased.Some? <==> exists e :: e in old(table.Slots()) && Same(e, key, hash)
      ensures erased.Some? ==> Slot(key, hash, erased.value) in old(table.Slots()) && erased.value in old(handles)
      ensures usage == old(usage) - if erased.Some? then old(handles)[erased.value].charge else 0
      ensures forall x :: x in handles <==> x in old(handles) && (erased == Some(x) ==> x in held)
      ensures deleted == old(deleted) + if erased.Some? && erased.value !in held then [erased.value] else []
      ensures Alike(old(handles), handles) && capacity == old(capacity)
    {
      hide Ok, FinishErase, SlotsOf;
      ghost var s := Model();
      OkSlots(s);
      var slot := table.Remove(key, hash);
      erased := None;
      if slot.Some? {
        EraseFacts(s, slot.value);
        FinishEraseHandle(slot.value.id);
        erased := Some(slot.value.id);
      }
    }

    /** Evicts the oldest handle that nobody uses. */
    method EvictOldest()
      requires Valid() && lru != []
      modifies this, table
      ensures Valid() && held == old(held) && lru == old(lru)[1..] && deleted == old(deleted) + [old(lru)[0]]
      ensures nextId == old(nextId) && capacity == old(capacity) && old(lru)[0] in old(handles)
      ensures table.Slots() == old(table.Slots() - {SlotFor(Model(), lru[0])})
      ensures usage == old(usage - handles[lru[0]].charge) && handles == old(handles) - {old(lru)[0]}
    {
      hide Ok, FinishErase, SlotsOf;
      var id := lru[0];
      ghost var s := Model();
      EvictFacts(s, id);
      WithoutFirst(lru) by { OkNoRepeats(s); }
      var slot := table.Remove(handles[id].key, handles[id].hash);
      assert slot == Some(SlotFor(s, id));
      FinishEraseHandle(slot.value.id);
    }

    /** The handle replaces one with its key. Then the handles that nobody uses are evicted,
        the one unused for longest first, and no more than needed: afterwards usage fits the
        capacity or nothing is left to evict. */
    method Insert(key: Key, hash: nat, charge: nat)
      returns (id: nat, ghost replaced: Option<nat>, ghost evicted: seq<nat>)
      requires Valid()
      modifies this, table
      ensures Valid() && id == old(nextId) && held == old(held) + multiset{id} && capacity == old(capacity)
      ensures Inserted(old(Model()), Model(), key, hash, charge, capacity > 0, replaced, evicted)
      ensures usage <= capacity || lru == []
      ensures evicted != [] ==>
              var x := evicted[|evicted| - 1]; x in old(handles) && usage + old(handles)[x].charge > capacity
    {
      hide Ok, SlotsOf, Inserted, Evicts;
      ghost var s := Model();
      id, replaced := nextId, None;
      if capacity > 0 {
        replaced := InsertCached(key, hash, charge);
      } else {
        InsertUncached(key, hash, charge);
      }
      ghost var m := Model();
      evicted := EvictToFit();
      InsertThenEvict(s, m, Model(), key, hash, charge, capacity > 0, replaced, evicted);
      EvictedThere(m, Model(), evicted);
    }

    method EvictToFit() returns (ghost evicted: seq<nat>)
      requires Valid()
      modifies this, table
      ensures Valid() && held == old(held) && nextId == old(nextId) && capacity == old(capacity)
      ensures usage <= capacity || lru == []
      ensures Evicts(old(Model()), Model(), evicted)
      ensures evicted != [] ==>
              var x := evicted[|evicted| - 1]; x in old(handles) && usage + old(handles)[x].charge > capacity
    {
      hide Ok, SlotsOf, Evicts;
      evicted := [];
      EvictsNone(Model());
      while usage > capacity && lru != []
        invariant Valid() && held == old(held) && nextId == old(nextId) && capacity == old(capacity)
        invariant Evicts(old(Model()), Model(), evicted)
        invariant evicted != [] ==>
                  var x := evicted[|evicted| - 1]; x in old(handles) && usage + old(handles)[x].charge > capacity
        decreases |lru|
      {
        ghost var m := Model();
        OkSlots(m);
        EvictOldest();
        EvictsOneMore(old(Model()), m, Model(), evicted);
        evicted := evicted + [m.lru[0]];
      }
    }

    method InsertCached(key: Key, hash: nat, charge: nat) returns (ghost replaced: Option<nat>)
      requires Valid()
      modifies this, table
      ensures Valid() && held == old(held) + multiset{old(nextId)} && capacity == old(capacity)
      ensures Inserted(old(Model()), Model(), key, hash, charge, true, replaced, [])
      ensures forall x :: x in lru ==> x in handles && x in old(handles) && handles[x] == old(handles)[x]
    {
      hide Ok, FinishErase, SlotsOf, Inserted;
      var id := nextId;
      ghost var s := Model();
      var slot := table.Insert(Slot(key, hash, id));
      InsertHandle(key, hash, charge);
      replaced := None;
      if slot.Some? {
        ReplaceWhole(s, Model(), key, hash, charge, slot.value);
        ReplaceUnused(s, Model(), key, hash, charge, slot.value);
        ReplaceInserts(s, Model(), key, hash, charge, slot.value);
        FinishEraseHandle(slot.value.id);
        replaced := Some(slot.value.id);
      } else {
        AddOk(s, key, hash, charge);
        AddUnused(s, key, hash, charge);
        AddInserts(s, key, hash, charge);
      }
    }

    method InsertUncached(key: Key, hash: nat, charge: nat)
      requires Valid()
      modifies this
      ensures Valid() && held == old(held) + multiset{old(nextId)} && capacity == old(capacity)
      ensures Inserted(old(Model()), Model(), key, hash, charge, false, None, [])
      ensures forall x :: x in lru ==> x in handles && x in old(handles) && handles[x] == old(handles)[x]
    {
      hide Ok, SlotsOf, Inserted;
      ghost var s := Model();
      OkSlots(s);
      UnusedThere(s);
      var id := nextId;
      UncachedOk(s, key, hash, charge);
      handles := handles[id := Handle(key, hash, charge, 1, false)];
      nextId := id + 1;
      held := held + multiset{id};
      UncachedInserts(s, Model(), key, hash, charge);
    }

    method InsertHandle(key: Key, hash: nat, charge: nat)
      modifies this
      ensures Model() == AddHandle(old(Model()), key, hash, charge).(slots := old(table.Slots()))
      ensures capacity == old(capacity)
    {
      var id := nextId;
      handles := handles[id := Handle(key, hash, charge, 2, true)];
      inUse := inUse + [id];
      usage := usage + charge;
      nextId := id + 1;
      held := held + multiset{id};
    }

    method Prune()
      requires Valid()
      modifies this, table
      ensures Valid() && lru == [] && held == old(held) && capacity == old(capacity)
      ensures Evicts(old(Model()), Model(), old(lru))
    {
      hide Ok, SlotsOf, Evicts;
      ghost var gone: seq<nat> := [];
      EvictsNone(Model());
      while lru != []
        invariant Valid() && held == old(held) && capacity == old(capacity) && nextId == old(nextId)
        invariant Evicts(old(Model()), Model(), gone)
        decreases |lru|
      {
        ghost var m := Model();
        OkSlots(m);
        EvictOldest();
        EvictsOneMore(old(Model()), m, Model(), gone);
        gone := gone + [m.lru[0]];
      }
      PrunedAll(old(Model()), Model(), gone);
    }
  }

  lemma {:induction false} WithoutFirst(list: seq<nat>)
    requires list != [] && NoRepeats(list)
    ensures Without(list, list[0]) == list[1..]
  {
    var k := |list| - 1;
    if k > 0 {
      assert list == list[..k] + [list[k]];
      WithoutFirst(list[..k]);
      assert list[..k][1..] + [list[k]] == list[1..];
    }
  }

  /** With no capacity the handle is only the client's. */
  lemma {:induction false} UncachedOk(s: State, key: Key, hash: nat, charge: nat)
    requires Ok(s)
    ensures var id := s.nextId;
            Ok(s.(handles := s.handles[id := Handle(key, hash, charge, 1, false)], held := s.held + multiset{id},
                nextId := id + 1))
  {
    var id := s.nextId;
    var t := s.(handles := s.handles[id := Handle(key, hash, charge, 1, false)], held := s.held + multiset{id},
        nextId := id + 1);
    hide Counted, Listed, Charged, DeletedOnce, Tabled;
    AddCounted(s, key, hash, charge);
    UncachedCounted(s, t, id);
    UncachedListed(s, t, id);
    UncachedTabled(s, t, id);
  }

  lemma {:induction false} UncachedTabled(s: State, t: State, id: nat)
    requires Tabled(s) && DeletedOnce(s) && id !in s.handles && t.slots == s.slots && t.deleted == s.deleted
    requires t.nextId == s.nextId + 1 && id == s.nextId
    requires id in t.handles && t.handles == s.handles[id := t.handles[id]] && !t.handles[id].inCache
    ensures Tabled(t) && DeletedOnce(t)
  {
  }

  lemma {:induction false} UncachedCounted(s: State, t: State, id: nat)
    requires Counted(s) && id !in s.handles && id !in s.held && t.held == s.held + multiset{id} && id == s.nextId
    requires t.nextId == id + 1
    requires id in t.handles && t.handles == s.handles[id := t.handles[id]] && t.handles[id].refs == 1
    requires !t.handles[id].inCache
    ensures Counted(t)
  {
  }

  lemma {:induction false} UncachedListed(s: State, t: State, id: nat)
    requires Listed(s) && Charged(s) && id !in s.handles && t.lru == s.lru && t.inUse == s.inUse && t.usage == s.usage
    requires id in t.handles && t.handles == s.handles[id := t.handles[id]] && !t.handles[id].inCache
    ensures Listed(t) && Charged(t)
  {
    ChargeSame(s.handles, t.handles, s.lru);
    ChargeSame(s.handles, t.handles, s.inUse);
  }

  lemma {:induction false} EraseKeepsHeld(s: State, id: nat)
    requires id in s.handles && s.handles[id].refs > 0
    ensures FinishErase(s, id).held == s.held && FinishErase(s, id).slots == s.slots
    ensures FinishErase(s, id).nextId == s.nextId
    ensures FinishErase(s, id).lru == Without(s.lru, id)
  {
  }

  lemma {:induction false} EvictedCharge(was: map<nat, Handle>, mid: map<nat, Handle>, evicted: seq<nat>,
                                         rest: seq<nat>,
                                         line: seq<nat>)
    requires evicted + rest == line && forall x :: x in line ==> x in mid && x in was && mid[x] == was[x]
    ensures Charge(mid, evicted) == Charge(was, evicted)
  {
    forall x | x in evicted ensures ChargeOf(mid, x) == ChargeOf(was, x) {
      assert x in evicted + rest;
    }
    ChargeSame(mid, was, evicted);
  }
}
