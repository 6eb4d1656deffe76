/** The cache's hash table: chains of handles, doubled when it holds more handles than
    chains. */
module HandleTables {
  import opened Wrappers

  type Key = seq<int>

  /** A handle in the table: its key, the key's hash and the handle's number. */
  datatype Slot = Slot(key: Key, hash: nat, id: nat)

  ghost function SlotsOf(chains: seq<seq<Slot>>): set<Slot>
  {
    set i, e | 0 <= i < |chains| && e in chains[i] :: e
  }

  /** Handles sit in the chain their hash selects, no key twice in a chain. */
  ghost predicate Placed(chains: seq<seq<Slot>>)
  {
    && |chains| > 0
    && (forall i, e :: 0 <= i < |chains| && e in chains[i] ==> e.hash % |chains| == i)
    && (forall i :: 0 <= i < |chains| ==> Distinct(chains[i]))
  }

  ghost predicate Distinct(c: seq<Slot>)
  {
    forall x, y :: 0 <= x < y < |c| ==> !Same(c[x], c[y].key, c[y].hash)
  }

  lemma {:induction false} DistinctAt(c: seq<Slot>, x: nat, y: nat)
    requires Distinct(c) && x < |c| && y < |c|
    ensures x == y || !Same(c[x], c[y].key, c[y].hash)
  {
  }

  predicate Same(e: Slot, key: Key, hash: nat)
  {
    e.hash == hash && e.key == key
  }

  /** At most one handle per key and hash. */
  ghost predicate OnePerKey(S: set<Slot>)
  {
    forall d, e :: d in S && e in S && d.key == e.key && d.hash == e.hash ==> d == e
  }

  /** Where in a chain the handle of a key is, or the chain's end. */
  method FindPointer(chain: seq<Slot>, key: Key, hash: nat) returns (x: nat)
    ensures x <= |chain| && (forall y :: 0 <= y < x ==> !Same(chain[y], key, hash))
    ensures (x < |chain| ==> Same(chain[x], key, hash))
  {
    x := 0;
    while x < |chain| && !Same(chain[x], key, hash)
      invariant x <= |chain| && forall y :: 0 <= y < x ==> !Same(chain[y], key, hash)
    {
      x := x + 1;
    }
  }

  class HandleTable {
    var chains: seq<seq<Slot>>
    var elems: nat

    /** No more handles than chains. */
    ghost predicate Valid()
      reads this
    {
      Sound() && elems <= |chains|
    }

    ghost predicate Sound()
      reads this
    {
      Placed(chains) && elems == |SlotsOf(chains)|
    }

    ghost function Slots(): set<Slot>
      reads this
    {
      SlotsOf(chains)
    }

    constructor ()
      ensures Valid() && Slots() == {}
    {
      chains, elems := [[], [], [], []], 0;
      new;
      assert SlotsOf(chains) == {};
    }

    method Lookup(key: Key, hash: nat) returns (r: Option<Slot>)
      requires Valid()
      ensures r.Some? ==> r.value in Slots() && Same(r.value, key, hash)
      ensures r.None? ==> forall e :: e in Slots() ==> !Same(e, key, hash)
    {
      var i := hash % |chains|;
      var x := FindPointer(chains[i], key, hash);
      if x < |chains[i]| {
        assert chains[i][x] in chains[i];
        r := Some(chains[i][x]);
      } else {
        r := None;
        forall e | e in Slots() ensures !Same(e, key, hash) {
          var j :| 0 <= j < |chains| && e in chains[j];
          var y :| 0 <= y < |chains[j]| && chains[j][y] == e;
          assert j == e.hash % |chains|;
        }
      }
    }

    /** The handle takes the place of one with the same key, which is returned. */
    method Insert(slot: Slot) returns (old_: Option<Slot>)
      requires Valid()
      modifies this
      ensures Valid()
      ensures old_.None? ==> Slots() == old(Slots()) + {slot} && forall e :: e in old(Slots()) ==>
              !Same(e, slot.key, slot.hash)
      ensures old_.Some? ==>
              old_.value in old(Slots()) && Same(old_.value, slot.key, slot.hash)
                  && Slots() == old(Slots()) - {old_.value} + {slot}
    {
      hide Placed;
      PlacedSize(chains);
      var i := slot.hash % |chains|;
      var x := FindPointer(chains[i], slot.key, slot.hash);
      if x < |chains[i]| {
        ReplaceSlot(chains, i, x, slot);
        old_ := Some(chains[i][x]);
        chains := chains[i := chains[i][x := slot]];
      } else {
        AddSlot(chains, i, slot, chains[i] + [slot]);
        old_ := None;
        chains := chains[i := chains[i] + [slot]];
        elems := elems + 1;
        if elems > |chains| {
          Resize();
        }
      }
    }

    method Remove(key: Key, hash: nat) returns (r: Option<Slot>)
      requires Valid()
      modifies this
      ensures Valid()
      ensures r.None? ==> Slots() == old(Slots()) && forall e :: e in Slots() ==> !Same(e, key, hash)
      ensures r.Some? ==> r.value in old(Slots()) && Same(r.value, key, hash) && Slots() == old(Slots()) - {r.value}
    {
      hide Placed;
      PlacedSize(chains);
      var i := hash % |chains|;
      var x := FindPointer(chains[i], key, hash);
      if x < |chains[i]| {
        DropSlot(chains, i, x);
        r := Some(chains[i][x]);
        chains := chains[i := chains[i][..x] + chains[i][x + 1..]];
        elems := elems - 1;
      } else {
        NotThere(chains, key, hash);
        r := None;
      }
    }

    /** The table is made the least size from 4 on, by doubling, that is enough. */
    method Resize()
      requires Sound()
      modifies this`chains
      ensures Valid() && Slots() == old(Slots()) && |chains| >= 4 && (|chains| == 4 || |chains| < 2 * elems)
    {
      var length := 4;
      while length < elems
        invariant length >= 4 && (length == 4 || length < 2 * elems)
      {
        length := length * 2;
      }
      chains := Rehash(chains, length);
    }
  }

  lemma {:induction false} PlacedSize(chains: seq<seq<Slot>>)
    requires Placed(chains)
    ensures |chains| > 0
  {
  }

  lemma {:induction false} NotThere(chains: seq<seq<Slot>>, key: Key, hash: nat)
    requires Placed(chains)
    requires var c := chains[hash % |chains|]; forall y :: 0 <= y < |c| ==> !Same(c[y], key, hash)
    ensures forall e :: e in SlotsOf(chains) ==> !Same(e, key, hash)
  {
    forall e | e in SlotsOf(chains)
      ensures !Same(e, key, hash)
    {
      var j :| 0 <= j < |chains| && e in chains[j];
      var y :| 0 <= y < |chains[j]| && chains[j][y] == e;
      assert j == e.hash % |chains|;
    }
  }

  ghost predicate InOthers(chains: seq<seq<Slot>>, i: nat, e: Slot)
  {
    exists j :: 0 <= j < |chains| && j != i && e in chains[j]
  }

  /** Exchanging one chain exchanges its members only. */
  lemma {:induction false} ExchangeChain(chains: seq<seq<Slot>>, i: nat, c: seq<Slot>, e: Slot)
    requires i < |chains|
    ensures e in SlotsOf(chains[i := c]) <==> e in c || InOthers(chains, i, e)
  {
    var more := chains[i := c];
    if e in c { assert e in more[i]; }
    if InOthers(chains, i, e) {
      var j :| 0 <= j < |chains| && j != i && e in chains[j];
      assert e in more[j];
    }
    if e in SlotsOf(more) {
      var j :| 0 <= j < |more| && e in more[j];
      assert j != i ==> e in chains[j];
    }
  }

  lemma {:induction false} InChain(chains: seq<seq<Slot>>, i: nat, e: Slot)
    requires Placed(chains) && i < |chains|
    ensures e in SlotsOf(chains) <==> e in chains[i] || InOthers(chains, i, e)
    ensures e in chains[i] ==> !InOthers(chains, i, e)
  {
    assert chains[i := chains[i]] == chains;
    ExchangeChain(chains, i, chains[i], e);
  }

  lemma {:induction false} ChainDistinct(chains: seq<seq<Slot>>, i: nat)
    requires Placed(chains) && i < |chains|
    ensures Distinct(chains[i])
  {
  }

  lemma {:induction false} PlacedWith(chains: seq<seq<Slot>>, i: nat, c: seq<Slot>)
    requires Placed(chains) && i < |chains| && Distinct(c) && forall e :: e in c ==> e.hash % |chains| == i
    ensures Placed(chains[i := c])
  {
  }

  lemma {:induction false} ReplaceSlot(chains: seq<seq<Slot>>, i: nat, x: nat, slot: Slot)
    requires Placed(chains) && i < |chains| && slot.hash % |chains| == i && x < |chains[i]|
    requires Same(chains[i][x], slot.key, slot.hash)
    ensures var more := chains[i := chains[i][x := slot]];
            && Placed(more) && SlotsOf(more) == SlotsOf(chains) - {chains[i][x]} + {slot}
               && chains[i][x] in SlotsOf(chains)
            && |SlotsOf(more)| == |SlotsOf(chains)|
  {
    var c, c', was := chains[i], chains[i][x := slot], chains[i][x];
    ChainDistinct(chains, i);
    ReplaceDistinct(c, x, slot);
    assert forall e :: e in c ==> e.hash % |chains| == i;
    PlacedWith(chains, i, c');
    var A, B := SlotsOf(chains), SlotsOf(chains[i := c']);
    hide Placed, InOthers, SlotsOf;
    forall e ensures e in B <==> e in A - {was} + {slot} {
      ExchangeChain(chains, i, c', e);
      InChain(chains, i, e);
    }
    InChain(chains, i, was);
    InChain(chains, i, slot);
    assert B == A - {was} + {slot} && (slot in A ==> slot == was || InOthers(chains, i, slot));
    NotElsewhere(chains, i, slot);
  }

  lemma {:induction false} NotElsewhere(chains: seq<seq<Slot>>, i: nat, e: Slot)
    requires Placed(chains) && i < |chains| && e.hash % |chains| == i
    ensures !InOthers(chains, i, e)
  {
  }

  lemma {:induction false} ReplaceDistinct(c: seq<Slot>, x: nat, slot: Slot)
    requires Distinct(c) && x < |c| && Same(c[x], slot.key, slot.hash)
    ensures Distinct(c[x := slot]) && forall e :: e in c[x := slot] <==> e == slot || (e in c && e != c[x])
    ensures slot in c ==> slot == c[x]
  {
    var c' := c[x := slot];
    forall e ensures e in c' <==> e == slot || (e in c && e != c[x]) {
      if e in c && e != c[x] {
        var y :| 0 <= y < |c| && c[y] == e;
        assert c'[y] == e;
      }
      if e == slot { assert c'[x] == e; }
      if e in c' && e != slot {
        var y :| 0 <= y < |c'| && c'[y] == e;
        assert y != x && c[y] == e;
        DistinctAt(c, x, y);
      }
    }
    if slot in c {
      var y :| 0 <= y < |c| && c[y] == slot;
      DistinctAt(c, x, y);
    }
  }

  /** One more handle in its chain, at either end. */
  lemma {:induction false} AddSlot(chains: seq<seq<Slot>>, i: nat, slot: Slot, c: seq<Slot>)
    requires Placed(chains) && i < |chains| && slot.hash % |chains| == i
    requires (c == chains[i] + [slot] || c == [slot] + chains[i])
    requires forall y :: 0 <= y < |chains[i]| ==> !Same(chains[i][y], slot.key, slot.hash)
    ensures var more := chains[i := c];
            && Placed(more) && SlotsOf(more) == SlotsOf(chains) + {slot} && |SlotsOf(more)| == |SlotsOf(chains)| + 1
            && forall e :: e in SlotsOf(chains) ==> !Same(e, slot.key, slot.hash)
  {
    NotThere(chains, slot.key, slot.hash);
    ChainDistinct(chains, i);
    assert forall e :: e in chains[i] ==> e.hash % |chains| == i;
    AddDistinct(chains[i], slot, c);
    PlacedWith(chains, i, c);
    var A, B := SlotsOf(chains), SlotsOf(chains[i := c]);
    hide Placed, InOthers, SlotsOf;
    forall e ensures e in B <==> e in A + {slot} {
      ExchangeChain(chains, i, c, e);
      InChain(chains, i, e);
    }
    assert B == A + {slot} && slot !in A;
  }

  lemma {:induction false} AddDistinct(chain: seq<Slot>, slot: Slot, c: seq<Slot>)
    requires Distinct(chain) && (c == chain + [slot] || c == [slot] + chain)
    requires forall y :: 0 <= y < |chain| ==> !Same(chain[y], slot.key, slot.hash)
    ensures Distinct(c) && forall e :: e in c <==> e in chain || e == slot
  {
  }

  lemma {:induction false} DropSlot(chains: seq<seq<Slot>>, i: nat, x: nat)
    requires Placed(chains) && i < |chains| && x < |chains[i]|
    ensures var more := chains[i := chains[i][..x] + chains[i][x + 1..]];
            && Placed(more) && SlotsOf(more) == SlotsOf(chains) - {chains[i][x]} && chains[i][x] in SlotsOf(chains)
            && |SlotsOf(more)| == |SlotsOf(chains)| - 1
  {
    var c := chains[i];
    var c', was := c[..x] + c[x + 1..], c[x];
    ChainDistinct(chains, i);
    assert forall e :: e in c ==> e.hash % |chains| == i;
    DropDistinct(c, x, c');
    PlacedWith(chains, i, c');
    var A, B := SlotsOf(chains), SlotsOf(chains[i := c']);
    hide Placed, InOthers, SlotsOf;
    forall e ensures e in B <==> e in A - {was} {
      ExchangeChain(chains, i, c', e);
      InChain(chains, i, e);
    }
    InChain(chains, i, was);
    assert B == A - {was};
  }

  lemma {:induction false} DropDistinct(c: seq<Slot>, x: nat, c': seq<Slot>)
    requires Distinct(c) && x < |c| && c' == c[..x] + c[x + 1..]
    ensures Distinct(c') && forall e :: e in c' <==> e in c && e != c[x]
  {
    assert forall y :: 0 <= y < |c'| ==> c'[y] == if y < x then c[y] else c[y + 1];
    forall e ensures e in c' <==> e in c && e != c[x] {
      if e in c && e != c[x] {
        var y :| 0 <= y < |c| && c[y] == e;
        assert c'[if y < x then y else y - 1] == e;
      }
      if e in c' {
        var y :| 0 <= y < |c'| && c'[y] == e;
        var z := if y < x then y else y + 1;
        assert c[z] == e && e in c;
      }
    }
  }

  /** Every handle moves to the front of its new chain. */
  method Rehash(chains: seq<seq<Slot>>, length: nat) returns (r: seq<seq<Slot>>)
    requires Placed(chains) && length > 0
    ensures Placed(r) && SlotsOf(r) == SlotsOf(chains) && |r| == length
  {
    r := seq(length, _ => []);
    assert SlotsOf(r) == {} && SlotsOf(chains[..0]) == {};
    assert Placed(r);
    hide Placed, SlotsOf, Firsts;
    for i := 0 to |chains|
      invariant |r| == length && Placed(r) && SlotsOf(r) == SlotsOf(chains[..i])
    {
      r := RehashChain(chains, i, r);
      MoreChains(chains, i);
    }
    assert chains[..|chains|] == chains;
  }

  method RehashChain(chains: seq<seq<Slot>>, i: nat, into: seq<seq<Slot>>) returns (r: seq<seq<Slot>>)
    requires Placed(chains) && i < |chains| && Placed(into) && SlotsOf(into) == SlotsOf(chains[..i])
    ensures Placed(r) && |r| == |into| && SlotsOf(r) == SlotsOf(chains[..i]) + Firsts(chains[i], |chains[i]|)
  {
    hide Placed, SlotsOf, Firsts;
    r := into;
    PlacedSize(into);
    var chain := chains[i];
    FirstsStep(chain);
    for x := 0 to |chain|
      invariant |r| == |into| && Placed(r) && SlotsOf(r) == SlotsOf(chains[..i]) + Firsts(chain, x)
    {
      var e := chain[x];
      var j := e.hash % |r|;
      NewToRehash(chains, i, x, r);
      AddSlot(r, j, e, [e] + r[j]);
      r := r[j := [e] + r[j]];
    }
  }

  lemma {:induction false} FirstsStep(chain: seq<Slot>)
    ensures Firsts(chain, 0) == {}
    ensures forall x :: 0 <= x < |chain| ==> Firsts(chain, x + 1) == Firsts(chain, x) + {chain[x]}
  {
    forall x | 0 <= x < |chain| ensures Firsts(chain, x + 1) == Firsts(chain, x) + {chain[x]} {
      assert forall e :: e in Firsts(chain, x + 1) <==> e in Firsts(chain, x) + {chain[x]};
    }
  }

  ghost function Firsts(chain: seq<Slot>, x: nat): set<Slot>
    requires x <= |chain|
  {
    set y | 0 <= y < x :: chain[y]
  }

  lemma {:induction false} MoreChains(chains: seq<seq<Slot>>, i: nat)
    requires i < |chains|
    ensures SlotsOf(chains[..i + 1]) == SlotsOf(chains[..i]) + Firsts(chains[i], |chains[i]|)
  {
    var A, B := SlotsOf(chains[..i + 1]), SlotsOf(chains[..i]) + Firsts(chains[i], |chains[i]|);
    forall e ensures e in A <==> e in B {
      if e in A {
        var j :| 0 <= j < i + 1 && e in chains[..i + 1][j];
        if j < i { assert e in chains[..i][j]; }
      }
      if e in SlotsOf(chains[..i]) {
        var j :| 0 <= j < i && e in chains[..i][j];
        assert e in chains[..i + 1][j];
      }
      if e in Firsts(chains[i], |chains[i]|) {
        assert e in chains[..i + 1][i];
      }
    }
  }

  lemma {:induction false} NewToRehash(chains: seq<seq<Slot>>, i: nat, x: nat, r: seq<seq<Slot>>)
    requires Placed(chains) && i < |chains| && x < |chains[i]| && |r| > 0
    requires SlotsOf(r) == SlotsOf(chains[..i]) + Firsts(chains[i], x)
    ensures var e, c := chains[i][x], r[chains[i][x].hash % |r|]; forall y :: 0 <= y < |c| ==>
            !Same(c[y], e.key, e.hash)
  {
    var e, k := chains[i][x], chains[i][x].hash % |r|;
    var c := r[k];
    forall y | 0 <= y < |c|
      ensures !Same(c[y], e.key, e.hash)
    {
      assert c[y] in r[k];
      assert c[y] in SlotsOf(r);
      if c[y] in Firsts(chains[i], x) {
        var z :| 0 <= z < x && chains[i][z] == c[y];
        assert !Same(chains[i][z], e.key, e.hash);
      } else {
        var j :| 0 <= j < i && c[y] in chains[..i][j];
        assert c[y] in chains[j] && e in chains[i];
      }
    }
  }
}
