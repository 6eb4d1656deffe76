/** The skip list under one writer and concurrent readers. Every pointer load and store is a
    step of its own; the writer links a new node level by level from the bottom. */
module SkipLists {
  import opened History
  import opened Ordering
  import opened Wrappers

  const MAX_HEIGHT: nat := 12
  const HEAD: nat := 0

  /** Nodes are numbered in the order they are allocated; the head comes first and its key
      does not matter. `next[l][x]` is the successor of node `x` at level `l`. */
  datatype Memory = Memory(keys: seq<InternalKey>, next: seq<seq<Option<nat>>>, maxHeight: nat)

  function NodeAt(list: seq<nat>, i: nat): Option<nat>
  {
    if i < |list| then Some(list[i]) else None
  }

  /** The node before position `i`: the head before the first. */
  function Before(list: seq<nat>, i: nat): nat
    requires i <= |list|
  {
    if i == 0 then HEAD else list[i - 1]
  }

  /** The chain from the head is exactly `list`. */
  ghost predicate Links(next: seq<Option<nat>>, list: seq<nat>)
  {
    forall i :: 0 <= i <= |list| ==> Linked(next, list, i)
  }

  ghost predicate Linked(next: seq<Option<nat>>, list: seq<nat>, i: nat)
    requires i <= |list|
  {
    Before(list, i) < |next| && next[Before(list, i)] == NodeAt(list, i)
  }

  ghost predicate Ordered(keys: seq<InternalKey>, list: seq<nat>)
  {
    && (forall i :: 0 <= i < |list| ==> HEAD < list[i] < |keys|)
    && (forall i, j :: 0 <= i < j < |list| ==> Less(keys[list[i]], keys[list[j]]))
  }

  ghost predicate Within(upper: seq<nat>, lower: seq<nat>)
  {
    forall n :: n in upper ==> n in lower
  }

  ghost predicate Nested(lists: seq<seq<nat>>, l: nat)
    requires l < |lists|
  {
    l + 1 < |lists| ==> Within(lists[l + 1], lists[l])
  }

  ghost predicate LevelOk(m: Memory, lists: seq<seq<nat>>, l: nat)
    requires l < |m.next| && l < |lists|
  {
    && |m.next[l]| == |m.keys| && Links(m.next[l], lists[l]) && Ordered(m.keys, lists[l]) && Nested(lists, l)
    && (m.maxHeight <= l ==> lists[l] == [])
  }

  /** Every level is a sorted chain, and a sub-list of the level below. */
  ghost predicate Shaped(m: Memory, lists: seq<seq<nat>>)
  {
    && |m.next| == MAX_HEIGHT && |lists| == MAX_HEIGHT && 1 <= m.maxHeight <= MAX_HEIGHT && |m.keys| > 0
    && forall l :: 0 <= l < MAX_HEIGHT ==> LevelOk(m, lists, l)
  }

  // ----- searching

  /** What a search is for: the place of a key, or the end of the list. */
  type Bound = Option<InternalKey>

  predicate Under(k: InternalKey, target: Bound)
  {
    target.Some? ==> Less(k, target.value)
  }

  /** Nodes before position `p` are below the key, those from it on are not. */
  ghost predicate Splits(keys: seq<InternalKey>, list: seq<nat>, key: Bound, p: nat)
  {
    && Ordered(keys, list) && p <= |list|
    && (forall i :: 0 <= i < p ==> Under(keys[list[i]], key))
    && (forall i :: p <= i < |list| ==> !Under(keys[list[i]], key))
  }

  predicate IsAfter(keys: seq<InternalKey>, key: Bound, n: Option<nat>)
  {
    n.Some? && n.value < |keys| && Under(keys[n.value], key)
  }

  /** The node before position `i` is the head or below the key. */
  ghost predicate Behind(keys: seq<InternalKey>, list: seq<nat>, key: Bound, i: nat)
  {
    i <= |list| && (i > 0 ==> list[i - 1] < |keys| && Under(keys[list[i - 1]], key))
  }

  /** The successor of a node behind the key: if it is not below the key itself, it is the
      first node that is not. */
  lemma {:induction false} NextOfBehind(keys: seq<InternalKey>, list: seq<nat>, key: Bound, i: nat)
    requires Ordered(keys, list) && Behind(keys, list, key, i)
    ensures IsAfter(keys, key, NodeAt(list, i)) ==> i < |list| && Behind(keys, list, key, i + 1)
    ensures !IsAfter(keys, key, NodeAt(list, i)) ==> Splits(keys, list, key, i)
  {
    if !IsAfter(keys, key, NodeAt(list, i)) {
      forall j | i <= j < |list| ensures !Under(keys[list[j]], key) {
        if i < j { assert Less(keys[list[i]], keys[list[j]]); }
      }
      forall j | 0 <= j < i ensures Under(keys[list[j]], key) {
        if j < i - 1 { assert Less(keys[list[j]], keys[list[i - 1]]); }
      }
    }
  }

  /** One level down, the node is still on the list and still behind the key. */
  lemma {:induction false} StepDown(m: Memory, lists: seq<seq<nat>>, l: nat, key: Bound, i: nat) returns (j: nat)
    requires Shaped(m, lists) && 0 < l < MAX_HEIGHT && Behind(m.keys, lists[l], key, i)
    ensures Behind(m.keys, lists[l - 1], key, j) && Before(lists[l - 1], j) == Before(lists[l], i)
  {
    assert LevelOk(m, lists, l - 1);
    if i == 0 {
      j := 0;
    } else {
      var x := lists[l][i - 1];
      assert x in lists[l];
      var y :| 0 <= y < |lists[l - 1]| && lists[l - 1][y] == x;
      j := y + 1;
    }
  }

  lemma {:induction false} LevelFacts(m: Memory, lists: seq<seq<nat>>, l: nat, i: nat)
    requires Shaped(m, lists) && l < MAX_HEIGHT && i <= |lists[l]|
    ensures Ordered(m.keys, lists[l]) && Before(lists[l], i) < |m.next[l]|
    ensures m.next[l][Before(lists[l], i)] == NodeAt(lists[l], i)
  {
    assert LevelOk(m, lists, l);
    assert Linked(m.next[l], lists[l], i);
  }

  /** The search of the writer, which nothing disturbs: at each level the last node below the
      key, and at the bottom the first node that is not. */
  method FindGreaterOrEqual(m: Memory, key: Bound, ghost lists: seq<seq<nat>>)
    returns (found: Option<nat>, prev: seq<nat>, ghost at: seq<nat>)
    requires Shaped(m, lists)
    ensures |prev| == MAX_HEIGHT && |at| == MAX_HEIGHT
    ensures forall l :: 0 <= l < m.maxHeight ==>
            Splits(m.keys, lists[l], key, at[l]) && prev[l] == Before(lists[l], at[l])
    ensures found == NodeAt(lists[0], at[0])
  {
    hide LevelOk, Ordered, Splits;
    prev, at := seq(MAX_HEIGHT, _ => HEAD), seq(MAX_HEIGHT, _ => 0);
    var x, level := HEAD, m.maxHeight - 1;
    ghost var i := 0;
    while true
      invariant 0 <= level < m.maxHeight && |prev| == MAX_HEIGHT && |at| == MAX_HEIGHT
      invariant Behind(m.keys, lists[level], key, i) && Before(lists[level], i) == x
      invariant forall l :: level < l < m.maxHeight ==>
                Splits(m.keys, lists[l], key, at[l]) && at[l] <= |lists[l]| && prev[l] == Before(lists[l], at[l])
      decreases level, |lists[level]| - i
    {
      LevelFacts(m, lists, level, i);
      NextOfBehind(m.keys, lists[level], key, i);
      var next := m.next[level][x];
      if IsAfter(m.keys, key, next) {
        x, i := next.value, i + 1;
      } else {
        prev, at := prev[level := x], at[level := i];
        if level == 0 {
          found := next;
          return;
        }
        i := StepDown(m, lists, level, key, i);
        level := level - 1;
      }
    }
  }

  // ----- the machine

  /** The writer has searched for its key; then it allocates the node; then, level by level,
      it stores the node's own pointer and the pointer to the node. */
  datatype Writer = Idle | Chosen(key: InternalKey, height: nat, prev: seq<nat>) | Linking(x: nat, height: nat,
      prev: seq<nat>, level: nat, stored: bool)

  /** A reader stands at node `x` and will next load its pointer at `level`. */
  datatype Reader = Quiet | Searching(target: Bound, x: nat, level: nat) | Returned(target: Bound, before: nat,
      result: Option<nat>)

  /** Memory and threads, with the chains that memory holds. */
  datatype State = State(m: Memory, lists: seq<seq<nat>>, writer: Writer, reader: Reader)

  /** Position `p` is where the key belongs, strictly between its neighbours. */
  ghost predicate Gap(keys: seq<InternalKey>, list: seq<nat>, key: InternalKey, p: nat)
  {
    && Ordered(keys, list) && p <= |list|
    && (forall i :: 0 <= i < p ==> Less(keys[list[i]], key))
    && (forall i :: p <= i < |list| ==> Less(key, keys[list[i]]))
  }

  ghost predicate Precedes(keys: seq<InternalKey>, list: seq<nat>, key: InternalKey, y: nat)
  {
    exists p :: 0 <= p <= |list| && Gap(keys, list, key, p) && y == Before(list, p)
  }

  ghost predicate WriterOk(m: Memory, lists: seq<seq<nat>>, w: Writer)
    requires |lists| == MAX_HEIGHT
  {
    match w
    case Idle => true
    case Chosen(key, height, prev) =>
      1 <= height <= MAX_HEIGHT && |prev| == MAX_HEIGHT && forall l :: 0 <= l < height ==>
          Precedes(m.keys, lists[l], key, prev[l])
    case Linking(x, height, prev, level, stored) =>
      && 1 <= height <= m.maxHeight && height <= MAX_HEIGHT && |prev| == MAX_HEIGHT && level <= height
         && HEAD < x < |m.keys|
      && (forall l :: level <= l < height ==> Precedes(m.keys, lists[l], m.keys[x], prev[l]))
      && (forall l :: 0 <= l < level ==> x in lists[l])
      && (stored ==> level < height && StoredOwn(m, lists, x, prev, level))
  }

  ghost predicate StoredOwn(m: Memory, lists: seq<seq<nat>>, x: nat, prev: seq<nat>, level: nat)
  {
    level < |m.next| && level < |prev| && x < |m.next[level]| && prev[level] < |m.next[level]|
        && m.next[level][x] == m.next[level][prev[level]]
  }

  ghost predicate StandsOn(keys: seq<InternalKey>, list: seq<nat>, target: Bound, x: nat)
  {
    x == HEAD || (x in list && x < |keys| && Under(keys[x], target))
  }

  ghost predicate ReaderOk(m: Memory, lists: seq<seq<nat>>, r: Reader)
    requires |lists| == MAX_HEIGHT
  {
    r.Searching? ==> r.level < MAX_HEIGHT && StandsOn(m.keys, lists[r.level], r.target, r.x)
  }

  ghost predicate Inv(s: State)
  {
    Shaped(s.m, s.lists) && WriterOk(s.m, s.lists, s.writer) && ReaderOk(s.m, s.lists, s.reader)
  }

  // ----- writer steps

  ghost predicate Choose(s: State, s': State, key: InternalKey, height: nat, prev: seq<nat>)
  {
    && s.writer.Idle? && 1 <= height <= MAX_HEIGHT && |prev| == MAX_HEIGHT && |s.lists| == MAX_HEIGHT
    && (forall l :: 0 <= l < height && l < s.m.maxHeight ==> Precedes(s.m.keys, s.lists[l], key, prev[l]))
    && (forall l :: s.m.maxHeight <= l < height ==> prev[l] == HEAD)
    && s' == s.(writer := Chosen(key, height, prev))
  }

  lemma {:induction false} ChooseInv(s: State, s': State, key: InternalKey, height: nat, prev: seq<nat>)
    requires Inv(s) && Choose(s, s', key, height, prev)
    ensures Inv(s')
  {
    forall l | 0 <= l < height
      ensures Precedes(s.m.keys, s.lists[l], key, prev[l])
    {
      assert LevelOk(s.m, s.lists, l);
      if s.m.maxHeight <= l {
        assert Gap(s.m.keys, s.lists[l], key, 0) && prev[l] == Before(s.lists[l], 0);
      }
    }
  }

  /** The search gives what the step needs when the key is not in the list. */
  lemma {:induction false} SearchChooses(keys: seq<InternalKey>, list: seq<nat>, key: InternalKey, p: nat)
    requires Splits(keys, list, Some(key), p)
    requires forall i :: 0 <= i < |list| ==> list[i] < |keys| && keys[list[i]] != key
    ensures Precedes(keys, list, key, Before(list, p))
  {
    assert Gap(keys, list, key, p);
  }

  ghost predicate RaiseHeight(s: State, s': State)
  {
    s.writer.Chosen? && s.writer.height > s.m.maxHeight && s' == s.(m := s.m.(maxHeight := s.writer.height))
  }

  lemma {:induction false} RaiseHeightInv(s: State, s': State)
    requires Inv(s) && RaiseHeight(s, s')
    ensures Inv(s')
  {
    forall l | 0 <= l < MAX_HEIGHT ensures LevelOk(s'.m, s.lists, l) { assert LevelOk(s.m, s.lists, l); }
  }

  ghost predicate NewNode(s: State, s': State)
  {
    && s.writer.Chosen? && s.writer.height <= s.m.maxHeight && |s.m.next| == MAX_HEIGHT
    && var w, m := s.writer, s.m;
       s' == s.(m :=
           Memory(m.keys + [w.key], seq(MAX_HEIGHT, l requires 0 <= l < MAX_HEIGHT => m.next[l] + [None]), m.maxHeight),
                writer := Linking(|m.keys|, w.height, w.prev, 0, false))
  }

  lemma {:induction false} OrderedMore(keys: seq<InternalKey>, list: seq<nat>, key: InternalKey)
    requires Ordered(keys, list)
    ensures Ordered(keys + [key], list)
  {
  }

  lemma {:induction false} PrecedesMore(keys: seq<InternalKey>, list: seq<nat>, key: InternalKey, y: nat,
                                        more: InternalKey)
    requires Precedes(keys, list, key, y)
    ensures Precedes(keys + [more], list, key, y)
  {
    var p :| 0 <= p <= |list| && Gap(keys, list, key, p) && y == Before(list, p);
    assert Gap(keys + [more], list, key, p);
  }

  lemma {:induction false} LinksMore(next: seq<Option<nat>>, list: seq<nat>)
    requires Links(next, list)
    ensures Links(next + [None], list)
  {
    forall i | 0 <= i <= |list| ensures Linked(next + [None], list, i) { assert Linked(next, list, i); }
  }

  lemma {:induction false} NewNodeInv(s: State, s': State)
    requires Inv(s) && NewNode(s, s')
    ensures Inv(s')
  {
    hide Links, Ordered, Precedes, Nested;
    var w, m, m' := s.writer, s.m, s'.m;
    forall l | 0 <= l < MAX_HEIGHT ensures LevelOk(m', s.lists, l) {
      assert LevelOk(m, s.lists, l);
      LinksMore(m.next[l], s.lists[l]);
      OrderedMore(m.keys, s.lists[l], w.key);
    }
    forall l | 0 <= l < w.height ensures Precedes(m'.keys, s.lists[l], w.key, w.prev[l]) {
      PrecedesMore(m.keys, s.lists[l], w.key, w.prev[l], w.key);
    }
  }

  /** The node's own pointer at the level; nobody can reach it there yet. */
  ghost predicate StoreOwn(s: State, s': State)
  {
    && s.writer.Linking? && !s.writer.stored && s.writer.level < s.writer.height && s.writer.level < |s.m.next|
       && s.writer.level < |s.writer.prev|
    && var w, m := s.writer, s.m;
       && w.x < |m.next[w.level]| && w.prev[w.level] < |m.next[w.level]|
       && s' == s.(m := m.(next := m.next[w.level := m.next[w.level][w.x := m.next[w.level][w.prev[w.level]]]]),
          writer := w.(stored := true))
  }

  /** A node with the key of a gap is not on the list. */
  lemma {:induction false} NotOnList(keys: seq<InternalKey>, list: seq<nat>, x: nat, y: nat)
    requires x < |keys| && Precedes(keys, list, keys[x], y)
    ensures x !in list && (y == HEAD || y in list)
  {
    var p :| 0 <= p <= |list| && Gap(keys, list, keys[x], p) && y == Before(list, p);
    if p > 0 { assert list[p - 1] in list; }
  }

  lemma {:induction false} StoreElsewhere(next: seq<Option<nat>>, list: seq<nat>, x: nat, v: Option<nat>)
    requires Links(next, list) && x < |next| && x != HEAD && x !in list
    ensures Links(next[x := v], list)
  {
    var next' := next[x := v];
    forall i | 0 <= i <= |list| ensures Linked(next', list, i) { assert Linked(next, list, i); }
  }

  lemma {:induction false} StoreOwnInv(s: State, s': State)
    requires Inv(s) && StoreOwn(s, s')
    ensures Inv(s')
  {
    hide Links, Ordered, Precedes, Nested;
    var w, m, m' := s.writer, s.m, s'.m;
    NotOnList(m.keys, s.lists[w.level], w.x, w.prev[w.level]);
    forall l | 0 <= l < MAX_HEIGHT ensures LevelOk(m', s.lists, l) {
      assert LevelOk(m, s.lists, l);
      if l == w.level {
        StoreElsewhere(m.next[l], s.lists[l], w.x, m.next[l][w.prev[l]]);
      }
    }
    assert StoredOwn(m', s.lists, w.x, w.prev, w.level);
  }

  function InsertAt(list: seq<nat>, p: nat, x: nat): seq<nat>
    requires p <= |list|
  {
    list[..p] + [x] + list[p..]
  }

  lemma {:induction false} InsertPlaces(list: seq<nat>, p: nat, x: nat, i: nat)
    requires p <= |list| && i <= |list| + 1
    ensures var more := InsertAt(list, p, x);
            && Before(more, i) == (if i <= p then Before(list, i) else if i == p + 1 then x else Before(list, i - 1))
            && NodeAt(more, i) == (if i < p then NodeAt(list, i) else if i == p then Some(x) else NodeAt(list, i - 1))
  {
  }

  /** Positions have different nodes before them. */
  lemma {:induction false} BeforeDistinct(keys: seq<InternalKey>, list: seq<nat>, i: nat, j: nat)
    requires Ordered(keys, list) && i < j <= |list|
    ensures Before(list, i) != Before(list, j)
  {
    if i > 0 {
      assert Less(keys[list[i - 1]], keys[list[j - 1]]);
    }
  }

  lemma {:induction false} InsertLinks(keys: seq<InternalKey>, next: seq<Option<nat>>, list: seq<nat>, p: nat, x: nat)
    requires Links(next, list) && Ordered(keys, list) && p <= |list| && HEAD < x < |next| && x !in list
    requires Before(list, p) < |next|
    requires next[x] == next[Before(list, p)]
    ensures Links(next[Before(list, p) := Some(x)], InsertAt(list, p, x))
  {
    var y, more := Before(list, p), InsertAt(list, p, x);
    var next' := next[y := Some(x)];
    forall i | 0 <= i <= |more| ensures Linked(next', more, i) {
      InsertPlaces(list, p, x, i);
      var j := if i <= p then i else i - 1;
      assert Linked(next, list, j) && Linked(next, list, p);
      if j < p { BeforeDistinct(keys, list, j, p); }
      if p < j { BeforeDistinct(keys, list, p, j); }
    }
  }

  lemma {:induction false} InsertOrdered(keys: seq<InternalKey>, list: seq<nat>, p: nat, x: nat)
    requires HEAD < x < |keys| && Gap(keys, list, keys[x], p)
    ensures Ordered(keys, InsertAt(list, p, x))
  {
    var more := InsertAt(list, p, x);
    assert forall i :: 0 <= i < |more| ==> more[i] == if i < p then list[i] else if i == p then x else list[i - 1];
  }

  lemma {:induction false} InsertKeeps(list: seq<nat>, p: nat, x: nat)
    requires p <= |list|
    ensures forall n :: n in InsertAt(list, p, x) <==> n in list || n == x
  {
    var more := InsertAt(list, p, x);
    assert list == list[..p] + list[p..] && more[p] == x;
  }

  /** The pointer to the node: from this store on, readers meet it at this level. */
  ghost predicate Link(s: State, s': State, p: nat)
  {
    && s.writer.Linking? && s.writer.stored && s.writer.level < s.writer.height && s.writer.level < |s.m.next|
       && s.writer.level < |s.lists|
    && s.writer.level < |s.writer.prev| && s.writer.x < |s.m.keys|
    && var w, m, list := s.writer, s.m, s.lists[s.writer.level];
       && p <= |list| && Gap(m.keys, list, m.keys[w.x], p) && w.prev[w.level] == Before(list, p)
          && w.prev[w.level] < |m.next[w.level]|
       && s' == s.(m := m.(next := m.next[w.level := m.next[w.level][w.prev[w.level] := Some(w.x)]]),
                   lists := s.lists[w.level := InsertAt(list, p, w.x)],
                   writer := w.(level := w.level + 1, stored := false))
  }

  lemma {:induction false} LinkLevels(s: State, s': State, p: nat)
    requires Inv(s) && Link(s, s', p)
    ensures Shaped(s'.m, s'.lists)
  {
    hide Links, Ordered, Precedes, Gap, InsertAt;
    var w, m, lists := s.writer, s.m, s.lists;
    var list := lists[w.level];
    NotOnList(m.keys, list, w.x, w.prev[w.level]);
    InsertKeeps(list, p, w.x);
    forall l | 0 <= l < MAX_HEIGHT ensures LevelOk(s'.m, s'.lists, l) {
      assert LevelOk(m, lists, l);
      if l == w.level {
        InsertLinks(m.keys, m.next[l], list, p, w.x);
        InsertOrdered(m.keys, list, p, w.x);
      }
      if l + 1 == w.level {
        assert w.x in lists[l];
      }
    }
  }

  lemma {:induction false} LinkInv(s: State, s': State, p: nat)
    requires Inv(s) && Link(s, s', p)
    ensures Inv(s')
  {
    LinkLevels(s, s', p);
    hide Shaped, Precedes, Gap, InsertAt;
    InsertKeeps(s.lists[s.writer.level], p, s.writer.x);
  }

  ghost predicate Finish(s: State, s': State)
  {
    s.writer.Linking? && s.writer.level == s.writer.height && s' == s.(writer := Idle)
  }

  // ----- reader steps

  ghost predicate StartSearch(s: State, s': State, target: Bound)
  {
    s.m.maxHeight > 0 && s' == s.(reader := Searching(target, HEAD, s.m.maxHeight - 1))
  }

  /** One pointer load of a search: `FindGreaterOrEqual` returns the successor it ends on,
      `FindLessThan` the node before it, and `FindLast` the node before the end of the list. */
  ghost predicate Load(s: State, s': State)
  {
    && s.reader.Searching? && s.reader.level < |s.m.next| && s.reader.x < |s.m.next[s.reader.level]|
    && var r, next := s.reader, s.m.next[s.reader.level][s.reader.x];
       s' == s.(reader := if IsAfter(s.m.keys, r.target, next) then r.(x := next.value)
                          else if r.level == 0 then Returned(r.target, r.x, next)
                          else r.(level := r.level - 1))
  }

  /** The least key at or after the target among the nodes on the list. */
  ghost predicate IsLeast(keys: seq<InternalKey>, list: seq<nat>, target: Bound, result: Option<nat>)
  {
    && (result.Some? ==> result.value in list && result.value < |keys| && !Under(keys[result.value], target))
    && forall n :: n in list && n < |keys| && !Under(keys[n], target) ==>
       result.Some? && result.value < |keys| && AtMost(keys[result.value], keys[n])
  }

  /** The node is the last one below the target, the head if there is none. */
  ghost predicate IsLastBelow(keys: seq<InternalKey>, list: seq<nat>, target: Bound, x: nat)
  {
    && StandsOn(keys, list, target, x)
    && forall n :: n in list && n < |keys| && Under(keys[n], target) ==>
       x != HEAD && x < |keys| && AtMost(keys[n], keys[x])
  }

  lemma {:induction false} SplitIsLastBelow(keys: seq<InternalKey>, list: seq<nat>, target: Bound, p: nat)
    requires Splits(keys, list, target, p)
    ensures IsLastBelow(keys, list, target, Before(list, p))
  {
    if p > 0 { assert list[p - 1] in list; }
    forall n | n in list && n < |keys| && Under(keys[n], target)
      ensures p > 0 && AtMost(keys[n], keys[list[p - 1]])
    {
      var i :| 0 <= i < |list| && list[i] == n;
      assert i < p;
      if i < p - 1 { assert Less(keys[list[i]], keys[list[p - 1]]); }
    }
  }

  lemma {:induction false} StandingPlace(keys: seq<InternalKey>, list: seq<nat>, target: Bound, x: nat) returns (i: nat)
    requires StandsOn(keys, list, target, x)
    ensures Behind(keys, list, target, i) && Before(list, i) == x
  {
    if x == HEAD {
      i := 0;
    } else {
      var y :| 0 <= y < |list| && list[y] == x;
      i := y + 1;
    }
  }

  lemma {:induction false} SplitIsLeast(keys: seq<InternalKey>, list: seq<nat>, target: Bound, p: nat)
    requires Splits(keys, list, target, p)
    ensures IsLeast(keys, list, target, NodeAt(list, p))
  {
    forall n | n in list && n < |keys| && !Under(keys[n], target)
      ensures p < |list| && AtMost(keys[list[p]], keys[n])
    {
      var i :| 0 <= i < |list| && list[i] == n;
      assert i >= p;
      if p < i { assert Less(keys[list[p]], keys[list[i]]); }
    }
  }

  /** A load keeps the reader on the list and behind its target; the load that ends the search
      returns the least key at or after the target as memory stands at that moment. */
  lemma {:induction false} LoadInv(s: State, s': State)
    requires Inv(s) && Load(s, s')
    ensures Inv(s')
    ensures s'.reader.Returned? ==>
              && IsLeast(s.m.keys, s.lists[0], s.reader.target, s'.reader.result)
              && IsLastBelow(s.m.keys, s.lists[0], s.reader.target, s'.reader.before)
  {
    var r, m, list := s.reader, s.m, s.lists[s.reader.level];
    var i := StandingPlace(m.keys, list, r.target, r.x);
    LevelFacts(m, s.lists, r.level, i);
    NextOfBehind(m.keys, list, r.target, i);
    var next := m.next[r.level][r.x];
    hide Splits, IsLeast, IsLastBelow, Ordered, WriterOk;
    if IsAfter(m.keys, r.target, next) {
      assert list[i] in list;
    } else if r.level == 0 {
      SplitIsLeast(m.keys, list, r.target, i);
      SplitIsLastBelow(m.keys, list, r.target, i);
    } else {
      var j := StepDown(m, s.lists, r.level, r.target, i);
      assert j > 0 ==> s.lists[r.level - 1][j - 1] in s.lists[r.level - 1];
    }
  }

  // ----- no store or load of the code is missing

  function WithOwn(m: Memory, x: nat, y: nat, l: nat): Memory
    requires l < |m.next| && x < |m.next[l]| && y < |m.next[l]|
  {
    m.(next := m.next[l := m.next[l][x := m.next[l][y]]])
  }

  function WithLink(m: Memory, x: nat, y: nat, l: nat): Memory
    requires l < |m.next| && y < |m.next[l]|
  {
    m.(next := m.next[l := m.next[l][y := Some(x)]])
  }

  /** The store of the node's own pointer is always a step. */
  lemma {:induction false} StoreOwnEnabled(s: State)
    requires Inv(s) && s.writer.Linking? && !s.writer.stored && s.writer.level < s.writer.height
    ensures var w, m, l := s.writer, s.m, s.writer.level;
            && l < |m.next| && l < |w.prev| && w.x < |m.next[l]| && w.prev[l] < |m.next[l]|
            && StoreOwn(s, s.(m := WithOwn(m, w.x, w.prev[l], l), writer := w.(stored := true)))
  {
    hide Links, Ordered, Gap, Nested;
    var l := s.writer.level;
    assert LevelOk(s.m, s.lists, l);
    var p := PrecedingPlace(s, l);
    LevelFacts(s.m, s.lists, l, p);
  }

  /** Where the node belongs at a level it is not linked into yet. */
  lemma {:induction false} PrecedingPlace(s: State, l: nat) returns (p: nat)
    requires Inv(s) && s.writer.Linking? && s.writer.level <= l < s.writer.height
    ensures p <= |s.lists[l]| && Gap(s.m.keys, s.lists[l], s.m.keys[s.writer.x], p)
    ensures s.writer.prev[l] == Before(s.lists[l], p)
  {
    hide Gap, LevelOk;
    assert Precedes(s.m.keys, s.lists[l], s.m.keys[s.writer.x], s.writer.prev[l]);
    p :| 0 <= p <= |s.lists[l]| && Gap(s.m.keys, s.lists[l], s.m.keys[s.writer.x], p)
        && s.writer.prev[l] == Before(s.lists[l], p);
  }

  /** The store that links the node is always a step: its predecessor has not changed since
      the search. */
  lemma {:induction false} LinkEnabled(s: State) returns (p: nat)
    requires Inv(s) && s.writer.Linking? && s.writer.stored
    ensures var w, m, l := s.writer, s.m, s.writer.level;
            && l < |m.next| && l < |s.lists| && l < |w.prev| && w.prev[l] < |m.next[l]| && p <= |s.lists[l]|
            && Link(s, s.(m := WithLink(m, w.x, w.prev[l], l), lists := s.lists[l := InsertAt(s.lists[l], p, w.x)],
                          writer := w.(level := l + 1, stored := false)), p)
  {
    hide Links, Ordered, Gap, Nested;
    var l := s.writer.level;
    assert LevelOk(s.m, s.lists, l);
    p := PrecedingPlace(s, l);
  }

  /** A search can always go on. */
  lemma {:induction false} LoadEnabled(s: State)
    requires Inv(s) && s.reader.Searching?
    ensures exists s' :: Load(s, s')
  {
    var r := s.reader;
    var i := StandingPlace(s.m.keys, s.lists[r.level], r.target, r.x);
    LevelFacts(s.m, s.lists, r.level, i);
    var next := s.m.next[r.level][r.x];
    var s' := s.(reader := if IsAfter(s.m.keys, r.target, next) then r.(x := next.value)
                           else if r.level == 0 then Returned(r.target, r.x, next)
                           else r.(level := r.level - 1));
    assert Load(s, s');
  }

  // ----- runs

  ghost predicate Init(s: State)
  {
    && s.m == Memory([InternalKey(0.0, 0, Deletion)], seq(MAX_HEIGHT, _ => [None]), 1)
    && s.lists == seq(MAX_HEIGHT, _ => []) && s.writer == Idle && s.reader == Quiet
  }

  lemma {:induction false} InitInv(s: State)
    requires Init(s)
    ensures Inv(s)
  {
    forall l | 0 <= l < MAX_HEIGHT ensures LevelOk(s.m, s.lists, l) {
      assert Linked(s.m.next[l], s.lists[l], 0);
    }
  }

  ghost predicate WriterStep(s: State, s': State)
  {
    || (exists key, height, prev :: Choose(s, s', key, height, prev))
    || RaiseHeight(s, s')
    || NewNode(s, s')
    || StoreOwn(s, s')
    || (exists p :: Link(s, s', p))
    || Finish(s, s')
  }

  ghost predicate ReaderStep(s: State, s': State)
  {
    (exists target :: StartSearch(s, s', target)) || Load(s, s')
  }

  lemma {:induction false} StepInv(s: State, s': State)
    requires Inv(s) && (WriterStep(s, s') || ReaderStep(s, s'))
    ensures Inv(s')
  {
    hide Shaped, Choose, RaiseHeight, NewNode, StoreOwn, Link, Load, Precedes;
    if WriterStep(s, s') {
      if key, height: nat, prev :| Choose(s, s', key, height, prev) { ChooseInv(s, s', key, height, prev); }
      else if RaiseHeight(s, s') { RaiseHeightInv(s, s'); }
      else if NewNode(s, s') { NewNodeInv(s, s'); }
      else if StoreOwn(s, s') { StoreOwnInv(s, s'); }
      else if p: nat :| Link(s, s', p) { LinkInv(s, s', p); }
    } else if Load(s, s') {
      LoadInv(s, s');
    } else {
      StartOk(s);
    }
  }

  lemma {:induction false} StartOk(s: State)
    requires Inv(s)
    ensures 0 < s.m.maxHeight <= MAX_HEIGHT && |s.lists| == MAX_HEIGHT
  {
  }

  ghost predicate IsRun(ss: seq<State>)
  {
    |ss| > 0 && Init(ss[0]) && forall i :: 0 <= i < |ss| - 1 ==>
        WriterStep(ss[i], ss[i + 1]) || ReaderStep(ss[i], ss[i + 1])
  }

  /** After every single store and load of every interleaving, each level is sorted and a
      sub-list of the level below. */
  lemma {:induction false} RunInv(ss: seq<State>, i: nat)
    requires IsRun(ss) && i < |ss|
    ensures Inv(ss[i])
  {
    hide Inv, WriterStep, ReaderStep, Init;
    if i == 0 {
      InitInv(ss[0]);
    } else {
      RunInv(ss, i - 1);
      assert WriterStep(ss[i - 1], ss[i - 1 + 1]) || ReaderStep(ss[i - 1], ss[i - 1 + 1]);
      StepInv(ss[i - 1], ss[i]);
    }
  }

  /** However its loads interleave with a writer's stores, a search returns the least key at or
      after its target, and the last one below it, as of its last load. */
  lemma {:induction false} SearchReturnsLeast(ss: seq<State>, i: nat)
    requires IsRun(ss) && i + 1 < |ss| && Load(ss[i], ss[i + 1]) && ss[i + 1].reader.Returned?
    ensures var s, r := ss[i], ss[i + 1].reader;
            |s.lists| == MAX_HEIGHT && r.target == s.reader.target
            && IsLeast(s.m.keys, s.lists[0], r.target, r.result)
               && IsLastBelow(s.m.keys, s.lists[0], r.target, r.before)
  {
    RunInv(ss, i);
    hide IsRun, IsLeast, IsLastBelow, WriterOk, Shaped;
    LoadInv(ss[i], ss[i + 1]);
    StartOk(ss[i]);
  }

  /** Memory determines the chains. */
  lemma {:induction false} ChainsUnique(next: seq<Option<nat>>, a: seq<nat>, b: seq<nat>, i: nat)
    requires Links(next, a) && Links(next, b) && i <= |a| && i <= |b| && a[..i] == b[..i]
    ensures a == b
    decreases |a| - i
  {
    assert Linked(next, a, i) && Linked(next, b, i);
    assert i > 0 ==> a[i - 1] == a[..i][i - 1] && b[i - 1] == b[..i][i - 1];
    assert NodeAt(a, i) == NodeAt(b, i);
    if i < |a| {
      assert a[..i + 1] == a[..i] + [a[i]] && b[..i + 1] == b[..i] + [b[i]];
      ChainsUnique(next, a, b, i + 1);
    } else {
      assert a[..i] == a && b[..i] == b;
    }
  }

  /** A node that readers can meet at the bottom stays there. */
  lemma {:induction false} LinkedStays(ss: seq<State>, i: nat, j: nat, n: nat)
    requires IsRun(ss) && i <= j < |ss| && |ss[i].lists| == MAX_HEIGHT && n in ss[i].lists[0]
    ensures |ss[j].lists| == MAX_HEIGHT && n in ss[j].lists[0]
    decreases j
  {
    hide WriterStep, ReaderStep, Init;
    if i < j {
      LinkedStays(ss, i, j - 1, n);
      assert WriterStep(ss[j - 1], ss[j - 1 + 1]) || ReaderStep(ss[j - 1], ss[j - 1 + 1]);
      StepKeeps(ss[j - 1], ss[j], n);
    }
  }

  lemma {:induction false} StepKeeps(s: State, s': State, n: nat)
    requires (WriterStep(s, s') || ReaderStep(s, s')) && |s.lists| == MAX_HEIGHT && n in s.lists[0]
    ensures |s'.lists| == MAX_HEIGHT && n in s'.lists[0]
  {
    hide Gap, InsertAt, Precedes;
    if p: nat :| Link(s, s', p) {
      InsertKeeps(s.lists[s.writer.level], p, s.writer.x);
    }
  }

  // ----- insertion

  /** The states that a writer's steps go through, from `s` to `t`. */
  ghost predicate WriterRun(ss: seq<State>, s: State, t: State)
  {
    |ss| > 0 && ss[0] == s && ss[|ss| - 1] == t && forall i :: 0 <= i < |ss| - 1 ==> WriterStep(ss[i], ss[i + 1])
  }

  lemma {:induction false} OneStepMore(ss: seq<State>, s: State, t: State, t': State)
    requires WriterRun(ss, s, t) && WriterStep(t, t') && Inv(t)
    ensures WriterRun(ss + [t'], s, t') && Inv(t')
  {
    StepInv(t, t');
    hide WriterStep, Inv;
    var more := ss + [t'];
    forall i | 0 <= i < |more| - 1 ensures WriterStep(more[i], more[i + 1]) {
      assert i < |ss| - 1 ==> WriterStep(ss[i], ss[i + 1]);
    }
  }

  /** The search for an absent key finds the predecessors that the insertion needs. */
  lemma {:induction false} SearchEnables(s: State, key: InternalKey, height: nat, prev: seq<nat>, at: seq<nat>)
    requires Inv(s) && s.writer.Idle? && 1 <= height <= MAX_HEIGHT && |prev| == MAX_HEIGHT && |at| == MAX_HEIGHT
    requires Absent(s, key)
    requires forall l :: 0 <= l < s.m.maxHeight ==>
               Splits(s.m.keys, s.lists[l], Some(key), at[l]) && at[l] <= |s.lists[l]|
                   && prev[l] == Before(s.lists[l], at[l])
    requires forall l :: s.m.maxHeight <= l < height ==> prev[l] == HEAD
    ensures Choose(s, s.(writer := Chosen(key, height, prev)), key, height, prev)
  {
    hide Splits, Precedes, LevelOk;
    forall l | 0 <= l < height && l < s.m.maxHeight ensures Precedes(s.m.keys, s.lists[l], key, prev[l]) {
      AbsentAbove(s, key, l);
      SearchChooses(s.m.keys, s.lists[l], key, at[l]);
    }
  }

  ghost predicate Absent(s: State, key: InternalKey)
  {
    |s.lists| > 0 && forall n :: n in s.lists[0] && n < |s.m.keys| ==> s.m.keys[n] != key
  }

  lemma {:induction false} AbsentAbove(s: State, key: InternalKey, l: nat)
    requires Inv(s) && Absent(s, key) && l < MAX_HEIGHT
    ensures forall i :: 0 <= i < |s.lists[l]| ==> s.lists[l][i] < |s.m.keys| && s.m.keys[s.lists[l][i]] != key
  {
    LevelWithin(s, l);
    assert LevelOk(s.m, s.lists, l);
    forall i | 0 <= i < |s.lists[l]| ensures s.m.keys[s.lists[l][i]] != key {
      assert s.lists[l][i] in s.lists[l];
    }
  }

  /** Every node is on the bottom list. */
  lemma {:induction false} LevelWithin(s: State, l: nat)
    requires Inv(s) && l < MAX_HEIGHT
    ensures Within(s.lists[l], s.lists[0])
  {
    if l > 0 {
      LevelWithin(s, l - 1);
      assert LevelOk(s.m, s.lists, l - 1);
    }
  }

  /** What linking node `x` into the levels below `level` has done to the bottom list. */
  ghost predicate Bottom(s: State, t: State, key: InternalKey, x: nat, level: nat)
  {
    && |s.lists| == MAX_HEIGHT && |t.lists| == MAX_HEIGHT && x == |s.m.keys| && t.m.keys == s.m.keys + [key]
       && t.reader == s.reader
    && if level == 0 then t.lists[0] == s.lists[0]
       else
         exists p ::
           && 0 <= p <= |s.lists[0]| && Gap(s.m.keys + [key], s.lists[0], key, p)
           && t.lists[0] == InsertAt(s.lists[0], p, x)
  }

  /** One level of the linking loop. */
  method LinkLevel(m: Memory, x: nat, prev: seq<nat>, l: nat, ghost s: State, ghost key: InternalKey, ghost t: State,
                   ghost ss: seq<State>)
    returns (m': Memory, ghost t': State, ghost ss': seq<State>)
    requires Inv(t) && t.m == m && t.writer.Linking? && t.writer.x == x && t.writer.prev == prev
    requires t.writer.level == l < t.writer.height
    requires !t.writer.stored && WriterRun(ss, s, t) && Bottom(s, t, key, x, l)
    ensures Inv(t') && t'.m == m' && t'.writer == t.writer.(level := l + 1) && WriterRun(ss', s, t')
    ensures Bottom(s, t', key, x, l + 1)
  {
    hide Inv, WriterRun, StoreOwn, Link, Bottom, InsertAt;
    StoreOwnEnabled(t);
    m' := WithOwn(m, x, prev[l], l);
    ghost var a := t.(m := m', writer := t.writer.(stored := true));
    assert WriterStep(t, a);
    OneStepMore(ss, s, t, a);
    ghost var p := LinkEnabled(a);
    m' := WithLink(m', x, prev[l], l);
    t' := a.(m := m', lists := a.lists[l := InsertAt(a.lists[l], p, x)], writer := t.writer.(level := l + 1));
    assert WriterStep(a, t');
    OneStepMore(ss + [a], s, a, t');
    ss' := ss + [a] + [t'];
    LinkedBottom(s, t, a, t', key, x, p);
  }

  lemma {:induction false} LinkedBottom(s: State, t: State, a: State, t': State, key: InternalKey, x: nat, p: nat)
    requires t.writer.Linking? && t.writer.x == x && Bottom(s, t, key, x, t.writer.level)
    requires a == t.(m := a.m, writer := t.writer.(stored := true)) && StoreOwn(t, a) && Link(a, t', p)
    ensures Bottom(s, t', key, x, t.writer.level + 1)
  {
    hide Gap, InsertAt;
  }

  ghost predicate Found(s: State, key: InternalKey, height: nat, prev: seq<nat>)
  {
    Choose(s, s.(writer := Chosen(key, height, prev)), key, height, prev)
  }

  /** The predecessors of the key at every level up to the height: the search finds those of the
      levels in use, above them it is the head. */
  method FindPredecessors(m: Memory, key: InternalKey, height: nat, ghost s: State) returns (prev: seq<nat>)
    requires Inv(s) && s.m == m && s.writer.Idle? && 1 <= height <= MAX_HEIGHT && Absent(s, key)
    ensures Found(s, key, height, prev)
  {
    hide Splits, LevelOk;
    var found, preds, at := FindGreaterOrEqual(m, Some(key), s.lists);
    prev := preds;
    assert forall l :: 0 <= l < m.maxHeight ==> at[l] <= |s.lists[l]| by { SplitsWithin(m, s.lists, key, at); }
    if height > m.maxHeight {
      for i := m.maxHeight to height
        invariant |prev| == MAX_HEIGHT && forall l :: m.maxHeight <= l < i ==> prev[l] == HEAD
        invariant forall l :: 0 <= l < m.maxHeight ==> prev[l] == Before(s.lists[l], at[l])
      {
        prev := prev[i := HEAD];
      }
    }
    SearchEnables(s, key, height, prev, at);
  }

  lemma {:induction false} SplitsWithin(m: Memory, lists: seq<seq<nat>>, key: InternalKey, at: seq<nat>)
    requires m.maxHeight <= |lists| && m.maxHeight <= |at|
    requires forall l :: 0 <= l < m.maxHeight ==> Splits(m.keys, lists[l], Some(key), at[l])
    ensures forall l :: 0 <= l < m.maxHeight ==> at[l] <= |lists[l]|
  {
  }

  /** Publishing the height, if it is new, and allocating the node. */
  method Allocate(m: Memory, key: InternalKey, height: nat, prev: seq<nat>, ghost s: State)
    returns (m': Memory, ghost ss: seq<State>, ghost t: State)
    requires Inv(s) && s.m == m && s.writer.Idle? && Found(s, key, height, prev)
    ensures Inv(t) && t.m == m' && t.writer == Linking(|m.keys|, height, prev, 0, false)
    ensures WriterRun(ss, s, t) && Bottom(s, t, key, |m.keys|, 0)
  {
    hide Shaped, WriterOk, ReaderOk, Precedes;
    m', ss, t := m, [s], s.(writer := Chosen(key, height, prev));
    assert WriterStep(s, t) by { assert Choose(s, t, key, height, prev); }
    OneStepMore(ss, s, s, t);
    ss := ss + [t];
    if height > m.maxHeight {
      m' := m.(maxHeight := height);
      ghost var a := t.(m := m');
      assert RaiseHeight(t, a);
      OneStepMore(ss, s, t, a);
      ss, t := ss + [a], a;
    }
    StartOk(t);
    LevelsThere(t);
    m' := Memory(m'.keys + [key], seq(MAX_HEIGHT, l requires 0 <= l < MAX_HEIGHT => m'.next[l] + [None]), m'.maxHeight);
    ghost var b := t.(m := m', writer := Linking(|m.keys|, height, prev, 0, false));
    assert NewNode(t, b);
    OneStepMore(ss, s, t, b);
    ss, t := ss + [b], b;
  }

  lemma {:induction false} LevelsThere(s: State)
    requires Inv(s)
    ensures |s.m.next| == MAX_HEIGHT
  {
  }

  /** `Insert` for a key that is not there: search, choose a height, allocate, then link the node
      level by level. Every store is a step of the machine, so readers may load in between. */
  method Insert(m: Memory, key: InternalKey, height: nat, ghost s: State)
    returns (m': Memory, ghost ss: seq<State>, ghost t: State)
    requires Inv(s) && s.m == m && s.writer.Idle? && 1 <= height <= MAX_HEIGHT && Absent(s, key)
    ensures Inv(t) && t.m == m' && t.writer.Idle? && WriterRun(ss, s, t) && Bottom(s, t, key, |m.keys|, height)
  {
    hide Inv, WriterRun, Bottom, Found, Absent, InsertAt;
    var prev := FindPredecessors(m, key, height, s);
    m', ss, t := Allocate(m, key, height, prev, s);
    for l := 0 to height
      invariant Inv(t) && t.m == m' && t.writer == Linking(|m.keys|, height, prev, l, false)
      invariant WriterRun(ss, s, t) && Bottom(s, t, key, |m.keys|, l)
    {
      m', t, ss := LinkLevel(m', |m.keys|, prev, l, s, key, t, ss);
    }
    ghost var done := t.(writer := Idle);
    assert Finish(t, done);
    OneStepMore(ss, s, t, done);
    DoneBottom(s, t, key, |m.keys|, height);
    ss, t := ss + [done], done;
  }

  lemma {:induction false} DoneBottom(s: State, t: State, key: InternalKey, x: nat, level: nat)
    requires Bottom(s, t, key, x, level)
    ensures Bottom(s, t.(writer := Idle), key, x, level)
  {
    hide Gap, InsertAt;
  }

  // ----- the memtable

  function KeysOf(keys: seq<InternalKey>, list: seq<nat>): (r: seq<InternalKey>)
    requires forall i :: 0 <= i < |list| ==> list[i] < |keys|
    ensures |r| == |list| && forall i :: 0 <= i < |list| ==> r[i] == keys[list[i]]
  {
    seq(|list|, i requires 0 <= i < |list| => keys[list[i]])
  }

  function EntryKeys(mem: seq<Entry>): (r: seq<InternalKey>)
    ensures |r| == |mem| && forall i :: 0 <= i < |mem| ==> r[i] == mem[i].key
  {
    seq(|mem|, i requires 0 <= i < |mem| => mem[i].key)
  }

  /** The bottom list is the memtable's keys in order, and stays so. */
  ghost predicate Holds(s: State, mem: seq<Entry>)
  {
    |s.lists| > 0 && (forall i :: 0 <= i < |s.lists[0]| ==> s.lists[0][i] < |s.m.keys|)
        && KeysOf(s.m.keys, s.lists[0]) == EntryKeys(mem)
  }

  /** In a sorted run an entry goes before the first key above it. */
  lemma {:induction false} InsertEntryAt(mem: seq<Entry>, e: Entry, p: nat)
    requires p <= |mem| && (forall i :: 0 <= i < p ==> Less(mem[i].key, e.key))
    requires (forall i :: p <= i < |mem| ==> Less(e.key, mem[i].key))
    ensures InsertEntry(mem, e) == mem[..p] + [e] + mem[p..]
  {
    if p > 0 {
      InsertEntryAt(mem[1..], e, p - 1);
      assert mem[1..][..p - 1] == mem[1..p] && mem[1..][p - 1..] == mem[p..];
      assert [mem[0]] + mem[1..p] == mem[..p];
    }
  }

  lemma {:induction false} InsertedKeys(keys: seq<InternalKey>, list: seq<nat>, mem: seq<Entry>, e: Entry, p: nat)
    requires (forall i :: 0 <= i < |list| ==> list[i] < |keys|) && KeysOf(keys, list) == EntryKeys(mem)
    requires p <= |list| && Gap(keys + [e.key], list, e.key, p)
    ensures var new_ := InsertAt(list, p, |keys|);
            && (forall i :: 0 <= i < |new_| ==> new_[i] < |keys + [e.key]|)
            && KeysOf(keys + [e.key], new_) == EntryKeys(InsertEntry(mem, e))
  {
    forall i | 0 <= i < |list| ensures mem[i].key == (keys + [e.key])[list[i]] {
      assert KeysOf(keys, list)[i] == EntryKeys(mem)[i];
    }
    InsertEntryAt(mem, e, p);
    hide KeysOf, EntryKeys, InsertEntry, Gap;
    var new_, more := InsertAt(list, p, |keys|), InsertEntry(mem, e);
    forall i | 0 <= i < |new_| ensures new_[i] < |keys + [e.key]| && (keys + [e.key])[new_[i]] == more[i].key {
      if i < p { assert more[i] == mem[i]; }
      else if i > p { assert more[i] == mem[i - 1]; }
    }
    assert |KeysOf(keys + [e.key], new_)| == |EntryKeys(more)|;
  }

  /** Inserting a key into the skip list is inserting its entry into the sorted run that the rest
      of the model takes a memtable to be. */
  lemma {:induction false} InsertIsMemtableInsert(s: State, t: State, mem: seq<Entry>, e: Entry, x: nat, level: nat)
    requires Holds(s, mem) && Bottom(s, t, e.key, x, level) && level > 0
    ensures Holds(t, InsertEntry(mem, e))
  {
    var p :| 0 <= p <= |s.lists[0]| && Gap(s.m.keys + [e.key], s.lists[0], e.key, p)
        && t.lists[0] == InsertAt(s.lists[0], p, x);
    InsertedKeys(s.m.keys, s.lists[0], mem, e, p);
  }
}
