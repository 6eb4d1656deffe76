/** Group commit: writers queue up, the first one writes for a prefix of the queue, and all of
    that prefix completes together. */
module GroupCommit {
  import opened Ordering
  import opened History
  import opened Wrappers

  /** A queued writer. A null batch asks for a flush; `size` is the batch's size in bytes. */
  datatype Waiter = Waiter(id: nat, ops: Option<seq<Op>>, sync: bool, size: nat)

  function OpsOf(w: Waiter): seq<Op>
  {
    w.ops.GetOr([])
  }

  /** The operations of some writers, one after the other. */
  function Merged(ws: seq<Waiter>): seq<Op>
  {
    if ws == [] then [] else Merged(ws[..|ws| - 1]) + OpsOf(ws[|ws| - 1])
  }

  function SizeOf(ws: seq<Waiter>): nat
  {
    if ws == [] then 0 else SizeOf(ws[..|ws| - 1]) + if ws[|ws| - 1].ops.Some? then ws[|ws| - 1].size else 0
  }

  /** A small write is not delayed by more than 128 kilobytes of others. */
  function MaxSize(first: nat): nat
  {
    if first <= 0x2_0000 then first + 0x2_0000 else 0x10_0000
  }

  /** The prefix of length `n` is the leader's group: no member asks for more durability than
      the leader gives, members after the first keep within the size, and the group stops
      only where one of the two would fail. */
  ghost predicate IsGroup(queue: seq<Waiter>, n: nat)
  {
    && 1 <= n <= |queue|
    && (forall i :: 1 <= i < n ==> Joins(queue, i))
    && (n < |queue| ==> !Joins(queue, n))
  }

  ghost predicate Joins(queue: seq<Waiter>, i: nat)
    requires 0 < i < |queue|
  {
    && (queue[i].sync ==> queue[0].sync)
    && (queue[i].ops.Some? ==> SizeOf(queue[..i + 1]) <= MaxSize(queue[0].size))
  }

  lemma {:induction false} MergedSnoc(ws: seq<Waiter>, w: Waiter)
    ensures Merged(ws + [w]) == Merged(ws) + OpsOf(w)
    ensures SizeOf(ws + [w]) == SizeOf(ws) + if w.ops.Some? then w.size else 0
  {
    assert (ws + [w])[..|ws|] == ws;
  }

  lemma {:induction false} MergedConcat(a: seq<Waiter>, b: seq<Waiter>)
    ensures Merged(a + b) == Merged(a) + Merged(b)
  {
    if b == [] {
      assert a + b == a;
    } else {
      var k := |b| - 1;
      MergedConcat(a, b[..k]);
      assert a + b == a + b[..k] + [b[k]];
      MergedSnoc(a + b[..k], b[k]);
      assert Merged(a) + Merged(b[..k]) + OpsOf(b[k]) == Merged(a) + (Merged(b[..k]) + OpsOf(b[k]));
    }
  }

  lemma {:induction false} MergedOne(w: Waiter)
    ensures Merged([w]) == OpsOf(w) && SizeOf([w]) == if w.ops.Some? then w.size else 0
  {
    assert [] + [w] == [w];
    MergedSnoc([], w);
  }

  /** `BuildBatchGroup`: how many writers the leader takes along, and their merged batch. */
  method BuildBatchGroup(queue: seq<Waiter>) returns (n: nat, ops: seq<Op>)
    requires queue != [] && queue[0].ops.Some?
    ensures IsGroup(queue, n) && ops == Merged(queue[..n])
    ensures queue[0].size <= 131072 ==> SizeOf(queue[..n]) <= queue[0].size + 131072
    ensures 131072 < queue[0].size <= 1048576 ==> SizeOf(queue[..n]) <= 1048576
    ensures 1048576 < queue[0].size ==> SizeOf(queue[..n]) == queue[0].size
    ensures !queue[0].sync ==> forall i :: 0 <= i < n ==> !queue[i].sync
    ensures n < |queue| ==>
              || (queue[n].sync && !queue[0].sync)
              || (queue[n].ops.Some? && SizeOf(queue[..n]) + queue[n].size >
                                        if queue[0].size <= 131072 then queue[0].size + 131072 else 1048576)
  {
    var first := queue[0];
    ops := first.ops.value;
    var size, limit := first.size, MaxSize(first.size);
    MergedOne(first);
    assert queue[..1] == [first];
    n := 1;
    while n < |queue|
      invariant 1 <= n <= |queue| && ops == Merged(queue[..n]) && size == SizeOf(queue[..n])
      invariant forall i :: 1 <= i < n ==> Joins(queue, i)
      invariant size == first.size || first.size <= size <= limit
      invariant !first.sync ==> forall i :: 0 <= i < n ==> !queue[i].sync
    {
      hide Merged, SizeOf;
      var w := queue[n];
      assert queue[..n + 1] == queue[..n] + [w];
      MergedSnoc(queue[..n], w);
      if w.sync && !first.sync {
        break;
      }
      if w.ops.Some? {
        size := size + w.size;
        if size > limit {
          break;
        }
        ops := ops + w.ops.value;
      }
      n := n + 1;
    }
  }

  // ----- the machine

  /** A group that has been committed. */
  datatype Group = Group(members: seq<Waiter>, batch: Batch)

  /** The leader writes `batch` for the first `n` in the queue, with the lock released. */
  datatype Leading = Nobody | Writing(n: nat, batch: Batch)

  datatype State = State(queue: seq<Waiter>, leading: Leading, lastSequence: nat, groups: seq<Group>,
      done: seq<Waiter>, arrived: seq<Waiter>)

  function Batches(groups: seq<Group>): (h: seq<Batch>)
    ensures |h| == |groups| && forall i :: 0 <= i < |groups| ==> h[i] == groups[i].batch
  {
    seq(|groups|, i requires 0 <= i < |groups| => groups[i].batch)
  }

  ghost predicate GroupOk(g: Group)
  {
    && g.members != [] && g.batch.ops == Merged(g.members)
    && forall w :: w in g.members && w.sync ==> g.members[0].sync
  }

  /** The group was formed when the queue was possibly shorter. */
  ghost predicate PrefixGroup(queue: seq<Waiter>, n: nat)
  {
    1 <= n <= |queue| && forall i :: 1 <= i < n ==> queue[i].sync ==> queue[0].sync
  }

  ghost predicate Inv(s: State)
  {
    && s.arrived == s.done + s.queue
    && Contiguous(Batches(s.groups)) && s.lastSequence == End(Batches(s.groups))
    && AllOps(Batches(s.groups)) == Merged(s.done)
    && (forall i :: 0 <= i < |s.groups| ==> GroupOk(s.groups[i]))
    && (s.leading.Writing? ==>
       PrefixGroup(s.queue, s.leading.n)
           && s.leading.batch == Batch(s.lastSequence + 1, Merged(s.queue[..s.leading.n])))
  }

  ghost predicate Arrive(s: State, s': State, w: Waiter)
  {
    s' == s.(queue := s.queue + [w], arrived := s.arrived + [w])
  }

  ghost predicate Lead(s: State, s': State, n: nat)
  {
    && s.leading.Nobody? && s.queue != [] && s.queue[0].ops.Some? && IsGroup(s.queue, n)
    && s' == s.(leading := Writing(n, Batch(s.lastSequence + 1, Merged(s.queue[..n]))))
  }

  /** The group is in the log and the memtable: the sequence counter passes it, and its
      writers leave the queue. */
  ghost predicate Commit(s: State, s': State)
  {
    && s.leading.Writing? && s.leading.n <= |s.queue|
    && var n, b := s.leading.n, s.leading.batch;
       s' == s.(queue := s.queue[n..], leading := Nobody, lastSequence := s.lastSequence + |b.ops|,
                groups := s.groups + [Group(s.queue[..n], b)], done := s.done + s.queue[..n])
  }

  /** A leader without a batch completes alone. */
  ghost predicate CompleteNull(s: State, s': State)
  {
    && s.leading.Nobody? && s.queue != [] && s.queue[0].ops.None?
    && s' == s.(queue := s.queue[1..], done := s.done + [s.queue[0]])
  }

  lemma {:induction false} ArriveInv(s: State, s': State, w: Waiter)
    requires Inv(s) && Arrive(s, s', w)
    ensures Inv(s')
  {
    hide Contiguous, End, AllOps, Merged;
    assert s.done + s.queue + [w] == s.done + (s.queue + [w]);
    if s.leading.Writing? {
      assert s'.queue[..s.leading.n] == s.queue[..s.leading.n];
    }
  }

  lemma {:induction false} LeadInv(s: State, s': State, n: nat)
    requires Inv(s) && Lead(s, s', n)
    ensures Inv(s')
  {
    hide Contiguous, End, AllOps, Merged, SizeOf;
    forall i | 1 <= i < n ensures s.queue[i].sync ==> s.queue[0].sync { assert Joins(s.queue, i); }
    assert PrefixGroup(s'.queue, n);
  }

  lemma {:induction false} CommitInv(s: State, s': State)
    requires Inv(s) && Commit(s, s')
    ensures Inv(s')
  {
    hide Contiguous, End, AllOps, Merged;
    var n, b, h := s.leading.n, s.leading.batch, Batches(s.groups);
    var members := s.queue[..n];
    assert s.queue == members + s.queue[n..];
    assert Batches(s'.groups) == h + [b];
    ContiguousSnoc(h, b);
    EndSnoc(h, b);
    AllOpsSnoc(h, b);
    MergedConcat(s.done, members);
    forall w | w in members && w.sync ensures members[0].sync {
      var i :| 0 <= i < n && members[i] == w;
      assert s.queue[i] == w;
    }
    assert GroupOk(Group(members, b));
  }

  lemma {:induction false} CompleteNullInv(s: State, s': State)
    requires Inv(s) && CompleteNull(s, s')
    ensures Inv(s')
  {
    hide Contiguous, End, AllOps, Merged;
    assert s.queue == [s.queue[0]] + s.queue[1..];
    MergedSnoc(s.done, s.queue[0]);
    assert Merged(s.done) + [] == Merged(s.done);
  }

  ghost predicate Init(s: State)
  {
    s == State([], Nobody, 0, [], [], [])
  }

  ghost predicate Step(s: State, s': State)
  {
    || (exists w :: Arrive(s, s', w))
    || (exists n :: Lead(s, s', n))
    || Commit(s, s')
    || CompleteNull(s, s')
  }

  ghost predicate IsRun(ss: seq<State>)
  {
    |ss| > 0 && Init(ss[0]) && forall i :: 0 <= i < |ss| - 1 ==> Step(ss[i], ss[i + 1])
  }

  lemma {:induction false} InitInv(s: State)
    requires Init(s)
    ensures Inv(s)
  {
    assert Batches([]) == [];
  }

  lemma {:induction false} StepInv(s: State, s': State)
    requires Inv(s) && Step(s, s')
    ensures Inv(s')
  {
    hide Inv, Arrive, Lead, Commit, CompleteNull;
    if w :| Arrive(s, s', w) { ArriveInv(s, s', w); }
    else if n: nat :| Lead(s, s', n) { LeadInv(s, s', n); }
    else if Commit(s, s') { CommitInv(s, s'); }
    else { CompleteNullInv(s, s'); }
  }

  /** In every run, writers complete exactly once and in the order they arrived, groups take
      consecutive sequence numbers, and no writer that asks for a sync shares a group whose
      leader does not. */
  lemma {:induction false} RunInv(ss: seq<State>, i: nat)
    requires IsRun(ss) && i < |ss|
    ensures Inv(ss[i])
  {
    hide Inv, Step, Init;
    if i == 0 {
      InitInv(ss[0]);
    } else {
      RunInv(ss, i - 1);
      assert Step(ss[i - 1], ss[i - 1 + 1]);
      StepInv(ss[i - 1], ss[i]);
    }
  }

  // ----- what a reader sees of a batch

  /** The sequence numbers before those of the `i`-th writer to arrive. */
  function Offset(ws: seq<Waiter>, i: nat): nat
    requires i <= |ws|
  {
    |Merged(ws[..i])|
  }

  lemma {:induction false} OffsetMonotone(ws: seq<Waiter>, i: nat, j: nat)
    requires i <= j <= |ws|
    ensures Offset(ws, i) <= Offset(ws, j)
  {
    hide Merged;
    assert ws[..j] == ws[..i] + ws[i..j];
    MergedConcat(ws[..i], ws[i..j]);
  }

  /** At the sequence counter a reader sees all of a batch or none of it. */
  lemma {:induction false} AllOrNone(s: State, i: nat)
    requires Inv(s) && i < |s.arrived|
    ensures i < |s.done| ==> Offset(s.arrived, i + 1) <= s.lastSequence
    ensures i >= |s.done| ==> Offset(s.arrived, i) >= s.lastSequence
  {
    EndIsCount(Batches(s.groups));
    hide End, AllOps, Merged;
    var d := |s.done|;
    assert s.arrived[..d] == s.done;
    if i < d { OffsetMonotone(s.arrived, i + 1, d); } else { OffsetMonotone(s.arrived, d, i); }
  }

  /** Each operation of a completed writer has that writer's number in the history. */
  lemma {:induction false} WriterIsWritten(s: State, i: nat, j: nat)
    requires Inv(s) && i < |s.done| && j < |OpsOf(s.done[i])|
    ensures var ops, k := AllOps(Batches(s.groups)), Offset(s.arrived, i) + j;
            k < |ops| && ops[k] == OpsOf(s.done[i])[j]
  {
    hide Contiguous, End, AllOps;
    var ws, k := s.done, Offset(s.arrived, i) + j;
    assert s.arrived[..i] == ws[..i] && ws == ws[..i + 1] + ws[i + 1..] && ws[..i + 1] == ws[..i] + [ws[i]];
    MergedSnoc(ws[..i], ws[i]);
    MergedConcat(ws[..i + 1], ws[i + 1..]);
    assert Merged(ws)[k] == OpsOf(ws[i])[j];
  }

  /** What a reader sees at the counter: the batches of the writers done, in order of arrival, and nothing of the
      others. */
  lemma {:induction false} ReadsAsQueue(ss: seq<State>, i: nat, u: UserKey)
    requires IsRun(ss) && i < |ss|
    ensures var s := ss[i];
            && s.done <= s.arrived
            && View(Written(Batches(s.groups)), u, s.lastSequence) == Lookup(Store(Merged(s.done)), u)
  {
    RunInv(ss, i);
    hide IsRun, Contiguous, End, AllOps, Merged, View, Written, Store;
    var h := Batches(ss[i].groups);
    EndIsCount(h);
    ReadsAsStore(h, u, End(h));
    assert AllOps(h)[..|AllOps(h)|] == AllOps(h);
  }

  // ----- everybody completes

  lemma {:induction false} GroupExists(queue: seq<Waiter>, from: nat) returns (n: nat)
    requires 1 <= from <= |queue| && forall i :: 1 <= i < from ==> Joins(queue, i)
    ensures IsGroup(queue, n)
    decreases |queue| - from
  {
    hide Joins;
    if from < |queue| && Joins(queue, from) {
      n := GroupExists(queue, from + 1);
    } else {
      n := from;
    }
  }

  /** The head of the queue is served: a group is formed and committed, or a null batch completes. */
  lemma {:induction false} ServeHead(s: State) returns (path: seq<State>)
    requires Inv(s) && s.leading.Nobody? && s.queue != []
    ensures |path| > 0 && Step(s, path[0]) && forall i :: 0 <= i < |path| - 1 ==> Step(path[i], path[i + 1])
    ensures var t := path[|path| - 1];
            t.leading.Nobody? && t.arrived == s.arrived && |t.queue| < |s.queue|
  {
    hide Inv, Merged, IsGroup;
    if s.queue[0].ops.None? {
      var t := s.(queue := s.queue[1..], done := s.done + [s.queue[0]]);
      assert CompleteNull(s, t);
      path := [t];
    } else {
      var n := GroupExists(s.queue, 1);
      GroupSize(s.queue, n);
      var b := Batch(s.lastSequence + 1, Merged(s.queue[..n]));
      var t := s.(leading := Writing(n, b));
      assert Lead(s, t, n);
      var u := t.(queue := s.queue[n..], leading := Nobody, lastSequence := s.lastSequence + |b.ops|,
                  groups := s.groups + [Group(s.queue[..n], b)], done := s.done + s.queue[..n]);
      assert Commit(t, u);
      path := [t, u];
    }
  }

  lemma {:induction false} GroupSize(queue: seq<Waiter>, n: nat)
    requires IsGroup(queue, n)
    ensures 1 <= n <= |queue|
  {
  }

  lemma {:induction false} Joined(ss: seq<State>, path: seq<State>)
    requires IsRun(ss) && |path| > 0 && Step(ss[|ss| - 1], path[0])
    requires forall i :: 0 <= i < |path| - 1 ==> Step(path[i], path[i + 1])
    ensures IsRun(ss + path)
  {
    hide Step, Init;
    var more := ss + path;
    forall i | 0 <= i < |more| - 1 ensures Step(more[i], more[i + 1]) {
      if i >= |ss| { assert more[i] == path[i - |ss|] && more[i + 1] == path[i - |ss| + 1]; }
      else if i < |ss| - 1 { assert Step(ss[i], ss[i + 1]); }
    }
  }

  /** From every reachable state the queue can be worked off: every writer that has arrived completes. */
  lemma {:induction false} AllComplete(ss: seq<State>) returns (more: seq<State>)
    requires IsRun(ss)
    ensures ss <= more && IsRun(more)
    ensures var s, t := ss[|ss| - 1], more[|more| - 1];
            t.queue == [] && t.leading.Nobody? && t.done == t.arrived == s.arrived
    decreases |ss[|ss| - 1].queue|, ss[|ss| - 1].leading.Writing?
  {
    var s := ss[|ss| - 1];
    RunInv(ss, |ss| - 1);
    hide Step, Init;
    if s.leading.Writing? {
      var t := CommitNow(s);
      Joined(ss, [t]);
      more := AllComplete(ss + [t]);
    } else if s.queue != [] {
      var path := ServeHead(s);
      Joined(ss, path);
      assert (ss + path)[|ss + path| - 1] == path[|path| - 1];
      more := AllComplete(ss + path);
    } else {
      more := ss;
      assert s.arrived == s.done + s.queue == s.done;
    }
  }

  lemma {:induction false} CommitNow(s: State) returns (t: State)
    requires Inv(s) && s.leading.Writing?
    ensures Step(s, t) && t.leading.Nobody? && t.arrived == s.arrived && |t.queue| < |s.queue|
  {
    var n, b := s.leading.n, s.leading.batch;
    hide Contiguous, End, AllOps, Merged;
    t := s.(queue := s.queue[n..], leading := Nobody, lastSequence := s.lastSequence + |b.ops|,
            groups := s.groups + [Group(s.queue[..n], b)], done := s.done + s.queue[..n]);
    assert Commit(s, t);
  }
}
