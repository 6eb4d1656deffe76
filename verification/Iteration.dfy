/** Iterating over the database in any state of any run: the cursor walks the map of what was
    acknowledged. */
module Iteration {
  import opened DbIter
  import opened Durability
  import opened History
  import opened InputIterators
  import opened Levels
  import opened MapCursors
  import opened Merging
  import opened Ordering
  import opened Runs
  import opened Wrappers

  ghost predicate Reachable(r: Run)
  {
    exists rs :: IsRun(rs) && rs[|rs| - 1] == r
  }

  /** The run that an iterator made in this state walks. */
  function Walked(m: Durability.Memory): seq<Entry>
  {
    MergeLists(InternalRuns(m.mem, m.imm, m.current))
  }

  /** In every state of every run, the iterator's children merge into one sorted run; at every sequence number
      a reader may hold it reads as the map that the acknowledged operations up to there leave. */
  lemma {:induction false} WalksHistory(r: Run, s: nat)
    requires Reachable(r) && Readable(r, s)
    ensures s <= |AllOps(r.acked)|
    ensures var m := r.state.m;
            && Merged(InternalRuns(m.mem, m.imm, m.current), Walked(m))
            && Sorted(Walked(m)) && UniqueSeqs(SetOf(Walked(m)))
            && MapAt(SetOf(Walked(m)), s) == Store(AllOps(r.acked)[..s])
  {
    var rs :| IsRun(rs) && rs[|rs| - 1] == r;
    RunInv(rs);
    ReadableInRange(r, s);
    hide Inv, IsRun, View, SetOf, Written, Sorted, Valid, Above, UniqueSeqs, Merged, InternalRuns, MergeLists, AllOps,
         Store, MapAt;
    var m := r.state.m;
    StateReadsHistory(r, 0.0, s);
    ReadsMerge(m.mem, m.imm, m.current);
    HistoryIsStore(r, 0.0, s);
    forall u ensures View(SetOf(Walked(m)), u, s) == Lookup(Store(AllOps(r.acked)[..s]), u) {
      StateReadsHistory(r, u, s);
      HistoryIsStore(r, u, s);
    }
    MapAtIs(SetOf(Walked(m)), s, Store(AllOps(r.acked)[..s]));
  }

  /** Any sequence of moves of an iterator made at the end of any run shows what a cursor on the plain map shows. */
  method Iterate(r: Run, s: nat, moves: seq<Move>) returns (shown: seq<Option<(UserKey, Val)>>)
    requires Reachable(r) && Readable(r, s)
    ensures s <= |AllOps(r.acked)| && |shown| == |moves|
    ensures forall i :: 0 <= i < |moves| ==> Follows(Store(AllOps(r.acked)[..s]), moves, shown, i)
  {
    hide Reachable, View, Written, Sorted, UniqueSeqs, Follows, AllOps, Store, MapAt;
    WalksHistory(r, s);
    shown := Drive(Walked(r.state.m), s, moves);
  }
}
