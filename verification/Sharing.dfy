/** The client's path set as its users share it: each operation is atomic under the set's mutex, and
    between two operations of one user the others may perform any of theirs. */
module Sharing {
  import opened ClientPaths
  import opened Framing
  import opened PathSet

  /** What receivers and reconnect loops do to the set; only the sender picks and marks. */
  predicate ByOthers(ops: seq<Op>) {
    forall i | 0 <= i < |ops| :: ops[i].OpAdd? || ops[i].OpRemove?
  }

  /** How many paths these operations bring in. */
  function Adds(ops: seq<Op>): nat {
    if ops == [] then 0 else Adds(ops[..|ops| - 1]) + AddsOf(ops[|ops| - 1])
  }

  function AddsOf(op: Op): nat {
    if op.OpAdd? || op.OpAppend? then 1 else 0
  }

  lemma {:induction false} AddsThen(a: seq<Op>, b: seq<Op>)
    ensures Adds(a + b) == Adds(a) + Adds(b)
  {
    if b == [] {
      assert a + b == a;
    } else {
      assert (a + b)[..|a + b| - 1] == a + b[..|b| - 1];
      AddsThen(a, b[..|b| - 1]);
    }
  }

  lemma AddsAnd(ops: seq<Op>, op: Op)
    ensures Adds(ops + [op]) == Adds(ops) + AddsOf(op)
  {
    assert (ops + [op])[..|ops|] == ops;
  }

  /** The receivers and reconnect loops at work; reconnecting brings in at most `adds` paths in all. */
  method Interfere(pathSet: ClientPathSet, adds: nat) returns (ghost moves: seq<Op>, left: nat)
    modifies pathSet
    ensures ByOthers(moves) && left + Adds(moves) == adds
    ensures pathSet.View() == Replay(old(pathSet.View()), moves)
  {
    var chosen: seq<Op> := *;
    if !ByOthers(chosen) || Adds(chosen) > adds {
      chosen := [];
    }
    pathSet.Meanwhile(chosen);
    moves, left := chosen, adds - Adds(chosen);
  }

  /** 1 if a path on this stream went missing from s to t. */
  function Lost(s: Paths, t: Paths, stream: StreamId): nat {
    if HasStream(s, stream) && !HasStream(t, stream) then 1 else 0
  }

  lemma OpShrinks(s: Paths, op: Op, stream: StreamId)
    ensures |Apply(s, op).paths| + Lost(s, Apply(s, op), stream) <= |s.paths| + AddsOf(op)
  {
    hide Scan, IdIndex, StreamIndex, Cooldown;
    match op
    case OpRemove(gone) =>
      if Remove(s, gone).1.None? {
        assert Apply(s, op) == s;
      }
    case OpAppend(path) => StillThere(s, Apply(s, op), stream);
    case OpAdd(path) =>
      if Add(s, path).1.None? {
        StillThere(s, Apply(s, op), stream);
      }
    case _ => StillThere(s, Apply(s, op), stream);
  }

  lemma StillThere(s: Paths, t: Paths, stream: StreamId)
    requires s.paths <= t.paths
    ensures Lost(s, t, stream) == 0
  {
    if HasStream(s, stream) {
      var i :| 0 <= i < |s.paths| && s.paths[i].stream == stream;
      assert t.paths[i].stream == stream;
    }
  }

  /** The set grows by no more than was added, and shrank if a path went missing. */
  lemma {:induction false} Shrinks(s: Paths, ops: seq<Op>, stream: StreamId)
    ensures |Replay(s, ops).paths| + Lost(s, Replay(s, ops), stream) <= |s.paths| + Adds(ops)
  {
    hide Apply, HasStream;
    if ops != [] {
      var front, op := ops[..|ops| - 1], ops[|ops| - 1];
      Shrinks(s, front, stream);
      OpShrinks(Replay(s, front), op, stream);
    }
  }

  /** Without additions, the set that remains is the original one without the streams removed. */
  lemma {:induction false} RemovalsOnly(s: Paths, ops: seq<Op>)
    requires Adds(ops) == 0 && DistinctStreams(s.paths)
    ensures DistinctStreams(Replay(s, ops).paths)
    ensures forall p :: p in Replay(s, ops).paths <==> p in s.paths && OpRemove(p.stream) !in ops
  {
    hide Apply, DistinctStreams;
    if ops != [] {
      var front, op := ops[..|ops| - 1], ops[|ops| - 1];
      assert ops == front + [op];
      RemovalsOnly(s, front);
      OneRemoval(Replay(s, front), op);
    }
  }

  lemma OneRemoval(s: Paths, op: Op)
    requires AddsOf(op) == 0 && DistinctStreams(s.paths)
    ensures DistinctStreams(Apply(s, op).paths)
    ensures forall p :: p in Apply(s, op).paths <==> p in s.paths && op != OpRemove(p.stream)
  {
    hide Scan, StreamIndex, Cooldown, DistinctStreams;
    if op.OpRemove? {
      RemoveEffect(s, op.stream);
    } else {
      assert Apply(s, op).paths == s.paths;
    }
  }
}
