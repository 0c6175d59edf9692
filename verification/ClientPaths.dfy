/** clientPathSet of internal/quictransport/client.go, updated in place. */
module ClientPaths {
  import opened Bytes
  import opened Framing
  import opened PathSet

  datatype PathSpec = PathSpec(id: int, address: string)

  /** clientPathSpecs: at most two paths, with ids of their own. */
  function ClientPathSpecs(server0: string, server1: string): (specs: seq<PathSpec>)
    ensures PathSpec(0, server0) in specs <==> server0 != ""
    ensures PathSpec(1, server1) in specs <==> server1 != ""
    ensures forall spec | spec in specs :: spec in {PathSpec(0, server0), PathSpec(1, server1)}
    ensures forall i, j | 0 <= i < j < |specs| :: specs[i].id != specs[j].id
    ensures |specs| == (if server0 != "" then 1 else 0) + (if server1 != "" then 1 else 0)
  {
    (if server0 != "" then [PathSpec(0, server0)] else [])
    + (if server1 != "" then [PathSpec(1, server1)] else [])
  }

  /** An arbitrary clock that never goes back. */
  class Clock {
    var time: int

    constructor (start: int)
      ensures time == start
    {
      time := start;
    }

    method Now() returns (now: int)
      modifies this
      ensures now == time >= old(time)
    {
      var advance: int := *;
      time := if advance < 0 then time else time + advance;
      now := time;
    }
  }

  class ClientPathSet {
    var paths: seq<Path>
    var next: nat
    var health: map<int, Health>

    /** The value the operations of PathSet work on. */
    ghost function View(): Paths
      reads this
    {
      Paths(paths, next, health)
    }

    constructor (paths: seq<Path>)
      ensures View() == New(paths)
    {
      this.paths := paths;
      next := 0;
      health := map[];
    }

    /** Operations of other users of the set. */
    method Meanwhile(moves: seq<Op>)
      modifies this
      ensures View() == Replay(old(View()), moves)
    {
      var s := Replay(Paths(paths, next, health), moves);
      paths, next, health := s.paths, s.next, s.health;
    }

    method Add(path: Path) returns (replaced: Option<Path>)
      modifies this
      ensures (View(), replaced) == PathSet.Add(old(View()), path)
    {
      var i := 0;
      while i < |paths|
        invariant i <= IdIndex(paths, path.id)
        invariant View() == old(View())
      {
        if paths[i].id == path.id {
          replaced := Some(paths[i]);
          paths := paths[i := path];
          return;
        }
        IdFurther(paths, path.id, i);
        i := i + 1;
      }
      paths := paths + [path];
      replaced := None;
    }

    method NextPath(clock: Clock) returns (path: Option<Path>)
      modifies this, clock
      ensures clock.time >= old(clock.time)
      ensures old(paths) == [] ==> path == None && View() == old(View())
      ensures old(paths) != [] ==>
                path.Some? && (View(), path.value) == PathSet.NextPath(old(View()), clock.time)
    {
      hide Scan;
      if |paths| == 0 {
        return None;
      }
      var start := next % |paths|;
      var now := clock.Now();
      var index := FirstWarm(start, now);
      path := Some(paths[index]);
      next := (index + 1) % |paths|;
    }

    /** The scan of nextPath: the first path from `start` on that is not cooling down, or that at `start`. */
    method FirstWarm(start: nat, now: int) returns (index: nat)
      requires start < |paths|
      ensures index == Scan(View(), now, start, 0)
    {
      hide Scan, IsCoolingDown, HealthOf;
      for i := 0 to |paths|
        invariant Scan(View(), now, start, i) == Scan(View(), now, start, 0)
      {
        ScanStep(View(), now, start, i);
        var candidateIndex := (start + i) % |paths|;
        if !IsCoolingDown(HealthOf(health, paths[candidateIndex].id), now) {
          return candidateIndex;
        }
      }
      ScanStep(View(), now, start, |paths|);
      index := start;
    }

    method Remove(stream: StreamId) returns (removed: Option<Path>)
      modifies this
      ensures (View(), removed) == PathSet.Remove(old(View()), stream)
    {
      var i := 0;
      while i < |paths|
        invariant i <= StreamIndex(paths, stream)
        invariant View() == old(View())
      {
        if paths[i].stream == stream {
          removed := Some(paths[i]);
          paths := paths[..i] + paths[i + 1..];
          if |paths| == 0 {
            next := 0;
          } else if next >= |paths| {
            next := next % |paths|;
          }
          return;
        }
        StreamFurther(paths, stream, i);
        i := i + 1;
      }
      removed := None;
    }

    method HasPathID(id: int) returns (has: bool)
      ensures has == HasId(View(), id)
    {
      for i := 0 to |paths|
        invariant forall j | 0 <= j < i :: paths[j].id != id
      {
        if paths[i].id == id {
          return true;
        }
      }
      has := false;
    }

    method MarkSuccess(id: int)
      modifies this
      ensures View() == PathSet.MarkSuccess(old(View()), id)
    {
      health := health - {id};
    }

    method MarkFailure(id: int, clock: Clock) returns (h: Health)
      modifies this, clock
      ensures clock.time >= old(clock.time)
      ensures View() == PathSet.MarkFailure(old(View()), id, clock.time)
      ensures id in health && h == health[id]
    {
      var failures := (HealthOf(health, id).failures + 1) % UINT64_SIZE;
      var now := clock.Now();
      h := Health(failures, now + Cooldown(failures));
      health := health[id := h];
    }
  }

  lemma IdFurther(paths: seq<Path>, id: int, i: nat)
    requires i < |paths| && i <= IdIndex(paths, id) && paths[i].id != id
    ensures i + 1 <= IdIndex(paths, id)
  {
  }

  lemma StreamFurther(paths: seq<Path>, stream: StreamId, i: nat)
    requires i < |paths| && i <= StreamIndex(paths, stream) && paths[i].stream != stream
    ensures i + 1 <= StreamIndex(paths, stream)
  {
  }
}
