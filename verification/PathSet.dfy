/** The client's path set (internal/quictransport/client.go): membership, round-robin cursor and the
    health table, as operations on a value. ClientPaths implements them in place. */
module PathSet {
  import opened Bytes
  import opened Framing
  import opened Numbers

  const UINT64_SIZE: int := 0x1_0000_0000_0000_0000

  datatype Path = Path(id: int, stream: StreamId)

  /** Times are nanoseconds on the process clock; 0 is the zero time.Time. */
  datatype Health = Health(failures: nat, until: int)

  datatype Paths = Paths(paths: seq<Path>, next: nat, health: map<int, Health>)

  function New(paths: seq<Path>): Paths {
    Paths(paths, 0, map[])
  }

  function Cooldown(failures: nat): nat {
    if failures == 0 then 0 else SECOND * Pow2((if failures > 5 then 5 else failures) - 1)
  }

  function HealthOf(health: map<int, Health>, id: int): Health {
    if id in health then health[id] else Health(0, 0)
  }

  predicate IsCoolingDown(h: Health, now: int) {
    h.until != 0 && now < h.until
  }

  predicate Cooling(s: Paths, now: int, i: nat)
    requires i < |s.paths|
  {
    IsCoolingDown(HealthOf(s.health, s.paths[i].id), now)
  }

  // ---- The operations ----

  /** First position holding this path id, or |paths|. */
  function IdIndex(paths: seq<Path>, id: int): (i: nat)
    ensures i <= |paths|
    ensures i < |paths| ==> paths[i].id == id
    ensures forall j | 0 <= j < i :: paths[j].id != id
  {
    if paths == [] || paths[0].id == id then 0 else 1 + IdIndex(paths[1..], id)
  }

  /** First position holding this stream, or |paths|. */
  function StreamIndex(paths: seq<Path>, stream: StreamId): (i: nat)
    ensures i <= |paths|
    ensures i < |paths| ==> paths[i].stream == stream
    ensures forall j | 0 <= j < i :: paths[j].stream != stream
  {
    if paths == [] || paths[0].stream == stream then 0 else 1 + StreamIndex(paths[1..], stream)
  }

  predicate HasId(s: Paths, id: int) {
    exists i | 0 <= i < |s.paths| :: s.paths[i].id == id
  }

  predicate HasStream(s: Paths, stream: StreamId) {
    exists i | 0 <= i < |s.paths| :: s.paths[i].stream == stream
  }

  function Add(s: Paths, path: Path): (Paths, Option<Path>) {
    var i := IdIndex(s.paths, path.id);
    if i < |s.paths| then (s.(paths := s.paths[i := path]), Some(s.paths[i]))
    else (s.(paths := s.paths + [path]), None)
  }

  function Remove(s: Paths, stream: StreamId): (Paths, Option<Path>) {
    var i := StreamIndex(s.paths, stream);
    if i == |s.paths| then (s, None) else
    var left := s.paths[..i] + s.paths[i + 1..];
    var next := if left == [] then 0 else if s.next >= |left| then s.next % |left| else s.next;
    (s.(paths := left, next := next), Some(s.paths[i]))
  }

  /** The first position at or after offset i from `start`, cyclically, that is not cooling down;
      `start` when there is none. */
  function Scan(s: Paths, now: int, start: nat, i: nat): (index: nat)
    requires start < |s.paths| && i <= |s.paths|
    ensures index < |s.paths|
    decreases |s.paths| - i
  {
    if i == |s.paths| then start
    else if !Cooling(s, now, (start + i) % |s.paths|) then (start + i) % |s.paths|
    else Scan(s, now, start, i + 1)
  }

  function PickIndex(s: Paths, now: int): (index: nat)
    requires s.paths != []
    ensures index < |s.paths|
  {
    Scan(s, now, s.next % |s.paths|, 0)
  }

  lemma ScanStep(s: Paths, now: int, start: nat, i: nat)
    requires start < |s.paths| && i <= |s.paths|
    ensures i == |s.paths| ==> Scan(s, now, start, i) == start
    ensures i < |s.paths| ==>
              var k := (start + i) % |s.paths|;
              && 0 <= k < |s.paths|
              && Scan(s, now, start, i)
                 == if IsCoolingDown(HealthOf(s.health, s.paths[k].id), now) then Scan(s, now, start, i + 1) else k
  {
  }

  /** nextPath on a nonempty set. */
  function NextPath(s: Paths, now: int): (Paths, Path)
    requires s.paths != []
  {
    var index := PickIndex(s, now);
    (s.(next := (index + 1) % |s.paths|), s.paths[index])
  }

  function MarkSuccess(s: Paths, id: int): Paths {
    s.(health := s.health - {id})
  }

  function MarkFailure(s: Paths, id: int, now: int): Paths {
    var failures := (HealthOf(s.health, id).failures + 1) % UINT64_SIZE;
    s.(health := s.health[id := Health(failures, now + Cooldown(failures))])
  }

  // ---- Every history of operations ----

  /** The client adds a path in place of one with its id; the server appends without looking. */
  datatype Op =
    | OpAdd(path: Path)
    | OpAppend(path: Path)
    | OpRemove(stream: StreamId)
    | OpPick(now: int)
    | OpFail(id: int, now: int)
    | OpSucceed(id: int)

  function Apply(s: Paths, op: Op): Paths {
    match op
    case OpAdd(path) => Add(s, path).0
    case OpAppend(path) => s.(paths := s.paths + [path])
    case OpRemove(stream) => Remove(s, stream).0
    case OpPick(now) => if s.paths == [] then s else NextPath(s, now).0
    case OpFail(id, now) => MarkFailure(s, id, now)
    case OpSucceed(id) => MarkSuccess(s, id)
  }

  function Replay(s: Paths, ops: seq<Op>): Paths {
    if ops == [] then s else Apply(Replay(s, ops[..|ops| - 1]), ops[|ops| - 1])
  }

  lemma {:induction false} ReplayThen(s: Paths, a: seq<Op>, b: seq<Op>)
    ensures Replay(s, a + b) == Replay(Replay(s, a), b)
  {
    if b == [] {
      assert a + b == a;
    } else {
      assert (a + b)[..|a + b| - 1] == a + b[..|b| - 1];
      ReplayThen(s, a, b[..|b| - 1]);
    }
  }

  lemma ReplayAnd(s: Paths, ops: seq<Op>, op: Op)
    ensures Replay(s, ops + [op]) == Apply(Replay(s, ops), op)
  {
    assert (ops + [op])[..|ops|] == ops;
  }

  lemma ReplayOne(s: Paths, op: Op)
    ensures Replay(s, [op]) == Apply(s, op)
  {
    assert Replay(s, [op][..0]) == s;
  }

  lemma ReplayNone(s: Paths)
    ensures Replay(s, []) == s
  {
  }

  predicate CursorValid(s: Paths) {
    s.next == 0 || s.next < |s.paths|
  }

  lemma ApplyKeepsCursor(s: Paths, op: Op)
    ensures CursorValid(s) ==> CursorValid(Apply(s, op))
  {
    hide Scan, IdIndex, StreamIndex, Cooldown;
  }

  lemma {:induction false} CursorAlwaysValid(s: Paths, ops: seq<Op>)
    requires CursorValid(s)
    ensures CursorValid(Replay(s, ops))
  {
    if ops != [] {
      CursorAlwaysValid(s, ops[..|ops| - 1]);
      ApplyKeepsCursor(Replay(s, ops[..|ops| - 1]), ops[|ops| - 1]);
    }
  }

  /** Failures of `id` since its last success, read off the history alone. */
  function FailuresSince(ops: seq<Op>, id: int): nat {
    if ops == [] then 0 else
    var before := FailuresSince(ops[..|ops| - 1], id);
    match ops[|ops| - 1]
    case OpFail(who, _) => if who == id then before + 1 else before
    case OpSucceed(who) => if who == id then 0 else before
    case _ => before
  }

  /** When `id` last failed. */
  function LastFailure(ops: seq<Op>, id: int): int {
    if ops == [] then 0 else
    match ops[|ops| - 1]
    case OpFail(who, now) => if who == id then now else LastFailure(ops[..|ops| - 1], id)
    case _ => LastFailure(ops[..|ops| - 1], id)
  }

  /** The health table holds exactly the history: an entry for the ids with failures since their
      last success, with their number (in a uint64) and the end of the cooldown it earned. Adding,
      removing and picking paths never touches it. */
  lemma {:induction false} HealthIsHistory(paths: seq<Path>, ops: seq<Op>, id: int)
    ensures var health, k := Replay(New(paths), ops).health, FailuresSince(ops, id);
            && (id in health <==> k > 0)
            && (k > 0 ==> health[id] == Health(k % UINT64_SIZE, LastFailure(ops, id) + Cooldown(k % UINT64_SIZE)))
  {
    hide Cooldown, PickIndex, IdIndex, StreamIndex;
    if ops != [] {
      var earlier, op := ops[..|ops| - 1], ops[|ops| - 1];
      HealthIsHistory(paths, earlier, id);
      if op.OpFail? && op.id == id {
        ModPlus(FailuresSince(earlier, id), 1, UINT64_SIZE);
      }
    }
  }

  function FailuresIn(ops: seq<Op>, id: int): nat {
    if ops == [] then 0
    else FailuresIn(ops[..|ops| - 1], id)
         + if ops[|ops| - 1].OpFail? && ops[|ops| - 1].id == id then 1 else 0
  }

  /** The number meant: all failures of the id after its last success at j - 1, or after the start. */
  lemma {:induction false} FailuresSinceSuccess(ops: seq<Op>, id: int, j: nat)
    requires j <= |ops| && (j > 0 ==> ops[j - 1] == OpSucceed(id))
    requires forall i | j <= i < |ops| :: ops[i] != OpSucceed(id)
    ensures FailuresSince(ops, id) == FailuresIn(ops[j..], id)
  {
    if j < |ops| {
      FailuresSinceSuccess(ops[..|ops| - 1], id, j);
      assert ops[j..][..|ops| - j - 1] == ops[..|ops| - 1][j..];
    }
  }

  /** The time meant: that of the id's last failure in the history. */
  lemma {:induction false} LastFailureIs(ops: seq<Op>, id: int, i: nat, now: int)
    requires i < |ops| && ops[i] == OpFail(id, now)
    requires forall j | i < j < |ops| :: !(ops[j].OpFail? && ops[j].id == id)
    ensures LastFailure(ops, id) == now
  {
    if i < |ops| - 1 {
      LastFailureIs(ops[..|ops| - 1], id, i, now);
    }
  }

  lemma CooldownTable(k: nat)
    requires k > 0
    ensures Cooldown(k) == SECOND * (match k case 1 => 1 case 2 => 2 case 3 => 4 case 4 => 8 case _ => 16)
  {
    assert Pow2(0) == 1 && Pow2(1) == 2 && Pow2(2) == 4;
    assert Pow2(3) == 8 && Pow2(4) == 16;
  }

  // ---- Which path is picked ----

  lemma {:induction false} ScanFinds(s: Paths, now: int, start: nat, i: nat, j: nat)
    requires start < |s.paths| && i <= j < |s.paths|
    requires !Cooling(s, now, (start + j) % |s.paths|)
    ensures !Cooling(s, now, Scan(s, now, start, i))
    decreases |s.paths| - i
  {
    if Cooling(s, now, (start + i) % |s.paths|) {
      ScanFinds(s, now, start, i + 1, j);
    }
  }

  /** Every position is some offset from the start. */
  lemma OffsetOf(start: nat, i: nat, n: nat) returns (j: nat)
    requires start < n && i < n
    ensures j < n && (start + j) % n == i
  {
    j := if start <= i then i - start else i + n - start;
    ModUnique(start + j, i, if start <= i then 0 else 1, n);
  }

  /** A cooling path is never picked while a path that is not cooling is active. */
  lemma PickAvoidsCooling(s: Paths, now: int, warm: nat)
    requires warm < |s.paths| && !Cooling(s, now, warm)
    ensures !Cooling(s, now, PickIndex(s, now))
  {
    var start := s.next % |s.paths|;
    var j := OffsetOf(start, warm, |s.paths|);
    ScanFinds(s, now, start, 0, j);
  }

  /** A path is cooling down exactly if its id has an entry whose cooldown has not ended yet. */
  lemma CoolingExactly(s: Paths, now: int, i: nat)
    requires i < |s.paths|
    ensures Cooling(s, now, i)
            <==> var id := s.paths[i].id;
                 id in s.health && s.health[id].until != 0 && now < s.health[id].until
  {
  }

  /** In terms of the history: after a failure that no success followed, up to the end of the cooldown. */
  lemma CoolingIsHistory(paths: seq<Path>, ops: seq<Op>, now: int, i: nat)
    requires i < |Replay(New(paths), ops).paths|
    requires var id := Replay(New(paths), ops).paths[i].id;
             FailuresSince(ops, id) < UINT64_SIZE && 0 <= LastFailure(ops, id)
    ensures var s := Replay(New(paths), ops);
            var k, last := FailuresSince(ops, s.paths[i].id), LastFailure(ops, s.paths[i].id);
            Cooling(s, now, i) <==> k > 0 && now < last + Cooldown(k)
  {
    hide Replay, FailuresSince, LastFailure, Cooldown;
    var id := Replay(New(paths), ops).paths[i].id;
    HealthIsHistory(paths, ops, id);
    if FailuresSince(ops, id) > 0 {
      CooldownTable(FailuresSince(ops, id));
      ModSmall(FailuresSince(ops, id), UINT64_SIZE);
    }
  }

  /** Whether the path k positions past the cursor, cyclically, is cooling down. */
  predicate CoolingAfter(s: Paths, now: int, k: nat)
    requires s.paths != []
  {
    Cooling(s, now, (s.next % |s.paths| + k) % |s.paths|)
  }

  /** The first path from the cursor on that is not cooling down is the one picked. */
  lemma FirstWarmIsPicked(s: Paths, now: int, j: nat)
    requires j < |s.paths| && !CoolingAfter(s, now, j) && forall k | 0 <= k < j :: CoolingAfter(s, now, k)
    ensures NextPath(s, now).1 == s.paths[(s.next % |s.paths| + j) % |s.paths|]
  {
    hide Scan, CoolingAfter;
    ScanReaches(s, now, 0, j);
  }

  lemma {:induction false} ScanReaches(s: Paths, now: int, i: nat, j: nat)
    requires i <= j < |s.paths| && !CoolingAfter(s, now, j) && forall k | 0 <= k < j :: CoolingAfter(s, now, k)
    ensures Scan(s, now, s.next % |s.paths|, i) == (s.next % |s.paths| + j) % |s.paths|
    decreases j - i
  {
    hide CoolingAfter, Scan;
    ScanLooks(s, now, i);
    if i < j {
      ScanReaches(s, now, i + 1, j);
    }
  }

  lemma ScanLooks(s: Paths, now: int, i: nat)
    requires i < |s.paths|
    ensures Scan(s, now, s.next % |s.paths|, i)
            == if CoolingAfter(s, now, i) then Scan(s, now, s.next % |s.paths|, i + 1)
               else (s.next % |s.paths| + i) % |s.paths|
  {
  }

  /** With no health entries nothing is cooling, so selection is plain round robin. */
  lemma PickMoves(s: Paths, now: int)
    requires s.paths != [] && s.health == map[]
    ensures NextPath(s, now).1 == s.paths[s.next % |s.paths|]
    ensures Apply(s, OpPick(now)) == s.(next := (s.next + 1) % |s.paths|)
  {
    ModSmall(s.next % |s.paths|, |s.paths|);
    ModPlus(s.next, 1, |s.paths|);
    hide Scan;
    ScanLooks(s, now, 0);
  }

  /** Cooldowns end: after any history, the path in turn is picked if it has not failed since its last
      success or its cooldown is over. */
  lemma CooldownEnds(paths: seq<Path>, ops: seq<Op>, now: int)
    requires Replay(New(paths), ops).paths != []
    requires var s := Replay(New(paths), ops);
             var id := s.paths[s.next % |s.paths|].id;
             var k, last := FailuresSince(ops, id), LastFailure(ops, id);
             k == 0 || (k < UINT64_SIZE && 0 <= last && last + Cooldown(k) <= now)
    ensures var s := Replay(New(paths), ops);
            NextPath(s, now).1 == s.paths[s.next % |s.paths|]
  {
    hide Replay, FailuresSince, LastFailure, Cooldown, Cooling;
    var s := Replay(New(paths), ops);
    var start := s.next % |s.paths|;
    var id := s.paths[start].id;
    ModSmall(start, |s.paths|);
    if FailuresSince(ops, id) == 0 {
      HealthIsHistory(paths, ops, id);
      CoolingExactly(s, now, start);
    } else {
      CoolingIsHistory(paths, ops, now, start);
    }
    FirstWarmIsPicked(s, now, 0);
  }

  /** So a path that failed is not used again before its cooldown is over, even after it was removed
      and reconnected, as long as some path that is not cooling down is active. */
  lemma NoPickDuringCooldown(paths: seq<Path>, ops: seq<Op>, now: int, id: int, warm: nat)
    requires var k := FailuresSince(ops, id);
             && 0 < k < UINT64_SIZE
             && 0 <= LastFailure(ops, id)
             && now < LastFailure(ops, id) + Cooldown(k)
    requires var s := Replay(New(paths), ops);
             warm < |s.paths| && !Cooling(s, now, warm)
    ensures NextPath(Replay(New(paths), ops), now).1.id != id
  {
    HealthIsHistory(paths, ops, id);
    CooldownTable(FailuresSince(ops, id));
    ModSmall(FailuresSince(ops, id), UINT64_SIZE);
    PickAvoidsCooling(Replay(New(paths), ops), now, warm);
  }

  // ---- What a removal does to the set ----

  predicate DistinctStreams(paths: seq<Path>) {
    forall i, j | 0 <= i < j < |paths| :: paths[i].stream != paths[j].stream
  }

  /** Removing a stream removes its path and no other, keeping the order of the rest. */
  lemma RemoveEffect(s: Paths, stream: StreamId)
    requires DistinctStreams(s.paths)
    ensures var (t, removed) := Remove(s, stream);
            && (removed.Some? <==> HasStream(s, stream))
            && (removed.Some? ==> removed.value in s.paths && removed.value.stream == stream
                                  && |t.paths| == |s.paths| - 1)
            && (removed.None? ==> t == s)
            && (forall p :: p in t.paths <==> p in s.paths && p.stream != stream)
            && DistinctStreams(t.paths)
  {
    hide Remove, DistinctStreams;
    RemoveFinds(s, stream);
    RemoveKeepsOthers(s, stream);
    RemoveKeepsDistinct(s, stream);
  }

  /** The positions of the paths that stay. */
  lemma RemovedPositions(s: Paths, stream: StreamId)
    ensures var i, t := StreamIndex(s.paths, stream), Remove(s, stream).0;
            && |t.paths| == (if i < |s.paths| then |s.paths| - 1 else |s.paths|)
            && (i == |s.paths| ==> t == s)
            && forall j | 0 <= j < |t.paths| :: t.paths[j] == s.paths[if j < i then j else j + 1]
  {
  }

  lemma RemoveKeepsDistinct(s: Paths, stream: StreamId)
    requires DistinctStreams(s.paths)
    ensures DistinctStreams(Remove(s, stream).0.paths)
  {
    hide Remove;
    RemovedPositions(s, stream);
  }

  lemma RemoveKeepsOthers(s: Paths, stream: StreamId)
    requires DistinctStreams(s.paths)
    ensures forall p :: p in Remove(s, stream).0.paths <==> p in s.paths && p.stream != stream
  {
    hide Remove;
    RemovedPositions(s, stream);
    var i, left := StreamIndex(s.paths, stream), Remove(s, stream).0.paths;
    forall p | p in s.paths && p.stream != stream ensures p in left {
      var j :| 0 <= j < |s.paths| && s.paths[j] == p;
      assert left[if j < i then j else j - 1] == p;
    }
  }

  lemma RemoveFinds(s: Paths, stream: StreamId)
    ensures Remove(s, stream).1.Some? <==> HasStream(s, stream)
    ensures Remove(s, stream).1.Some? ==>
              Remove(s, stream).1.value in s.paths && Remove(s, stream).1.value.stream == stream
    ensures Remove(s, stream).1.None? ==> Remove(s, stream).0 == s
    ensures |Remove(s, stream).0.paths| == |s.paths| - if HasStream(s, stream) then 1 else 0
  {
    var i := StreamIndex(s.paths, stream);
    assert i < |s.paths| ==> s.paths[i].stream == stream;
  }

  /** Adding puts the path where its id was, or at the end; every other path stays in its place. */
  lemma AddEffect(s: Paths, path: Path)
    ensures var (t, replaced) := Add(s, path);
            && t == s.(paths := t.paths) && path in t.paths
            && |t.paths| == |s.paths| + (if HasId(s, path.id) then 0 else 1)
            && (replaced.Some? <==> HasId(s, path.id))
            && (replaced.Some? ==> replaced.value in s.paths && replaced.value.id == path.id)
            && (forall i | 0 <= i < |s.paths| && s.paths[i].id != path.id :: t.paths[i] == s.paths[i])
            && (!HasId(s, path.id) ==> t.paths[|s.paths|] == path)
  {
    var i := IdIndex(s.paths, path.id);
    if i < |s.paths| {
      assert s.paths[i].id == path.id;
      assert Add(s, path).0.paths[i] == path;
    } else {
      assert Add(s, path).0.paths[|s.paths|] == path;
    }
  }

  lemma HasByMember(s: Paths, t: Paths)
    requires forall p | p in t.paths :: p in s.paths
    ensures forall stream | HasStream(t, stream) :: HasStream(s, stream)
    ensures forall id | HasId(t, id) :: HasId(s, id)
  {
    forall stream | HasStream(t, stream) ensures HasStream(s, stream) {
      var i :| 0 <= i < |t.paths| && t.paths[i].stream == stream;
      assert t.paths[i] in s.paths;
    }
    forall id | HasId(t, id) ensures HasId(s, id) {
      var i :| 0 <= i < |t.paths| && t.paths[i].id == id;
      assert t.paths[i] in s.paths;
    }
  }

  lemma SameOthers(s: Paths, t: Paths, stream: StreamId)
    requires forall p :: p in t.paths <==> p in s.paths && p.stream != stream
    ensures forall other | other != stream :: HasStream(t, other) <==> HasStream(s, other)
  {
    HasByMember(s, t);
    forall other | other != stream && HasStream(s, other) ensures HasStream(t, other) {
      var i :| 0 <= i < |s.paths| && s.paths[i].stream == other;
      assert s.paths[i] in t.paths;
    }
  }

  // ---- What a removal does to the rotation ----

  /** k % n for positions just past the end. */
  function Wrapped(k: nat, n: nat): nat {
    if k >= n then k - n else k
  }

  lemma RemovedAt(s: Paths, i: nat)
    requires s.next < |s.paths| && i < |s.paths| && DistinctStreams(s.paths)
    ensures var t := Remove(s, s.paths[i].stream).0;
            && |t.paths| == |s.paths| - 1
            && (forall a | 0 <= a < |t.paths| :: t.paths[a] == s.paths[if a < i then a else a + 1])
            && t.next == if s.next < |t.paths| then s.next else 0
  {
    FoundAt(s.paths, i);
    hide StreamIndex, DistinctStreams;
    var n := |s.paths| - 1;
    if n > 0 && s.next == n {
      ModUnique(n, 0, 1, n);
    }
  }

  lemma FoundAt(paths: seq<Path>, i: nat)
    requires i < |paths| && DistinctStreams(paths)
    ensures StreamIndex(paths, paths[i].stream) == i
  {
  }

  /** Removing a path leaves the turn where it was (or, if it was the removed path's, passes it to the
      next one) exactly if the path stood at or after the cursor, or only one is left. Otherwise the
      cursor stays put while the paths move up, and one is passed over. */
  lemma RemovalKeepsTurn(s: Paths, i: nat)
    requires s.next < |s.paths| && i < |s.paths| && |s.paths| > 1 && DistinctStreams(s.paths)
    ensures var t := Remove(s, s.paths[i].stream).0;
            var turn := if i == s.next then Wrapped(i + 1, |s.paths|) else s.next;
            && t.next < |t.paths|
            && (t.paths[t.next] == s.paths[turn] <==> i >= s.next || |s.paths| == 2)
  {
    hide Remove;
    RemovedAt(s, i);
    if i < s.next && |s.paths| > 2 {
      var passed := if s.next < |s.paths| - 1 then s.next + 1 else if i == 0 then 1 else 0;
      assert s.paths[passed].stream != s.paths[s.next].stream;
    }
  }

  /** In particular, when a write on the path just picked fails, its neighbour next in line is passed
      over in favour of the one after, unless the picked path was the last of the list or there are
      only two. */
  lemma FailoverPassesOver(s: Paths, now: int)
    requires |s.paths| > 1 && DistinctStreams(s.paths)
    ensures var (u, path) := NextPath(s, now);
            var n, i := |s.paths|, PickIndex(s, now);
            var t := Remove(u, path.stream).0;
            && t.next < |t.paths|
            && t.paths[t.next] == s.paths[Wrapped(i + if i == n - 1 || n == 2 then 1 else 2, n)]
  {
    hide Remove, PickIndex;
    var (u, path) := NextPath(s, now);
    var n, i := |s.paths|, PickIndex(s, now);
    CursorAfter(i, n);
    RemovedAt(u, i);
  }

  lemma CursorAfter(i: nat, n: nat)
    requires i < n
    ensures (i + 1) % n == Wrapped(i + 1, n)
  {
    if i + 1 < n {
      ModSmall(i + 1, n);
    }
  }
}
