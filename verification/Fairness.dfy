/** Fairness of path selection while membership, health and clock stand still, and its agreement
    with the plain round robin of internal/multipath/scheduler.go. */
module Fairness {
  import opened Numbers
  import opened PathSet

  predicate AllCooling(s: Paths, now: int) {
    forall i | 0 <= i < |s.paths| :: Cooling(s, now, i)
  }

  /** The positions selection draws from: those not cooling down, or all if every one is. */
  predicate Eligible(s: Paths, now: int, i: nat)
    requires i < |s.paths|
  {
    !Cooling(s, now, i) || AllCooling(s, now)
  }

  function EligibleSet(s: Paths, now: int): set<int> {
    set i | 0 <= i < |s.paths| && Eligible(s, now, i)
  }

  /** The positions m consecutive calls of nextPath return. */
  function Run(s: Paths, now: int, m: nat): (r: seq<int>)
    requires s.paths != []
    ensures |r| == m && forall i | 0 <= i < m :: 0 <= r[i] < |s.paths|
    decreases m
  {
    if m == 0 then [] else [PickIndex(s, now)] + Run(NextPath(s, now).0, now, m - 1)
  }

  /** The set after m such calls. */
  function After(s: Paths, now: int, m: nat): (t: Paths)
    requires s.paths != []
    ensures t.paths == s.paths && t.health == s.health
    decreases m
  {
    if m == 0 then s else After(NextPath(s, now).0, now, m - 1)
  }

  /** The eligible positions among `count` consecutive ones, in cyclic order. */
  function Round(s: Paths, now: int, from: nat, count: nat): (r: seq<int>)
    requires s.paths != []
    ensures |r| <= count
    decreases count
  {
    if count == 0 then []
    else
      var i := from % |s.paths|;
      (if Eligible(s, now, i) then [i] else []) + Round(s, now, from + 1, count - 1)
  }

  // ---- Selection visits exactly the eligible positions, in order ----

  /** From a position that is cooling, selection does what it would do from the next position. */
  lemma {:induction false} ScanShift(s: Paths, now: int, start: nat, next: nat, i: nat, warm: nat)
    requires start < |s.paths| && next == (start + 1) % |s.paths|
    requires i < warm < |s.paths| && !Cooling(s, now, (start + warm) % |s.paths|)
    ensures Scan(s, now, start, i + 1) == Scan(s, now, next, i)
    decreases |s.paths| - i
  {
    ModPlus(start + 1, i, |s.paths|);
    if i + 1 < warm && Cooling(s, now, (start + i + 1) % |s.paths|) {
      ScanShift(s, now, start, next, i + 1, warm);
    }
  }

  lemma SkipCooling(s: Paths, t: Paths, now: int)
    requires s.paths != [] && t == s.(next := (s.next + 1) % |s.paths|)
    requires !Eligible(s, now, s.next % |s.paths|)
    ensures PickIndex(s, now) == PickIndex(t, now) && NextPath(s, now) == NextPath(t, now)
  {
    var n, start := |s.paths|, s.next % |s.paths|;
    var warm: nat :| warm < n && !Cooling(s, now, warm);
    var j := OffsetOf(start, warm, n);
    ModSmall(start, n);
    ModPlus(s.next, 1, n);
    ModSmall(t.next, n);
    ScanShift(s, now, start, t.next, 0, j);
    ScanOnlyReads(s, t, now, t.next, 0);
  }

  lemma {:induction false} ScanOnlyReads(s: Paths, t: Paths, now: int, start: nat, i: nat)
    requires s.paths == t.paths && s.health == t.health
    requires start < |s.paths| && i <= |s.paths|
    ensures Scan(s, now, start, i) == Scan(t, now, start, i)
    decreases |s.paths| - i
  {
    if i < |s.paths| {
      ScanOnlyReads(s, t, now, start, i + 1);
    }
  }

  lemma PickEligible(s: Paths, now: int)
    requires s.paths != [] && Eligible(s, now, s.next % |s.paths|)
    ensures PickIndex(s, now) == s.next % |s.paths|
  {
    var start := s.next % |s.paths|;
    ModSmall(start, |s.paths|);
    if Cooling(s, now, start) {
      ScanAllCooling(s, now, start, 0);
    }
  }

  lemma {:induction false} ScanAllCooling(s: Paths, now: int, start: nat, i: nat)
    requires start < |s.paths| && i <= |s.paths| && AllCooling(s, now)
    ensures Scan(s, now, start, i) == start
    decreases |s.paths| - i
  {
    if i < |s.paths| {
      ScanAllCooling(s, now, start, i + 1);
    }
  }

  lemma {:induction false} RunFollowsRound(s: Paths, now: int, from: nat, count: nat, m: nat)
    requires s.paths != [] && s.next % |s.paths| == from % |s.paths|
    requires m <= |Round(s, now, from, count)|
    ensures Run(s, now, m) == Round(s, now, from, count)[..m]
    decreases count
  {
    hide Run, Round, Eligible, PickIndex;
    if m == 0 {
      NoTurns(s, now);
    } else {
      var next := s.(next := (s.next + 1) % |s.paths|);
      RoundStep(s, now, from, count);
      CursorStep(s.next, from, |s.paths|);
      if Eligible(s, now, from % |s.paths|) {
        RunPicks(s, now, m);
        RunFollowsRound(next, now, from + 1, count - 1, m - 1);
      } else {
        RunSkips(s, now, m);
        RunFollowsRound(next, now, from + 1, count - 1, m);
      }
    }
  }

  lemma NoTurns(s: Paths, now: int)
    requires s.paths != []
    ensures Run(s, now, 0) == []
  {
  }

  lemma CursorStep(next: nat, from: nat, n: nat)
    requires n > 0 && next % n == from % n
    ensures (next + 1) % n % n == (from + 1) % n
  {
    ModPlus(next, 1, n);
    ModPlus(from, 1, n);
    ModSmall((next + 1) % n, n);
  }

  /** A round is its first position, if eligible, and the round of the moved cursor. */
  lemma RoundStep(s: Paths, now: int, from: nat, count: nat)
    requires s.paths != [] && |Round(s, now, from, count)| > 0
    ensures count > 0
    ensures var next, i := s.(next := (s.next + 1) % |s.paths|), from % |s.paths|;
            Round(s, now, from, count)
            == (if Eligible(s, now, i) then [i] else []) + Round(next, now, from + 1, count - 1)
  {
    hide Eligible;
    RoundOnlyReads(s, s.(next := (s.next + 1) % |s.paths|), now, from + 1, count - 1);
  }

  lemma RunPicks(s: Paths, now: int, m: nat)
    requires s.paths != [] && m > 0 && Eligible(s, now, s.next % |s.paths|)
    ensures var next := s.(next := (s.next + 1) % |s.paths|);
            Run(s, now, m) == [s.next % |s.paths|] + Run(next, now, m - 1)
  {
    hide Eligible;
    PickEligible(s, now);
    ModPlus(s.next, 1, |s.paths|);
  }

  lemma RunSkips(s: Paths, now: int, m: nat)
    requires s.paths != [] && m > 0 && !Eligible(s, now, s.next % |s.paths|)
    ensures Run(s, now, m) == Run(s.(next := (s.next + 1) % |s.paths|), now, m)
  {
    hide Eligible;
    SkipCooling(s, s.(next := (s.next + 1) % |s.paths|), now);
  }

  lemma {:induction false} RoundOnlyReads(s: Paths, t: Paths, now: int, from: nat, count: nat)
    requires s.paths != [] && s.paths == t.paths && s.health == t.health
    ensures Round(s, now, from, count) == Round(t, now, from, count)
    decreases count
  {
    assert forall i | 0 <= i < |s.paths| :: Cooling(s, now, i) == Cooling(t, now, i);
    if count > 0 {
      RoundOnlyReads(s, t, now, from + 1, count - 1);
    }
  }

  predicate At(from: nat, j: nat, n: nat, x: nat)
    requires n > 0
  {
    (from + j) % n == x
  }

  ghost predicate Covered(from: nat, count: nat, n: nat, x: nat)
    requires n > 0
  {
    exists j: nat :: j < count && At(from, j, n, x)
  }

  /** Up to n consecutive positions hold each eligible position they cover exactly once. */
  lemma {:induction false} RoundCount(s: Paths, now: int, from: nat, count: nat, x: nat)
    requires s.paths != [] && count <= |s.paths| && x < |s.paths|
    ensures multiset(Round(s, now, from, count))[x]
            == if Eligible(s, now, x) && Covered(from, count, |s.paths|, x) then 1 else 0
    decreases count
  {
    hide Eligible, Covered;
    var n, i := |s.paths|, from % |s.paths|;
    if count == 0 {
      NothingCovered(from, n, x);
    } else {
      RoundCount(s, now, from + 1, count - 1, x);
      CoveredStep(from, count, n, x);
    }
  }

  lemma NothingCovered(from: nat, n: nat, x: nat)
    requires n > 0
    ensures !Covered(from, 0, n, x)
  {
  }

  lemma AllCovered(from: nat, n: nat, x: nat)
    requires x < n
    ensures Covered(from, n, n, x)
  {
    var j := OffsetOf(from % n, x, n);
    ModPlus(from, j, n);
    assert At(from, j, n, x);
  }

  lemma CoveredStep(from: nat, count: nat, n: nat, x: nat)
    requires 0 < count <= n
    ensures Covered(from, count, n, x) <==> from % n == x || Covered(from + 1, count - 1, n, x)
    ensures from % n == x ==> !Covered(from + 1, count - 1, n, x)
  {
    if from % n == x {
      assert At(from, 0, n, x);
      if Covered(from + 1, count - 1, n, x) {
        var j: nat :| j < count - 1 && At(from + 1, j, n, x);
        Apart(from, j + 1, n);
      }
    }
    if Covered(from, count, n, x) {
      var j: nat :| j < count && At(from, j, n, x);
      assert j > 0 ==> At(from + 1, j - 1, n, x);
    }
    if Covered(from + 1, count - 1, n, x) {
      var j: nat :| j < count - 1 && At(from + 1, j, n, x);
      assert At(from, j + 1, n, x);
    }
  }

  lemma Apart(a: nat, d: nat, n: nat)
    requires 0 < d < n
    ensures (a + d) % n != a % n
  {
    var r := a % n;
    ModPlus(a, d, n);
    if r + d < n {
      ModSmall(r + d, n);
    } else {
      ModUnique(r + d, r + d - n, 1, n);
      ModSmall(r + d - n, n);
    }
  }

  /** A full turn is a permutation of the eligible positions. */
  lemma FullRound(s: Paths, now: int, from: nat)
    requires s.paths != []
    ensures var round := Round(s, now, from, |s.paths|);
            && multiset(round) == multiset(EligibleSet(s, now))
            && |round| == |EligibleSet(s, now)|
  {
    hide Round, Covered, Eligible;
    var n, round := |s.paths|, Round(s, now, from, |s.paths|);
    RoundInRange(s, now, from, n);
    forall x ensures multiset(round)[x] == multiset(EligibleSet(s, now))[x] {
      if 0 <= x < n {
        RoundCount(s, now, from, n, x);
        AllCovered(from, n, x);
      }
    }
    assert multiset(round) == multiset(EligibleSet(s, now));
    assert |round| == |multiset(round)| && |EligibleSet(s, now)| == |multiset(EligibleSet(s, now))|;
  }

  lemma {:induction false} RoundInRange(s: Paths, now: int, from: nat, count: nat)
    requires s.paths != []
    ensures forall i | 0 <= i < |Round(s, now, from, count)| :: 0 <= Round(s, now, from, count)[i] < |s.paths|
    decreases count
  {
    if count > 0 {
      RoundInRange(s, now, from + 1, count - 1);
    }
  }

  // ---- The theorems ----

  /** From any state, as many calls as there are eligible paths return each of them exactly once:
      each path that is not cooling if there is one, and otherwise each path. */
  lemma OneTurn(s: Paths, now: int)
    requires s.paths != []
    ensures multiset(Run(s, now, |EligibleSet(s, now)|)) == multiset(EligibleSet(s, now))
  {
    var n := |s.paths|;
    FullRound(s, now, s.next);
    RunFollowsRound(s, now, s.next, n, |EligibleSet(s, now)|);
    var round := Round(s, now, s.next, n);
    assert round[..|round|] == round;
  }

  lemma {:induction false} RunSplit(s: Paths, now: int, a: nat, b: nat)
    requires s.paths != []
    ensures Run(s, now, a + b) == Run(s, now, a) + Run(After(s, now, a), now, b)
    decreases a
  {
    if a > 0 {
      RunSplit(NextPath(s, now).0, now, a - 1, b);
    }
  }

  lemma EligibleOnlyReads(s: Paths, t: Paths, now: int)
    requires s.paths == t.paths && s.health == t.health
    ensures EligibleSet(s, now) == EligibleSet(t, now)
  {
    assert forall i | 0 <= i < |s.paths| :: Cooling(s, now, i) == Cooling(t, now, i);
  }

  /** Every window of that many consecutive calls, anywhere in a run of any length. */
  lemma EveryWindow(s: Paths, now: int, m: nat, j: nat)
    requires s.paths != [] && j + |EligibleSet(s, now)| <= m
    ensures multiset(Run(s, now, m)[j..j + |EligibleSet(s, now)|]) == multiset(EligibleSet(s, now))
  {
    hide Run, After, EligibleSet;
    var h, t := |EligibleSet(s, now)|, After(s, now, j);
    EligibleOnlyReads(s, t, now);
    RunSplit(s, now, j, m - j);
    RunSplit(t, now, h, m - j - h);
    OneTurn(t, now);
    Middle(Run(s, now, j), Run(t, now, h), Run(After(t, now, h), now, m - j - h));
  }

  lemma Middle(before: seq<int>, window: seq<int>, rest: seq<int>)
    ensures (before + (window + rest))[|before|..|before| + |window|] == window
  {
  }

  /** Over a run of any length the eligible paths are used equally often, give or take one, and
      the others not at all. */
  lemma {:induction false} Balanced(s: Paths, now: int, m: nat, x: nat)
    requires s.paths != [] && x < |s.paths|
    ensures var h, uses := |EligibleSet(s, now)|, multiset(Run(s, now, m))[x];
            && h > 0
            && (!Eligible(s, now, x) ==> uses == 0)
            && (Eligible(s, now, x) ==> m / h <= uses <= m / h + 1)
    decreases m
  {
    hide Run, After, EligibleSet, Eligible;
    var h := |EligibleSet(s, now)|;
    SomeEligible(s, now);
    EligibleCount(s, now, x);
    if m < h {
      PartialTurn(s, now, m, x);
    } else {
      var t := After(s, now, h);
      EligibleOnlyReads(s, t, now);
      EligibleCount(t, now, x);
      Balanced(t, now, m - h, x);
      RunSplit(s, now, h, m - h);
      OneTurn(s, now);
      assert Run(s, now, m) == Run(s, now, h) + Run(t, now, m - h);
      DivStep(m, h);
    }
  }

  lemma PartialTurn(s: Paths, now: int, m: nat, x: nat)
    requires s.paths != [] && x < |s.paths| && m < |EligibleSet(s, now)|
    ensures multiset(Run(s, now, m))[x] <= if Eligible(s, now, x) then 1 else 0
    ensures m / |EligibleSet(s, now)| == 0
  {
    hide Run, Round, EligibleSet, Eligible, Covered;
    var n, round := |s.paths|, Round(s, now, s.next, |s.paths|);
    FullRound(s, now, s.next);
    EligibleCount(s, now, x);
    RunFollowsRound(s, now, s.next, n, m);
    PrefixCount(round, m, x);
    DivSmall(m, |EligibleSet(s, now)|);
  }

  lemma PrefixCount(r: seq<int>, m: nat, x: int)
    requires m <= |r|
    ensures multiset(r[..m])[x] <= multiset(r)[x]
  {
    assert r == r[..m] + r[m..];
  }

  lemma DivSmall(m: nat, h: nat)
    requires m < h
    ensures m / h == 0
  {
  }

  lemma EligibleCount(s: Paths, now: int, x: nat)
    requires x < |s.paths|
    ensures multiset(EligibleSet(s, now))[x] == if Eligible(s, now, x) then 1 else 0
  {
  }

  lemma DivStep(m: nat, h: nat)
    requires 0 < h <= m
    ensures m / h == (m - h) / h + 1
  {
    ModUnique(m, m - h, 1, h);
    assert m == m / h * h + m % h && m - h == (m - h) / h * h + (m - h) % h;
    Cancel(m / h, (m - h) / h + 1, h);
  }

  lemma SomeEligible(s: Paths, now: int)
    requires s.paths != []
    ensures |EligibleSet(s, now)| > 0
  {
    var i: nat := if AllCooling(s, now) then 0 else (var j: nat :| j < |s.paths| && !Cooling(s, now, j); j);
    assert i in EligibleSet(s, now);
  }
}

/** internal/multipath/scheduler.go */
module Multipath {
  import opened Bytes
  import opened Numbers
  import opened PathSet
  import Fairness

  class RoundRobin {
    const pathCount: nat
    var next: nat

    ghost predicate Valid()
      reads this
    {
      next < pathCount
    }

    constructor (pathCount: nat)
      requires pathCount > 0
      ensures Valid() && next == 0 && this.pathCount == pathCount
    {
      this.pathCount := pathCount;
      next := 0;
    }

    method Next() returns (path: nat)
      requires Valid()
      modifies this
      ensures Valid() && path == old(next) && next == (old(next) + 1) % pathCount
    {
      path := next;
      next := (next + 1) % pathCount;
    }
  }

  datatype SchedulerError = CountNotPositive(count: int)

  method NewRoundRobin(pathCount: int) returns (r: Result<RoundRobin, SchedulerError>)
    ensures pathCount <= 0 ==> r == Err(CountNotPositive(pathCount))
    ensures pathCount > 0 ==>
              r.Ok? && fresh(r.value) && r.value.Valid() && r.value.next == 0 && r.value.pathCount == pathCount
  {
    if pathCount <= 0 {
      return Err(CountNotPositive(pathCount));
    }
    var scheduler := new RoundRobin(pathCount);
    r := Ok(scheduler);
  }

  /** The indexes of m turns from this cursor. */
  function Turns(next: nat, pathCount: nat, m: nat): (r: seq<int>)
    requires next < pathCount
    ensures |r| == m
    decreases m
  {
    if m == 0 then [] else [next] + Turns((next + 1) % pathCount, pathCount, m - 1)
  }

  /** The i-th turn is i positions past the cursor, cyclically. */
  lemma {:induction false} TurnsAt(next: nat, pathCount: nat, m: nat, i: nat)
    requires next < pathCount && i < m
    ensures Turns(next, pathCount, m)[i] == (next + i) % pathCount
    decreases i
  {
    hide Turns;
    TurnsStep(next, pathCount, m);
    if i == 0 {
      ModSmall(next, pathCount);
    } else {
      TurnsAt((next + 1) % pathCount, pathCount, m - 1, i - 1);
      OneOn(next, i, pathCount);
    }
  }

  lemma OneOn(next: nat, i: nat, n: nat)
    requires i > 0 && n > 0
    ensures ((next + 1) % n + (i - 1)) % n == (next + i) % n
  {
    ModPlus(next + 1, i - 1, n);
  }

  lemma TurnsStep(next: nat, pathCount: nat, m: nat)
    requires next < pathCount && m > 0
    ensures (next + 1) % pathCount < pathCount
    ensures Turns(next, pathCount, m) == [next] + Turns((next + 1) % pathCount, pathCount, m - 1)
  {
  }

  /** They are what m calls of Next return. */
  method TakeTurns(scheduler: RoundRobin, m: nat) returns (paths: seq<int>)
    requires scheduler.Valid()
    modifies scheduler
    ensures scheduler.Valid() && paths == Turns(old(scheduler.next), scheduler.pathCount, m)
  {
    paths := [];
    ghost var all := Turns(scheduler.next, scheduler.pathCount, m);
    for i := 0 to m
      invariant scheduler.Valid() && paths + Turns(scheduler.next, scheduler.pathCount, m - i) == all
    {
      var path := scheduler.Next();
      paths := paths + [path];
    }
  }

  /** With nothing cooling down, the client picks exactly what the round robin would from the same cursor. */
  lemma {:induction false} AgreesWithRoundRobin(s: Paths, now: int, m: nat)
    requires s.paths != [] && s.next < |s.paths|
    requires forall i | 0 <= i < |s.paths| :: !Cooling(s, now, i)
    ensures Fairness.Run(s, now, m) == Turns(s.next, |s.paths|, m)
    decreases m
  {
    if m > 0 {
      ModSmall(s.next, |s.paths|);
      Fairness.PickEligible(s, now);
      var t := NextPath(s, now).0;
      assert forall i | 0 <= i < |s.paths| :: Cooling(t, now, i) == Cooling(s, now, i);
      AgreesWithRoundRobin(t, now, m - 1);
    }
  }
}
