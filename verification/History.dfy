/** The path set in any interleaving, on either side, is the product of one history of operations, so
    what PathSet proves about histories holds in every run. */
module History {
  import opened Bytes
  import opened Framing
  import opened PathSet
  import opened Protocol
  import Membership

  /** The operation a step performs on the path set, if any. */
  function OpsOf(c: Config, s: State, step: Step): seq<Op>
    requires Enabled(c, s, step)
  {
    match step
    case Pick(now) => [OpPick(now)]
    case RecordFailure(now) => [OpFail(s.sender.path.id, now)]
    case RemoveFailed => [OpRemove(s.sender.path.stream)]
    case RecordSuccess => if c.role.Client? then [OpSucceed(s.sender.path.id)] else []
    case Join(id) => [OpAdd(Path(id, s.reconnect[id].stream))]
    case Accept(id) => [OpAppend(Path(id, |s.streams|))]
    case StopReceiver(stream) => [OpRemove(stream)]
    case _ => []
  }

  /** All operations of a run, in order. */
  function HistoryOf(c: Config, initial: seq<int>, steps: seq<Step>): seq<Op> {
    if steps == [] then [] else
    var front, last := steps[..|steps| - 1], steps[|steps| - 1];
    var s := Execute(c, Init(c, initial), front);
    HistoryOf(c, initial, front) + if Enabled(c, s, last) then OpsOf(c, s, last) else []
  }

  lemma StepIsOp(c: Config, s: State, step: Step)
    requires Enabled(c, s, step)
    ensures Do(c, s, step).active == if OpsOf(c, s, step) == [] then s.active else Apply(s.active, OpsOf(c, s, step)[0])
    ensures |OpsOf(c, s, step)| <= 1
    ensures s.now <= Do(c, s, step).now
    ensures OpsOf(c, s, step) != [] && OpsOf(c, s, step)[0].OpFail? ==> OpsOf(c, s, step)[0].now == Do(c, s, step).now
  {
    hide Remove, Add, NextPath, MarkFailure, MarkSuccess, DoWriteHeader, DoWritePayload, DoHandle, NextFrame;
    hide DoRemoveFailed, DoStopReceiver;
    match step
    case WriteHeader(_, _) => FramesUntouched(c, s, step);
    case WritePayload(_, _) => FramesUntouched(c, s, step);
    case Handle(_, _) => FramesUntouched(c, s, step);
    case RemoveFailed => EvictionIsOp(c, s, step);
    case StopReceiver(_) => EvictionIsOp(c, s, step);
    case _ =>
  }

  lemma EvictionIsOp(c: Config, s: State, step: Step)
    requires Enabled(c, s, step) && (step.RemoveFailed? || step.StopReceiver?)
    ensures var stream := if step.RemoveFailed? then s.sender.path.stream else step.stream;
            Do(c, s, step).active == Remove(s.active, stream).0
    ensures Do(c, s, step).now == s.now
  {
    hide Remove;
    NothingRemoved(s.active, if step.RemoveFailed? then s.sender.path.stream else step.stream);
  }

  /** Writing and handling frames leaves the path set and the clock alone. */
  lemma FramesUntouched(c: Config, s: State, step: Step)
    requires Enabled(c, s, step) && (step.WriteHeader? || step.WritePayload? || step.Handle?)
    ensures Do(c, s, step).active == s.active && Do(c, s, step).now == s.now
  {
    hide Uint32, PutUint32, Current, NextFrame;
  }

  lemma NothingRemoved(s: Paths, stream: StreamId)
    ensures Remove(s, stream).1.None? ==> Remove(s, stream).0 == s
  {
  }

  lemma LastOp(ops: seq<Op>, more: seq<Op>, id: int)
    requires |more| <= 1
    ensures forall s :: Replay(s, ops + more) == if more == [] then Replay(s, ops) else Apply(Replay(s, ops), more[0])
    ensures LastFailure(ops + more, id) ==
            if more != [] && more[0].OpFail? && more[0].id == id then more[0].now else LastFailure(ops, id)
  {
    hide Apply;
    if more == [] {
      assert ops + more == ops;
    } else {
      assert (ops + more)[..|ops|] == ops;
    }
  }

  /** The path set of every reachable state is the replay of the run's history, and the failures
      recorded in it lie between the start of the clock and now. */
  lemma {:induction false} ActiveIsHistory(c: Config, initial: seq<int>, steps: seq<Step>, id: int)
    ensures var s := Execute(c, Init(c, initial), steps);
            && s.active == Replay(Init(c, initial).active, HistoryOf(c, initial, steps))
            && 0 <= LastFailure(HistoryOf(c, initial, steps), id) <= s.now
  {
    hide Do, Enabled, OpsOf, Apply, LastFailure, Replay;
    if steps == [] {
      NoHistory(c, initial, id);
    } else {
      var front, last := steps[..|steps| - 1], steps[|steps| - 1];
      ActiveIsHistory(c, initial, front, id);
      var s := Execute(c, Init(c, initial), front);
      var more := if Enabled(c, s, last) then OpsOf(c, s, last) else [];
      if Enabled(c, s, last) {
        StepIsOp(c, s, last);
      }
      LastOp(HistoryOf(c, initial, front), more, id);
    }
  }

  lemma NoHistory(c: Config, initial: seq<int>, id: int)
    ensures Execute(c, Init(c, initial), []) == Init(c, initial) && HistoryOf(c, initial, []) == []
    ensures Replay(Init(c, initial).active, []) == Init(c, initial).active
    ensures LastFailure([], id) == 0 == Init(c, initial).now
  {
  }

  /** In every interleaving the cursor stays within the set, on the client and on the server. */
  lemma CursorInEveryRun(c: Config, initial: seq<int>, steps: seq<Step>)
    ensures CursorValid(Execute(c, Init(c, initial), steps).active)
  {
    hide Execute, HistoryOf, Replay, LastFailure;
    ActiveIsHistory(c, initial, steps, 0);
    CursorAlwaysValid(Init(c, initial).active, HistoryOf(c, initial, steps));
  }

  /** In every interleaving the health table is that history: an entry for exactly the ids that failed
      since their last success, with their number and the end of the cooldown it earned. */
  lemma HealthInEveryRun(c: Config, initial: seq<int>, steps: seq<Step>, id: int)
    ensures var health := Execute(c, Init(c, initial), steps).active.health;
            var ops := HistoryOf(c, initial, steps);
            var k, last := FailuresSince(ops, id), LastFailure(ops, id);
            && (id in health <==> k > 0)
            && (k > 0 ==> health[id] == Health(k % UINT64_SIZE, last + Cooldown(k % UINT64_SIZE)))
  {
    hide Execute, HistoryOf, Replay, FailuresSince, LastFailure;
    ActiveIsHistory(c, initial, steps, id);
    HealthIsHistory(Init(c, initial).active.paths, HistoryOf(c, initial, steps), id);
  }

  /** So in every interleaving the sender never picks an id during its cooldown, reconnected or not,
      while some active path is not cooling down. */
  lemma NeverPicksCooling(c: Config, initial: seq<int>, steps: seq<Step>, now: int, id: int, warm: nat)
    requires Enabled(c, Execute(c, Init(c, initial), steps), Pick(now))
    requires var ops := HistoryOf(c, initial, steps);
             var k, last := FailuresSince(ops, id), LastFailure(ops, id);
             0 < k < UINT64_SIZE && now < last + Cooldown(k)
    requires var active := Execute(c, Init(c, initial), steps).active;
             warm < |active.paths| && !Cooling(active, now, warm)
    ensures var sender := Do(c, Execute(c, Init(c, initial), steps), Pick(now)).sender;
            sender.Writing? && sender.path.id != id
  {
    hide Execute, HistoryOf, Replay, FailuresSince, LastFailure, Cooldown, NextPath, Cooling;
    ActiveIsHistory(c, initial, steps, id);
    NoPickDuringCooldown(Init(c, initial).active.paths, HistoryOf(c, initial, steps), now, id, warm);
  }

  /** And in every interleaving the path in turn is picked once its cooldown is over, or if it has not
      failed since its last success. */
  lemma PicksAfterCooldown(c: Config, initial: seq<int>, steps: seq<Step>, now: int)
    requires Enabled(c, Execute(c, Init(c, initial), steps), Pick(now))
    requires Execute(c, Init(c, initial), steps).active.paths != []
    requires var active, ops := Execute(c, Init(c, initial), steps).active, HistoryOf(c, initial, steps);
             var id := active.paths[active.next % |active.paths|].id;
             var k := FailuresSince(ops, id);
             k == 0 || (k < UINT64_SIZE && LastFailure(ops, id) + Cooldown(k) <= now)
    ensures var active := Execute(c, Init(c, initial), steps).active;
            Do(c, Execute(c, Init(c, initial), steps), Pick(now)).sender
            == Writing(active.paths[active.next % |active.paths|])
  {
    hide Execute, HistoryOf, Replay, FailuresSince, LastFailure, Cooldown, NextPath;
    var active := Execute(c, Init(c, initial), steps).active;
    ActiveIsHistory(c, initial, steps, active.paths[active.next % |active.paths|].id);
    CooldownEnds(Init(c, initial).active.paths, HistoryOf(c, initial, steps), now);
  }

  // ---- The client's two ids ----

  /** Ids come from the initial paths and the reconnect loops only. */
  ghost predicate TwoIds(s: State) {
    && (forall i | 0 <= i < |s.streams| :: s.streams[i].id in {0, 1})
    && (forall id | id in s.reconnect :: id in {0, 1})
  }

  lemma TwoIdsKeep(c: Config, s: State, step: Step)
    requires c.role.Client? && TwoIds(s) && Enabled(c, s, step)
    ensures TwoIds(Do(c, s, step))
  {
    hide Evict, CloseReplaced, Add, NextPath, MarkFailure, MarkSuccess, NextFrame;
    hide DoWriteHeader, DoWritePayload, DoHandle;
    match step
    case WriteHeader(ok, taken) => WritesKeepIds(s, ok, taken);
    case WritePayload(ok, taken) => WritesKeepIds(s, ok, taken);
    case Handle(stream, deviceOk) => HandlingKeepsIds(c, s, stream, deviceOk);
    case RemoveFailed => EvictionKeepsIds(s, s.sender.path.stream, c.role.Client?);
    case StopReceiver(stream) =>
      EvictionKeepsIds(Put(s, stream, s.streams[stream].(receiver := Stopped)), stream, c.role.Client?);
    case Join(id) => ClosingKeepsIds(s, Add(s.active, Path(id, s.reconnect[id].stream)).1);
    case _ =>
  }

  lemma WritesKeepIds(s: State, ok: bool, taken: nat)
    requires TwoIds(s) && s.packets != []
    requires (s.sender.Writing? || s.sender.HalfWritten?) && Known(s, s.sender.path.stream)
    ensures s.sender.Writing? && ValidPayload(Current(s)) && taken <= HEADER_SIZE ==>
              TwoIds(DoWriteHeader(s, ok, taken))
    ensures s.sender.HalfWritten? && taken < |Current(s)| ==> TwoIds(DoWritePayload(s, ok, taken))
  {
    hide Uint32, PutUint32, Current;
  }

  lemma HandlingKeepsIds(c: Config, s: State, stream: StreamId, deviceOk: bool)
    requires TwoIds(s) && Enabled(c, s, Handle(stream, deviceOk))
    ensures TwoIds(DoHandle(c, s, stream, deviceOk))
  {
    hide NextFrame;
  }

  lemma EvictionKeepsIds(s: State, stream: StreamId, closes: bool)
    requires TwoIds(s) && Known(s, stream)
    ensures TwoIds(Evict(s, stream, closes))
  {
    hide Remove;
  }

  lemma ClosingKeepsIds(s: State, replaced: Option<Path>)
    requires TwoIds(s)
    ensures TwoIds(CloseReplaced(s, replaced))
  {
  }

  lemma {:induction false} OnlyTwoIds(c: Config, initial: seq<int>, steps: seq<Step>)
    requires c.role.Client? && c.ids <= {0, 1} && forall i | 0 <= i < |initial| :: initial[i] in {0, 1}
    ensures TwoIds(Execute(c, Init(c, initial), steps))
  {
    hide Do, Enabled;
    if steps != [] {
      OnlyTwoIds(c, initial, steps[..|steps| - 1]);
      var t := Execute(c, Init(c, initial), steps[..|steps| - 1]);
      if Enabled(c, t, steps[|steps| - 1]) {
        TwoIdsKeep(c, t, steps[|steps| - 1]);
      }
    }
  }

  lemma ActiveIds(c: Config, initial: seq<int>, steps: seq<Step>)
    requires c.role.Client? && ValidStart(c, initial)
    requires c.ids <= {0, 1} && forall i | 0 <= i < |initial| :: initial[i] in {0, 1}
    ensures var paths := Execute(c, Init(c, initial), steps).active.paths;
            DistinctStreams(paths) && forall i | 0 <= i < |paths| :: paths[i].id in {0, 1}
  {
    hide Execute, Init, HasStream, HasId;
    OnlyTwoIds(c, initial, steps);
    Membership.Reachable(c, initial, steps);
  }

  lemma ThreeIds(p: Path, q: Path, r: Path)
    requires p.id in {0, 1} && q.id in {0, 1} && r.id in {0, 1}
    ensures p.id == q.id || p.id == r.id || q.id == r.id
  {
  }

  /** The client has the ids 0 and 1 at most, so never more than two active paths, and whichever of them
      is removed, the turn stays with, or passes to, the other. */
  lemma ClientTurnSurvives(c: Config, initial: seq<int>, steps: seq<Step>, i: nat)
    requires c.role.Client? && ValidStart(c, initial)
    requires c.ids <= {0, 1} && forall j | 0 <= j < |initial| :: initial[j] in {0, 1}
    requires i < |Execute(c, Init(c, initial), steps).active.paths|
    ensures var active := Execute(c, Init(c, initial), steps).active;
            var t := Remove(active, active.paths[i].stream).0;
            && |active.paths| <= 2
            && (|active.paths| == 2 ==> t.paths == [active.paths[1 - i]] && t.next == 0)
  {
    hide Execute, Init, Remove;
    var active := Execute(c, Init(c, initial), steps).active;
    ActiveIds(c, initial, steps);
    if |active.paths| > 2 {
      ThreeIds(active.paths[0], active.paths[1], active.paths[2]);
      Membership.UniquePaths(c, initial, steps, 0, 1);
      Membership.UniquePaths(c, initial, steps, 0, 2);
      Membership.UniquePaths(c, initial, steps, 1, 2);
    } else if |active.paths| == 2 {
      CursorInEveryRun(c, initial, steps);
      RemovedAt(active, i);
    }
  }
}
