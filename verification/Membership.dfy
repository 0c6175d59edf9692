/** Who is in the path set: what every reachable state of the protocol keeps about path ids, stream
    ownership, reconnection and the number of attempts a packet gets. */
module Membership {
  import opened Bytes
  import opened Framing
  import opened PathSet
  import opened Protocol

  /** Active paths stand for distinct known streams that were never removed. */
  ghost predicate PathsOk(s: State) {
    && (forall i | 0 <= i < |s.active.paths| ::
          var p := s.active.paths[i];
          Known(s, p.stream) && s.streams[p.stream].id == p.id && s.streams[p.stream].removals == 0)
    && DistinctStreams(s.active.paths)
  }

  ghost predicate UniqueIds(s: State) {
    forall p, q | p in s.active.paths && q in s.active.paths && p.id == q.id :: p == q
  }

  /** A reconnect loop that saw its id missing still finds it missing when its dial is over. */
  ghost predicate LoopOk(s: State, id: int, r: Reconnect) {
    match r
    case Watching => true
    case Dialing => !HasId(s.active, id)
    case Dialed(stream) =>
      && !HasId(s.active, id)
      && Known(s, stream)
      && !HasStream(s.active, stream)
      && s.streams[stream].id == id && s.streams[stream].removals == 0 && s.streams[stream].receiver.NotStarted?
    case Added(stream) =>
      Known(s, stream) && s.streams[stream].id == id && s.streams[stream].receiver.NotStarted?
  }

  ghost predicate ReconnectOk(s: State) {
    forall id | id in s.reconnect :: LoopOk(s, id, s.reconnect[id])
  }

  /** A stream is removed at most once. On the client that is also when it is closed; the server
      closes it when its handler ends. */
  ghost predicate LedgerOk(c: Config, st: Stream) {
    && st.removals <= 1
    && st.closes == (if c.role.Client? then st.removals else if st.receiver.Stopped? then 1 else 0)
  }

  ghost predicate LedgersOk(c: Config, s: State) {
    forall i | 0 <= i < |s.streams| :: LedgerOk(c, s.streams[i])
  }

  ghost predicate SenderOk(s: State) {
    !s.sender.Idle? && !s.sender.Routing? ==>
      Known(s, s.sender.path.stream) && s.streams[s.sender.path.stream].id == s.sender.path.id
  }

  function InSet(s: State, stream: StreamId): nat {
    if HasStream(s.active, stream) then 1 else 0
  }

  /** Every attempt for the packet in hand used up a path of its own. */
  ghost predicate AllowanceOk(s: State) {
    match s.sender
    case Idle => true
    case Routing => s.writes + |s.active.paths| <= s.allowance
    case Writing(p) => s.writes + |s.active.paths| + 1 - InSet(s, p.stream) <= s.allowance
    case _ => s.writes + |s.active.paths| - InSet(s, s.sender.path.stream) <= s.allowance
  }

  ghost predicate Inv(c: Config, s: State) {
    && PathsOk(s)
    && (c.role.Client? ==> UniqueIds(s))
    && (c.role.Server? ==> s.reconnect == map[])
    && ReconnectOk(s)
    && LedgersOk(c, s)
    && SenderOk(s)
    && AllowanceOk(s)
  }

  // ---- Removing and adding ----

  lemma EvictEffect(s: State, stream: StreamId, closes: bool)
    requires PathsOk(s) && Known(s, stream)
    ensures var t := Evict(s, stream, closes);
            && t == s.(active := t.active, streams := t.streams)
            && PathsOk(t)
            && t.active.health == s.active.health
            && (forall p :: p in t.active.paths <==> p in s.active.paths && p.stream != stream)
            && |t.active.paths| == |s.active.paths| - InSet(s, stream)
            && |t.streams| == |s.streams|
            && (forall i | 0 <= i < |s.streams| && i != stream :: t.streams[i] == s.streams[i])
            && t.streams[stream] == (if !HasStream(s.active, stream) then s.streams[stream] else
                                     s.streams[stream].(removals := 1,
                                                        closes := s.streams[stream].closes + if closes then 1 else 0))
  {
    hide HasStream, DistinctStreams, Evict;
    RemoveEffect(s.active, stream);
    EvictIsRemoval(s, stream, closes);
    if HasStream(s.active, stream) {
      NeverRemoved(s, stream);
    }
    var t := Evict(s, stream, closes);
    forall i | 0 <= i < |t.active.paths|
      ensures var p := t.active.paths[i];
              Known(t, p.stream) && t.streams[p.stream].id == p.id && t.streams[p.stream].removals == 0
    {
      assert t.active.paths[i] in s.active.paths;
    }
  }

  lemma EvictIsRemoval(s: State, stream: StreamId, closes: bool)
    requires Known(s, stream)
    ensures var t, st := Evict(s, stream, closes), s.streams[stream];
            && t == s.(active := Remove(s.active, stream).0, streams := t.streams)
            && Remove(s.active, stream).0.health == s.active.health
            && t.streams == if Remove(s.active, stream).1.None? then s.streams else
                            s.streams[stream := st.(removals := st.removals + 1,
                                                    closes := st.closes + if closes then 1 else 0)]
  {
  }

  lemma NeverRemoved(s: State, stream: StreamId)
    requires PathsOk(s) && HasStream(s.active, stream)
    ensures Known(s, stream) && s.streams[stream].removals == 0
  {
  }

  // ---- Every step keeps the invariant ----

  /** Steps that leave paths, reconnect loops and stream ownership alone. */
  lemma FrameKeeps(c: Config, s: State, t: State)
    requires Inv(c, s)
    requires t.active.paths == s.active.paths && t.reconnect == s.reconnect && |t.streams| == |s.streams|
    requires forall i | 0 <= i < |s.streams| ::
               && t.streams[i].id == s.streams[i].id && t.streams[i].removals == s.streams[i].removals
               && t.streams[i].closes == s.streams[i].closes && t.streams[i].receiver == s.streams[i].receiver
    requires SenderOk(t) && AllowanceOk(t)
    ensures Inv(c, t)
  {
    HasByMember(s.active, t.active);
    HasByMember(t.active, s.active);
    forall i | 0 <= i < |t.streams| ensures LedgerOk(c, t.streams[i]) {
      assert LedgerOk(c, s.streams[i]);
    }
    forall id | id in t.reconnect ensures LoopOk(t, id, t.reconnect[id]) {
      assert LoopOk(s, id, s.reconnect[id]);
    }
  }

  lemma EvictKeeps(c: Config, s: State, stream: StreamId, t: State)
    requires PathsOk(s) && Known(s, stream)
    requires c.role.Client? ==> UniqueIds(s)
    requires ReconnectOk(s) && LedgersOk(c, s)
    requires t == Evict(s, stream, c.role.Client?)
    ensures PathsOk(t) && (c.role.Client? ==> UniqueIds(t)) && ReconnectOk(t) && LedgersOk(c, t)
    ensures !HasStream(t.active, stream)
    ensures |t.active.paths| == |s.active.paths| - InSet(s, stream)
    ensures forall other | other != stream :: InSet(t, other) == InSet(s, other)
  {
    EvictEffect(s, stream, c.role.Client?);
    HasByMember(s.active, t.active);
    forall i | 0 <= i < |t.streams| ensures LedgerOk(c, t.streams[i]) {
      assert LedgerOk(c, s.streams[i]);
      if i == stream && HasStream(s.active, stream) {
        var j :| 0 <= j < |s.active.paths| && s.active.paths[j].stream == stream;
      }
    }
    forall id | id in t.reconnect ensures LoopOk(t, id, t.reconnect[id]) {
      assert LoopOk(s, id, s.reconnect[id]);
    }
    SameOthers(s.active, t.active, stream);
  }

  lemma RemoveFailedKeeps(c: Config, s: State)
    requires Inv(c, s) && Enabled(c, s, RemoveFailed)
    ensures Inv(c, DoRemoveFailed(c, s))
  {
    hide Evict;
    var t := Evict(s, s.sender.path.stream, c.role.Client?);
    EvictKeeps(c, s, s.sender.path.stream, t);
    EvictEffect(s, s.sender.path.stream, c.role.Client?);
    var u := DoRemoveFailed(c, s);
    forall id | id in u.reconnect ensures LoopOk(u, id, u.reconnect[id]) {
      assert LoopOk(t, id, t.reconnect[id]);
    }
  }

  /** The receiver's end on its own, before the stream leaves the set. */
  lemma StoppedKeeps(c: Config, s: State, stream: StreamId)
    requires Inv(c, s) && Enabled(c, s, StopReceiver(stream))
    ensures Inv(c, Put(s, stream, s.streams[stream].(receiver := Stopped,
                         closes := if c.role.Client? then s.streams[stream].closes else 1)))
  {
    var t := Put(s, stream, s.streams[stream].(receiver := Stopped,
                   closes := if c.role.Client? then s.streams[stream].closes else 1));
    assert LedgerOk(c, s.streams[stream]);
    forall id | id in t.reconnect ensures LoopOk(t, id, t.reconnect[id]) {
      assert LoopOk(s, id, s.reconnect[id]);
    }
    forall i | 0 <= i < |t.streams| ensures LedgerOk(c, t.streams[i]) {
      assert LedgerOk(c, s.streams[i]);
    }
  }

  lemma StopReceiverKeeps(c: Config, s: State, stream: StreamId)
    requires Inv(c, s) && Enabled(c, s, StopReceiver(stream))
    ensures Inv(c, DoStopReceiver(c, s, stream))
  {
    hide Evict, HasStream, HasId;
    // closing the stream first or last makes no difference to the state
    var t := Put(s, stream, s.streams[stream].(receiver := Stopped,
                   closes := if c.role.Client? then s.streams[stream].closes else 1));
    StoppedKeeps(c, s, stream);
    EvictKeeps(c, t, stream, Evict(t, stream, c.role.Client?));
    StopReceiverIsEvict(c, s, stream);
    EvictEffect(t, stream, c.role.Client?);
  }

  lemma StopReceiverIsEvict(c: Config, s: State, stream: StreamId)
    requires Known(s, stream) && s.streams[stream].receiver.Running? && LedgerOk(c, s.streams[stream])
    ensures DoStopReceiver(c, s, stream)
            == Evict(Put(s, stream, s.streams[stream].(receiver := Stopped,
                       closes := if c.role.Client? then s.streams[stream].closes else 1)), stream, c.role.Client?)
  {
    hide Remove;
  }

  lemma ReconnectKeeps(c: Config, s: State, step: Step)
    requires Inv(c, s) && Enabled(c, s, step)
    requires step.CheckMissing? || step.DialFails? || step.StartReceiver?
    ensures Inv(c, Do(c, s, step))
  {
    var t := Do(c, s, step);
    forall id | id in t.reconnect ensures LoopOk(t, id, t.reconnect[id]) {
      assert LoopOk(s, id, s.reconnect[id]);
      assert LoopOk(s, step.id, s.reconnect[step.id]);
    }
    forall i | 0 <= i < |t.streams| ensures LedgerOk(c, t.streams[i]) {
      assert LedgerOk(c, s.streams[i]);
    }
  }

  lemma DialSucceedsKeeps(c: Config, s: State, id: int)
    requires Inv(c, s) && Enabled(c, s, DialSucceeds(id))
    ensures Inv(c, Do(c, s, DialSucceeds(id)))
  {
    var t := Do(c, s, DialSucceeds(id));
    forall other | other in t.reconnect ensures LoopOk(t, other, t.reconnect[other]) {
      assert LoopOk(s, other, s.reconnect[other]);
    }
    forall i | 0 <= i < |t.streams| ensures LedgerOk(c, t.streams[i]) {
      assert i < |s.streams| ==> LedgerOk(c, s.streams[i]);
    }
  }

  /** Joining appends: the replace branch of add is never taken. */
  lemma JoinAppends(c: Config, s: State, id: int)
    requires Inv(c, s) && Enabled(c, s, Join(id))
    ensures Add(s.active, Path(id, s.reconnect[id].stream))
            == (s.active.(paths := s.active.paths + [Path(id, s.reconnect[id].stream)]), None)
  {
    assert LoopOk(s, id, s.reconnect[id]);
    var i := IdIndex(s.active.paths, id);
    if i < |s.active.paths| {
      assert HasId(s.active, id);
    }
  }

  /** t is s with a path on a stream of its own appended. */
  ghost predicate Appended(s: State, t: State, p: Path) {
    && t.active.paths == s.active.paths + [p]
    && Known(t, p.stream) && !HasStream(s.active, p.stream)
    && t.streams[p.stream].id == p.id && t.streams[p.stream].removals == 0
    && |s.streams| <= |t.streams| && t.streams[..|s.streams|] == s.streams
  }

  lemma AppendedPathsOk(s: State, t: State, p: Path)
    requires PathsOk(s) && Appended(s, t, p)
    ensures PathsOk(t)
  {
    assert forall i | 0 <= i < |s.streams| :: t.streams[i] == s.streams[i];
  }

  lemma AppendedUniqueIds(s: State, t: State, p: Path)
    requires UniqueIds(s) && Appended(s, t, p) && !HasId(s.active, p.id)
    ensures UniqueIds(t)
  {
    forall q | q in s.active.paths ensures q.id != p.id {
      var i :| 0 <= i < |s.active.paths| && s.active.paths[i] == q;
    }
  }

  lemma AppendedHas(s: State, t: State, p: Path)
    requires Appended(s, t, p)
    ensures forall id | HasId(t.active, id) :: HasId(s.active, id) || id == p.id
    ensures forall stream :: HasStream(t.active, stream) <==> HasStream(s.active, stream) || stream == p.stream
  {
    assert t.active.paths[|s.active.paths|] == p;
    forall stream | HasStream(s.active, stream) ensures HasStream(t.active, stream) {
      var i :| 0 <= i < |s.active.paths| && s.active.paths[i].stream == stream;
      assert t.active.paths[i] == s.active.paths[i];
    }
  }

  lemma AppendKeeps(c: Config, s: State, t: State, p: Path)
    requires Inv(c, s) && Appended(s, t, p)
    requires t.allowance == s.allowance + 1 && t.sender == s.sender && t.writes == s.writes
    requires c.role.Client? ==> !HasId(s.active, p.id)
    ensures PathsOk(t) && (c.role.Client? ==> UniqueIds(t)) && SenderOk(t) && AllowanceOk(t)
    ensures forall id | HasId(t.active, id) :: HasId(s.active, id) || id == p.id
    ensures forall stream | HasStream(t.active, stream) :: HasStream(s.active, stream) || stream == p.stream
  {
    AppendedPathsOk(s, t, p);
    if c.role.Client? {
      AppendedUniqueIds(s, t, p);
    }
    AppendedHas(s, t, p);
    hide PathsOk, UniqueIds, ReconnectOk, LedgersOk, HasStream, HasId;
    assert forall i | 0 <= i < |s.streams| :: t.streams[i] == s.streams[i];
  }

  lemma JoinKeeps(c: Config, s: State, id: int)
    requires Inv(c, s) && Enabled(c, s, Join(id))
    ensures Inv(c, DoJoin(s, id))
  {
    JoinAppends(c, s, id);
    assert LoopOk(s, id, s.reconnect[id]);
    var t := DoJoin(s, id);
    AppendKeeps(c, s, t, Path(id, s.reconnect[id].stream));
    forall other | other in t.reconnect ensures LoopOk(t, other, t.reconnect[other]) {
      assert LoopOk(s, other, s.reconnect[other]);
    }
  }

  lemma AcceptKeeps(c: Config, s: State, id: int)
    requires Inv(c, s) && Enabled(c, s, Accept(id))
    ensures Inv(c, Do(c, s, Accept(id)))
  {
    var t := Do(c, s, Accept(id));
    AppendKeeps(c, s, t, Path(id, |s.streams|));
    forall i | 0 <= i < |t.streams| ensures LedgerOk(c, t.streams[i]) {
      assert i < |s.streams| ==> LedgerOk(c, s.streams[i]);
    }
  }

  lemma PickKeeps(c: Config, s: State, now: int)
    requires Inv(c, s) && Enabled(c, s, Pick(now))
    ensures Inv(c, DoPick(s, now))
  {
    hide Scan;
    var t := DoPick(s, now);
    if s.active.paths != [] {
      var i := PickIndex(s.active, now);
      assert s.active.paths[i] == t.sender.path;
      assert HasStream(t.active, t.sender.path.stream);
    }
    FrameKeeps(c, s, t);
  }

  lemma WriteHeaderKeeps(c: Config, s: State, ok: bool, taken: nat)
    requires Inv(c, s) && Enabled(c, s, WriteHeader(ok, taken))
    ensures Inv(c, DoWriteHeader(s, ok, taken))
  {
    hide Uint32, PutUint32, Current, HasStream, PathsOk, UniqueIds, ReconnectOk, LedgersOk;
    FrameKeeps(c, s, DoWriteHeader(s, ok, taken));
  }

  lemma WritePayloadKeeps(c: Config, s: State, ok: bool, taken: nat)
    requires Inv(c, s) && Enabled(c, s, WritePayload(ok, taken))
    ensures Inv(c, DoWritePayload(s, ok, taken))
  {
    hide Current, HasStream, PathsOk, UniqueIds, ReconnectOk, LedgersOk;
    FrameKeeps(c, s, DoWritePayload(s, ok, taken));
  }

  lemma RecordKeeps(c: Config, s: State, step: Step)
    requires Inv(c, s) && Enabled(c, s, step)
    requires step.Read? || step.RecordFailure? || step.RecordSuccess?
    ensures Inv(c, Do(c, s, step))
  {
    hide HasStream, Cooldown;
    var t := Do(c, s, step);
    assert t.active.paths == s.active.paths;
    SameStreams(s.active, t.active);
    FrameKeeps(c, s, t);
  }

  lemma SameStreams(s: Paths, t: Paths)
    requires s.paths == t.paths
    ensures forall stream :: HasStream(s, stream) == HasStream(t, stream)
  {
  }

  lemma StepKeeps(c: Config, s: State, step: Step)
    requires Inv(c, s) && Enabled(c, s, step)
    ensures Inv(c, Do(c, s, step))
  {
    hide Inv, Enabled, Evict, Put, DoRead, DoPick, DoWriteHeader, DoWritePayload, DoRemoveFailed, DoRecordSuccess;
    hide DoJoin, DoStopReceiver, DoHandle, HasId, HasStream, MarkFailure;
    match step
    case RemoveFailed => RemoveFailedKeeps(c, s);
    case StopReceiver(stream) => StopReceiverKeeps(c, s, stream);
    case Join(id) => JoinKeeps(c, s, id);
    case Accept(id) => AcceptKeeps(c, s, id);
    case CheckMissing(_) => ReconnectKeeps(c, s, step);
    case DialFails(_) => ReconnectKeeps(c, s, step);
    case DialSucceeds(id) => DialSucceedsKeeps(c, s, id);
    case StartReceiver(_) => ReconnectKeeps(c, s, step);
    case Arrive(_, _) => FarKeeps(c, s, step);
    case Handle(stream, deviceOk) => HandleKeeps(c, s, stream, deviceOk);
    case StopHandler(_) => FarKeeps(c, s, step);
    case Pick(now) => PickKeeps(c, s, now);
    case WriteHeader(ok, taken) => WriteHeaderKeeps(c, s, ok, taken);
    case WritePayload(ok, taken) => WritePayloadKeeps(c, s, ok, taken);
    case _ => RecordKeeps(c, s, step);
  }

  /** What happens at the far end does not touch the path set. */
  lemma FarKeeps(c: Config, s: State, step: Step)
    requires Inv(c, s) && Enabled(c, s, step)
    requires step.Arrive? || step.StopHandler?
    ensures Inv(c, Do(c, s, step))
  {
    hide NextFrame, PathsOk, UniqueIds, ReconnectOk, LedgersOk, HasStream;
    var t := Do(c, s, step);
    assert t.active == s.active && t.sender == s.sender;
    FrameKeeps(c, s, t);
  }

  lemma HandleKeeps(c: Config, s: State, stream: StreamId, deviceOk: bool)
    requires Inv(c, s) && Enabled(c, s, Handle(stream, deviceOk))
    ensures Inv(c, DoHandle(c, s, stream, deviceOk))
  {
    hide NextFrame, PathsOk, UniqueIds, ReconnectOk, LedgersOk, HasStream;
    FrameKeeps(c, s, DoHandle(c, s, stream, deviceOk));
  }

  lemma InitOk(c: Config, initial: seq<int>)
    requires ValidStart(c, initial)
    ensures Inv(c, Init(c, initial))
  {
  }

  lemma {:induction false} Reachable(c: Config, initial: seq<int>, steps: seq<Step>)
    requires ValidStart(c, initial)
    ensures Inv(c, Execute(c, Init(c, initial), steps))
  {
    if steps == [] {
      InitOk(c, initial);
    } else {
      Reachable(c, initial, steps[..|steps| - 1]);
      var t := Execute(c, Init(c, initial), steps[..|steps| - 1]);
      if Enabled(c, t, steps[|steps| - 1]) {
        StepKeeps(c, t, steps[|steps| - 1]);
      }
    }
  }

  // ---- The theorems, for every run ----

  /** At most one active path per id on the client, and never two paths on one stream. */
  lemma UniquePaths(c: Config, initial: seq<int>, steps: seq<Step>, i: nat, j: nat)
    requires ValidStart(c, initial)
    requires i < j < |Execute(c, Init(c, initial), steps).active.paths|
    ensures var paths := Execute(c, Init(c, initial), steps).active.paths;
            paths[i].stream != paths[j].stream && (c.role.Client? ==> paths[i].id != paths[j].id)
  {
    Reachable(c, initial, steps);
  }

  /** Whenever a reconnect loop adds a path, nothing is replaced. */
  lemma ReconnectNeverReplaces(c: Config, initial: seq<int>, steps: seq<Step>, id: int)
    requires ValidStart(c, initial)
    requires Enabled(c, Execute(c, Init(c, initial), steps), Join(id))
    ensures var s := Execute(c, Init(c, initial), steps);
            Add(s.active, Path(id, s.reconnect[id].stream)).1 == None
  {
    Reachable(c, initial, steps);
    JoinAppends(c, Execute(c, Init(c, initial), steps), id);
  }

  /** Every stream is removed from the set at most once and closed at most once. */
  lemma RemovedAndClosedOnce(c: Config, initial: seq<int>, steps: seq<Step>, stream: StreamId)
    requires ValidStart(c, initial) && Known(Execute(c, Init(c, initial), steps), stream)
    ensures var s := Execute(c, Init(c, initial), steps);
            var st := s.streams[stream];
            && st.removals <= 1 && st.closes <= 1
            && (c.role.Client? ==> st.closes == st.removals)
            && (HasStream(s.active, stream) ==> st.removals == 0)
  {
    Reachable(c, initial, steps);
    assert LedgerOk(c, Execute(c, Init(c, initial), steps).streams[stream]);
  }

  /** A stream that was removed never comes back. */
  lemma RemovedForGood(c: Config, initial: seq<int>, steps: seq<Step>, step: Step, stream: StreamId)
    requires ValidStart(c, initial)
    requires var s := Execute(c, Init(c, initial), steps);
             Known(s, stream) && s.streams[stream].removals == 1 && Enabled(c, s, step)
    ensures var t := Do(c, Execute(c, Init(c, initial), steps), step);
            Known(t, stream) && t.streams[stream].removals == 1 && !HasStream(t.active, stream)
  {
    var s := Execute(c, Init(c, initial), steps);
    Reachable(c, initial, steps);
    StepKeeps(c, s, step);
    RemovalsGrow(c, s, step, stream);
    assert LedgerOk(c, Do(c, s, step).streams[stream]);
  }

  lemma EvictOnlyCounts(s: State, stream: StreamId, closes: bool, i: nat)
    requires Known(s, stream) && i < |s.streams|
    ensures var t := Evict(s, stream, closes);
            && |t.streams| == |s.streams|
            && t.streams[i] == s.streams[i].(removals := t.streams[i].removals, closes := t.streams[i].closes)
            && t.streams[i].removals >= s.streams[i].removals
  {
  }

  lemma CloseOnlyCounts(s: State, replaced: Option<Path>, i: nat)
    requires i < |s.streams|
    ensures var t := CloseReplaced(s, replaced);
            |t.streams| == |s.streams| && t.streams[i] == s.streams[i].(closes := t.streams[i].closes)
  {
  }

  lemma RemovalsGrow(c: Config, s: State, step: Step, stream: StreamId)
    requires Known(s, stream) && Enabled(c, s, step)
    ensures Known(Do(c, s, step), stream)
    ensures Do(c, s, step).streams[stream].removals >= s.streams[stream].removals
  {
    hide Evict, CloseReplaced, Add, NextPath, MarkFailure, MarkSuccess, NextFrame;
    hide DoWriteHeader, DoWritePayload, DoHandle;
    match step
    case WriteHeader(ok, taken) => WritesKeepRemovals(c, s, step, stream);
    case WritePayload(ok, taken) => WritesKeepRemovals(c, s, step, stream);
    case Handle(_, _) => HandlingKeepsRemovals(c, s, step, stream);
    case RemoveFailed => EvictOnlyCounts(s, s.sender.path.stream, c.role.Client?, stream);
    case StopReceiver(gone) =>
      EvictOnlyCounts(Put(s, gone, s.streams[gone].(receiver := Stopped)), gone, c.role.Client?, stream);
    case Join(id) => CloseOnlyCounts(s, Add(s.active, Path(id, s.reconnect[id].stream)).1, stream);
    case _ =>
  }

  lemma WritesKeepRemovals(c: Config, s: State, step: Step, stream: StreamId)
    requires Known(s, stream) && Enabled(c, s, step) && (step.WriteHeader? || step.WritePayload?)
    ensures Known(Do(c, s, step), stream)
    ensures Do(c, s, step).streams[stream].removals == s.streams[stream].removals
  {
    hide Uint32, PutUint32, Current;
  }

  lemma HandlingKeepsRemovals(c: Config, s: State, step: Step, stream: StreamId)
    requires Known(s, stream) && Enabled(c, s, step) && step.Handle?
    ensures Known(Do(c, s, step), stream)
    ensures Do(c, s, step).streams[stream].removals == s.streams[stream].removals
  {
    hide NextFrame;
  }

  /** The sender or a receiver giving up its stream takes exactly that stream's path out of the set:
      a fresh stream of the same path id stays. */
  lemma StaleEvictsNothingElse(c: Config, initial: seq<int>, steps: seq<Step>, step: Step, p: Path)
    requires ValidStart(c, initial) && Enabled(c, Execute(c, Init(c, initial), steps), step)
    requires step.RemoveFailed? || step.StopReceiver?
    ensures var s := Execute(c, Init(c, initial), steps);
            var gone := if step.RemoveFailed? then s.sender.path.stream else step.stream;
            p in Do(c, s, step).active.paths <==> p in s.active.paths && p.stream != gone
  {
    var s := Execute(c, Init(c, initial), steps);
    Reachable(c, initial, steps);
    var gone := if step.RemoveFailed? then s.sender.path.stream else step.stream;
    RemoveEffect(s.active, gone);
  }

  // ---- Attempts, counted over the run ----

  /** WriteFrame calls since the last packet was read. */
  function Attempts(c: Config, initial: seq<int>, steps: seq<Step>): nat {
    if steps == [] then 0 else
    var front, last := steps[..|steps| - 1], steps[|steps| - 1];
    var before := Attempts(c, initial, front);
    if !Enabled(c, Execute(c, Init(c, initial), front), last) then before
    else match last
         case Read(_) => 0
         case WriteHeader(_, _) => before + 1
         case _ => before
  }

  /** Paths that were active when that packet was read, plus paths added since. */
  function Chances(c: Config, initial: seq<int>, steps: seq<Step>): nat {
    if steps == [] then 0 else
    var front, last := steps[..|steps| - 1], steps[|steps| - 1];
    var s, before := Execute(c, Init(c, initial), front), Chances(c, initial, front);
    if !Enabled(c, s, last) then before
    else match last
         case Read(_) => |s.active.paths|
         case Join(_) => before + 1
         case Accept(_) => before + 1
         case _ => before
  }

  /** The state's own counters are these. */
  lemma {:induction false} CountersExact(c: Config, initial: seq<int>, steps: seq<Step>)
    ensures var s := Execute(c, Init(c, initial), steps);
            !s.sender.Idle? ==> s.writes == Attempts(c, initial, steps) && s.allowance == Chances(c, initial, steps)
  {
    hide Do, Enabled;
    if steps != [] {
      var front, last := steps[..|steps| - 1], steps[|steps| - 1];
      CountersExact(c, initial, front);
      var s := Execute(c, Init(c, initial), front);
      if Enabled(c, s, last) {
        CountersStep(c, s, last);
      }
    }
  }

  lemma CountersStep(c: Config, s: State, step: Step)
    requires Enabled(c, s, step)
    ensures var t := Do(c, s, step);
            && (step.Read? && !t.sender.Idle? ==> t.writes == 0 && t.allowance == |s.active.paths|)
            && (!step.Read? && !t.sender.Idle? ==>
                  && !s.sender.Idle?
                  && t.writes == s.writes + (if step.WriteHeader? then 1 else 0)
                  && t.allowance == s.allowance + (if step.Join? || step.Accept? then 1 else 0))
  {
    hide Remove, Add, NextPath, MarkFailure, MarkSuccess, Uint32, PutUint32, NextFrame;
  }

  /** A packet is never tried more often than there were paths when it was read, plus paths added since. */
  lemma AttemptsBounded(c: Config, initial: seq<int>, steps: seq<Step>)
    requires ValidStart(c, initial) && !Execute(c, Init(c, initial), steps).sender.Idle?
    ensures Attempts(c, initial, steps) <= Chances(c, initial, steps)
  {
    CountersExact(c, initial, steps);
    Reachable(c, initial, steps);
    var s := Execute(c, Init(c, initial), steps);
    if !s.sender.Idle? && !s.sender.Routing? && HasStream(s.active, s.sender.path.stream) {
      assert |s.active.paths| > 0;
    }
  }
}
