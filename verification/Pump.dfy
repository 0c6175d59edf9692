/** The sending pump of internal/quictransport/client.go: reading the TUN device, failing over between
    paths, and the counters, while receivers and reconnect loops use the same path set. */
module Pump {
  import opened Bytes
  import opened ClientPaths
  import opened Framing
  import opened Numbers
  import opened PathSet
  import opened Policy
  import opened Sharing
  import opened Stats

  // ---- The device ----

  datatype DeviceError = Closed | NotPollable | OtherError

  /** One Read: data, or an error with whether the context was cancelled when it was seen, or during
      the retry delay after it. */
  datatype ReadEvent =
    | Data(bytes: Payload)
    | Failure(error: DeviceError, cancelled: bool, cancelledAsleep: bool)

  const MAX_RETRYABLE_READS: nat := 100

  datatype End = Blocked | Stopped | FatalRead

  /** What reading a script of events amounts to: the nonempty packets, the retried errors, the end. */
  datatype Reading = Reading(packets: seq<Payload>, retried: nat, end: End)

  function ReadAll(script: seq<ReadEvent>, retries: nat): Reading {
    if script == [] then Reading([], 0, Blocked) else
    match script[0]
    case Data(bytes) =>
      var r := ReadAll(script[1..], 0);
      if bytes == [] then r else r.(packets := [bytes] + r.packets)
    case Failure(error, cancelled, cancelledAsleep) =>
      if cancelled || error.Closed? then Reading([], 0, Stopped)
      else if error.NotPollable? && retries < MAX_RETRYABLE_READS then
        if cancelledAsleep then Reading([], 1, Stopped)
        else
          var r := ReadAll(script[1..], retries + 1);
          r.(retried := r.retried + 1)
      else Reading([], 0, FatalRead)
  }

  /** Errors in a row right before event i, counting `retries` before the first event. */
  function FailuresBefore(script: seq<ReadEvent>, i: nat, retries: nat): nat
    requires i <= |script|
  {
    if i == 0 then retries
    else if script[i - 1].Data? then 0
    else FailuresBefore(script, i - 1, retries) + 1
  }

  /** An error that is not retryable, or the one after 100 retries in a row. */
  predicate FatalAt(script: seq<ReadEvent>, i: nat, retries: nat)
    requires i < |script|
  {
    script[i].Failure? &&
    (script[i].error.OtherError?
     || (script[i].error.NotPollable? && FailuresBefore(script, i, retries) >= MAX_RETRYABLE_READS))
  }

  predicate OpenUncancelled(script: seq<ReadEvent>) {
    forall i | 0 <= i < |script| && script[i].Failure? ::
      !script[i].error.Closed? && !script[i].cancelled && !script[i].cancelledAsleep
  }

  lemma {:induction false} FailuresShift(script: seq<ReadEvent>, i: nat, retries: nat)
    requires 0 < i <= |script|
    ensures FailuresBefore(script, i, retries)
            == FailuresBefore(script[1..], i - 1, if script[0].Data? then 0 else retries + 1)
  {
    if i > 1 {
      FailuresShift(script, i - 1, retries);
    }
  }

  /** While the device stays open and nothing is cancelled, reading ends in a fatal error exactly if
      some read fails for another reason, or fails for the 101st time with no success in between. */
  lemma {:induction false} FatalExactly(script: seq<ReadEvent>, retries: nat)
    requires OpenUncancelled(script)
    ensures ReadAll(script, retries).end ==
            if exists i | 0 <= i < |script| :: FatalAt(script, i, retries) then FatalRead else Blocked
  {
    if script != [] {
      var next := if script[0].Data? then 0 else retries + 1;
      assert forall i | 0 <= i < |script[1..]| :: script[1..][i] == script[i + 1];
      FatalExactly(script[1..], next);
      forall i | 0 < i < |script| ensures FatalAt(script, i, retries) == FatalAt(script[1..], i - 1, next) {
        FailuresShift(script, i, retries);
      }
      if !FatalAt(script, 0, retries) {
        if i :| 0 <= i < |script[1..]| && FatalAt(script[1..], i, next) {
          assert FatalAt(script, i + 1, retries);
        }
        if i :| 0 <= i < |script| && FatalAt(script, i, retries) {
          assert FatalAt(script[1..], i - 1, next);
        }
      }
    }
  }

  /** Event i ends the reading: the device is closed, the context cancelled, or the error fatal. */
  predicate EndsAt(script: seq<ReadEvent>, i: nat, retries: nat)
    requires i < |script|
  {
    script[i].Failure?
    && (script[i].cancelled || script[i].error.Closed? || script[i].cancelledAsleep || FatalAt(script, i, retries))
  }

  /** The packets of a script that are not empty, in order. */
  function Packets(script: seq<ReadEvent>): seq<Payload> {
    if script == [] then []
    else (if script[0].Data? && script[0].bytes != [] then [script[0].bytes] else []) + Packets(script[1..])
  }

  /** Each nonempty packet as often as it is read, nothing else. */
  lemma {:induction false} PacketsExactly(script: seq<ReadEvent>, p: Payload)
    ensures multiset(Packets(script))[p] == if p == [] then 0 else multiset(script)[Data(p)]
  {
    if script != [] {
      PacketsExactly(script[1..], p);
      assert script == [script[0]] + script[1..];
    }
  }

  function Failures(script: seq<ReadEvent>): nat {
    if script == [] then 0 else (if script[0].Failure? then 1 else 0) + Failures(script[1..])
  }

  /** n is where the reading of this script ends. */
  predicate EndsFirstAt(script: seq<ReadEvent>, n: nat, retries: nat) {
    n <= |script|
    && (forall i | 0 <= i < n :: !EndsAt(script, i, retries))
    && (n < |script| ==> EndsAt(script, n, retries))
  }

  /** What a read loop gets, read off the script: every packet before the end, in order; a retry for every
      failure before it, and for the failure at the end if the context is cancelled while it is waited
      out; and the end itself. */
  lemma {:induction false} ReadAllExactly(script: seq<ReadEvent>, retries: nat, n: nat)
    requires EndsFirstAt(script, n, retries)
    ensures var r := ReadAll(script, retries);
            && r.packets == Packets(script[..n])
            && (n == |script| ==> r.end == Blocked && r.retried == Failures(script[..n]))
            && (n < |script| ==>
                  var quiet := script[n].cancelled || script[n].error.Closed?;
                  var fatal := !quiet && FatalAt(script, n, retries);
                  && r.end == (if fatal then FatalRead else Stopped)
                  && r.retried == Failures(script[..n]) + if quiet || fatal then 0 else 1)
  {
    if n > 0 {
      var next := if script[0].Data? then 0 else retries + 1;
      assert !EndsAt(script, 0, retries);
      ShiftEnds(script, n, retries);
      ReadAllExactly(script[1..], next, n - 1);
      assert script[..n][1..] == script[1..][..n - 1];
      if n < |script| {
        FailuresShift(script, n, retries);
        assert script[1..][n - 1] == script[n];
      }
    }
  }

  lemma ShiftEnds(script: seq<ReadEvent>, n: nat, retries: nat)
    requires EndsFirstAt(script, n, retries) && n > 0
    ensures EndsFirstAt(script[1..], n - 1, if script[0].Data? then 0 else retries + 1)
  {
    var next := if script[0].Data? then 0 else retries + 1;
    forall i | 0 < i < |script| ensures EndsAt(script, i, retries) == EndsAt(script[1..], i - 1, next) {
      FailuresShift(script, i, retries);
    }
    forall i | 0 <= i < n - 1 ensures !EndsAt(script[1..], i, next) {
      assert !EndsAt(script, i + 1, retries);
    }
  }

  class PacketSource {
    var script: seq<ReadEvent>

    constructor (script: seq<ReadEvent>)
      ensures this.script == script
    {
      this.script := script;
    }

    /** None: no more events, the read blocks for good. */
    method Read() returns (event: Option<ReadEvent>)
      modifies this
      ensures old(script) == [] ==> event == None && script == []
      ensures old(script) != [] ==> event == Some(old(script)[0]) && script == old(script)[1..]
    {
      if script == [] {
        return None;
      }
      event := Some(script[0]);
      script := script[1..];
    }
  }

  predicate ValidScript(script: seq<ReadEvent>) {
    forall i | 0 <= i < |script| && script[i].Data? :: |script[i].bytes| <= MAX_FRAME_SIZE
  }

  /** What one turn of a reading loop comes to. */
  datatype Next = Ended(end: End) | Again | Got(packet: Payload)

  /** One read of the loops in sendTUNPackets and forwardDevicePackets, with their error counting. */
  method ReadNext(source: PacketSource, counters: Counters, retries: nat)
    returns (next: Next, left: nat, ghost counted: nat)
    requires ValidScript(source.script)
    modifies source, counters
    ensures ValidScript(source.script) && (!next.Ended? ==> |source.script| < |old(source.script)|)
    ensures var was, rest := ReadAll(old(source.script), retries), ReadAll(source.script, left);
            match next
            case Ended(end) => was == Reading([], counted, end)
            case Again => was == rest.(retried := counted + rest.retried)
            case Got(packet) => ValidPayload(packet) && counted == 0 && was == rest.(packets := [packet] + rest.packets)
    ensures counters.stats == WithErrors(old(counters.stats), counted + if next == Ended(FatalRead) then 1 else 0)
  {
    left, counted := retries, 0;
    var event := source.Read();
    if event.None? {
      return Ended(Blocked), left, 0;
    }
    if event.value.Failure? {
      var failure := event.value;
      if failure.cancelled || failure.error.Closed? {
        return Ended(Stopped), left, 0;
      }
      if failure.error.NotPollable? && retries < MAX_RETRYABLE_READS {
        counters.AddError();
        return if failure.cancelledAsleep then Ended(Stopped) else Again, retries + 1, 1;
      }
      counters.AddError();
      return Ended(FatalRead), left, 0;
    }
    var packet := event.value.bytes;
    return if packet == [] then Again else Got(packet), 0, 0;
  }

  // ---- One packet, tried path after path ----

  /** A failed write. `before`, `between` and `late` are what others did to the path set before the path
      was picked, before its failure was recorded, and before it was removed. */
  datatype Attempt = Attempt(
    before: seq<Op>, picked: int, path: Path, taken: nat,
    between: seq<Op>, marked: int, late: seq<Op>)

  /** The streams of these attempts. */
  function Gone(failed: seq<Attempt>): set<StreamId> {
    set a | a in failed :: a.path.stream
  }

  /** The first bytes of a packet's frame. */
  function Part(packet: Payload, taken: nat): seq<byte>
    requires ValidPayload(packet)
  {
    if taken < HEADER_SIZE + |packet| then EncodeFrame(packet)[..taken] else EncodeFrame(packet)
  }

  /** The bytes failed attempts left on a stream. */
  function TornBytes(packet: Payload, failed: seq<Attempt>, stream: StreamId): seq<byte>
    requires ValidPayload(packet)
  {
    if failed == [] then [] else
    var last := failed[|failed| - 1];
    TornBytes(packet, failed[..|failed| - 1], stream)
    + if last.path.stream == stream then Part(packet, last.taken) else []
  }

  function FrameBytes(packet: Payload, sent: Option<Path>, stream: StreamId): seq<byte>
    requires ValidPayload(packet)
  {
    if sent.Some? && sent.value.stream == stream then EncodeFrame(packet) else []
  }

  /** The path set once the write is over. */
  function AfterWrite(s: Paths, a: Attempt): Paths {
    Replay(Apply(Replay(s, a.before), OpPick(a.picked)), a.between)
  }

  /** The path set when the failed path is about to be removed. */
  function BeforeRemoval(s: Paths, a: Attempt): Paths {
    Replay(Apply(AfterWrite(s, a), OpFail(a.path.id, a.marked)), a.late)
  }

  /** Everything that happens to the path set during a failed attempt. */
  function AttemptMoves(a: Attempt): seq<Op> {
    (a.before + [OpPick(a.picked)]) + (a.between + [OpFail(a.path.id, a.marked)]) + (a.late + [OpRemove(a.path.stream)])
  }

  lemma AttemptReplay(s: Paths, a: Attempt)
    ensures Replay(s, AttemptMoves(a)) == Remove(BeforeRemoval(s, a), a.path.stream).0
    ensures Adds(AttemptMoves(a)) == Adds(a.before) + Adds(a.between) + Adds(a.late)
  {
    hide Replay, Adds, Remove;
    var first, second, third :=
      a.before + [OpPick(a.picked)], a.between + [OpFail(a.path.id, a.marked)], a.late + [OpRemove(a.path.stream)];
    ReplayThen(s, first + second, third);
    ReplayThen(s, first, second);
    ReplayThenOne(s, a.before, OpPick(a.picked));
    ReplayThenOne(Replay(s, first), a.between, OpFail(a.path.id, a.marked));
    ReplayThenOne(Replay(s, first + second), a.late, OpRemove(a.path.stream));
    AddsThen(first + second, third);
    AddsThen(first, second);
  }

  lemma ReplayThenOne(s: Paths, ops: seq<Op>, op: Op)
    ensures Replay(s, ops + [op]) == Apply(Replay(s, ops), op)
    ensures Adds(ops + [op]) == Adds(ops) + AddsOf(op)
  {
    ReplayAnd(s, ops, op);
    AddsAnd(ops, op);
  }

  predicate Picks(s: Paths, now: int, path: Path) {
    s.paths != [] && path == NextPath(s, now).1
  }

  /** Whoever removes it, a path that was picked is gone after a failed attempt. */
  lemma AttemptShrinks(s: Paths, a: Attempt)
    requires Picks(Replay(s, a.before), a.picked, a.path)
    ensures |Replay(s, AttemptMoves(a)).paths| < |s.paths| + Adds(AttemptMoves(a))
  {
    hide Replay, Adds, PickIndex, Cooldown;
    AttemptReplay(s, a);
    var stream, picked := a.path.stream, Apply(Replay(s, a.before), OpPick(a.picked));
    var marked := Apply(AfterWrite(s, a), OpFail(a.path.id, a.marked));
    Shrinks(s, a.before, stream);
    assert picked.paths[PickIndex(Replay(s, a.before), a.picked)].stream == stream;
    Shrinks(picked, a.between, stream);
    assert marked.paths == AfterWrite(s, a).paths && Lost(AfterWrite(s, a), marked, stream) == 0;
    Shrinks(marked, a.late, stream);
    RemoveFinds(BeforeRemoval(s, a), stream);
  }

  /** What the failed attempts and everybody else meanwhile do to the path set. */
  function Moves(failed: seq<Attempt>): seq<Op> {
    if failed == [] then [] else Moves(failed[..|failed| - 1]) + AttemptMoves(failed[|failed| - 1])
  }

  /** Every attempt took the path the set chose at that time, and time never went back. */
  predicate InTurn(s: Paths, failed: seq<Attempt>, from: int, to: int) {
    if failed == [] then from <= to else
    var front, last := failed[..|failed| - 1], failed[|failed| - 1];
    && InTurn(s, front, from, last.picked) && last.picked <= last.marked <= to
    && ByOthers(last.before) && ByOthers(last.between) && ByOthers(last.late)
    && Picks(Replay(Replay(s, Moves(front)), last.before), last.picked, last.path)
  }

  /** The streams the sender closes: those of the failed paths that nobody else had removed before. */
  function ClosedBy(s: Paths, failed: seq<Attempt>): seq<StreamId> {
    if failed == [] then [] else
    var front, last := failed[..|failed| - 1], failed[|failed| - 1];
    ClosedBy(s, front) + ClosedIn(Replay(s, Moves(front)), last)
  }

  function ClosedIn(s: Paths, a: Attempt): seq<StreamId> {
    if HasStream(BeforeRemoval(s, a), a.path.stream) then [a.path.stream] else []
  }

  lemma AttemptStep(s: Paths, failed: seq<Attempt>, a: Attempt, from: int, to: int)
    requires InTurn(s, failed, from, a.picked) && a.picked <= a.marked <= to
    requires ByOthers(a.before) && ByOthers(a.between) && ByOthers(a.late)
    requires Picks(Replay(Replay(s, Moves(failed)), a.before), a.picked, a.path)
    ensures InTurn(s, failed + [a], from, to)
    ensures Moves(failed + [a]) == Moves(failed) + AttemptMoves(a)
    ensures Replay(s, Moves(failed + [a])) == Replay(Replay(s, Moves(failed)), AttemptMoves(a))
    ensures Adds(Moves(failed + [a])) == Adds(Moves(failed)) + Adds(AttemptMoves(a))
    ensures ClosedBy(s, failed + [a]) == ClosedBy(s, failed) + ClosedIn(Replay(s, Moves(failed)), a)
  {
    hide Replay, Adds, AttemptMoves, ClosedIn;
    assert (failed + [a])[..|failed|] == failed;
    ReplayThen(s, Moves(failed), AttemptMoves(a));
    AddsThen(Moves(failed), AttemptMoves(a));
  }

  lemma InTurnLater(s: Paths, failed: seq<Attempt>, from: int, to: int, later: int)
    requires InTurn(s, failed, from, to) && to <= later
    ensures InTurn(s, failed, from, later)
  {
  }

  function AfterPacket(before: Snapshot, packet: Payload, failures: nat, sent: bool): Snapshot {
    var s := before.(errors := before.errors + failures);
    if sent then s.(txPackets := s.txPackets + 1, txBytes := s.txBytes + |packet|) else s.(drops := s.drops + 1)
  }

  /** A failed write: record it, take the path out of the set unless that happened already, close it. */
  method GiveUp(pathSet: ClientPathSet, net: Network, clock: Clock, counters: Counters, path: Path, adds: nat)
    returns (ghost marked: int, ghost late: seq<Op>, left: nat)
    modifies pathSet, net`closed, clock, counters
    ensures ByOthers(late) && left + Adds(late) == adds && old(clock.time) <= marked <= clock.time
    ensures var s := Replay(Apply(old(pathSet.View()), OpFail(path.id, marked)), late);
            && pathSet.View() == Remove(s, path.stream).0
            && net.closed == old(net.closed) + if HasStream(s, path.stream) then [path.stream] else []
    ensures counters.stats == old(counters.stats).(errors := old(counters.stats).errors + 1)
  {
    hide Replay, Adds, Cooldown;
    counters.AddError();
    var health := pathSet.MarkFailure(path.id, clock);
    marked := clock.time;
    late, left := Interfere(pathSet, adds);
    RemoveFinds(pathSet.View(), path.stream);
    var removed := pathSet.Remove(path.stream);
    if removed.Some? {
      net.Close(removed.value.stream);
    }
  }

  /** One turn of the retry loop: no path, a failed write, or the packet sent. */
  method TryPath(pathSet: ClientPathSet, net: Network, clock: Clock, counters: Counters, packet: Payload, adds: nat)
    returns (path: Option<Path>, ok: bool, ghost a: Attempt, left: nat)
    requires ValidPayload(packet)
    modifies pathSet, net, clock, counters
    ensures ByOthers(a.before) && ByOthers(a.between) && ByOthers(a.late)
    ensures old(clock.time) <= a.picked <= a.marked <= clock.time
    ensures path.None? ==>
              && Replay(old(pathSet.View()), a.before).paths == []
              && pathSet.View() == Replay(old(pathSet.View()), a.before) && left + Adds(a.before) == adds
              && !ok && net.logs == old(net.logs) && net.closed == old(net.closed)
              && counters.stats == old(counters.stats).(drops := old(counters.stats).drops + 1)
    ensures path.Some? ==>
              && Picks(Replay(old(pathSet.View()), a.before), a.picked, a.path) && a.path == path.value
              && net.logs == old(net.logs[a.path.stream := net.Log(a.path.stream) + Part(packet, a.taken)])
    ensures path.Some? && ok ==>
              && pathSet.View() == Apply(AfterWrite(old(pathSet.View()), a), OpSucceed(a.path.id))
              && left + Adds(a.before) + Adds(a.between) == adds
              && a.taken == HEADER_SIZE + |packet| && net.closed == old(net.closed)
              && counters.stats == AfterPacket(old(counters.stats), packet, 0, true)
    ensures path.Some? && !ok ==>
              && pathSet.View() == Replay(old(pathSet.View()), AttemptMoves(a)) && left + Adds(AttemptMoves(a)) == adds
              && a.taken < HEADER_SIZE + |packet|
              && net.closed == old(net.closed) + ClosedIn(old(pathSet.View()), a)
              && counters.stats == old(counters.stats).(errors := old(counters.stats).errors + 1)
  {
    hide Replay, Adds, PickIndex, EncodeFrame, AttemptMoves, Cooldown;
    ghost var view := pathSet.View();
    ghost var before, between, late, picked, marked;
    before, left := Interfere(pathSet, adds);
    path := pathSet.NextPath(clock);
    picked := clock.time;
    if path.None? {
      counters.AddDrop();
      return None, false, Attempt(before, picked, Path(0, 0), 0, [], picked, []), left;
    }
    assert Picks(Replay(view, before), picked, path.value);
    var written;
    ghost var taken;
    written, taken := WriteFrame(net, path.value.stream, packet);
    ok := written.Ok?;
    PartTaken(packet, taken);
    between, left := Interfere(pathSet, left);
    if ok {
      a := Attempt(before, picked, path.value, taken, between, picked, []);
      pathSet.MarkSuccess(path.value.id);
      counters.AddTX(|packet|);
    } else {
      marked, late, left := GiveUp(pathSet, net, clock, counters, path.value, left);
      a := Attempt(before, picked, path.value, taken, between, marked, late);
      AttemptReplay(view, a);
    }
  }

  lemma PartTaken(packet: Payload, taken: nat)
    requires ValidPayload(packet) && taken <= |EncodeFrame(packet)|
    ensures EncodeFrame(packet)[..taken] == Part(packet, taken)
  {
  }

  /** Each stream took from the failed attempts what they left on it. */
  ghost predicate Torn(before: Logs, after: Logs, packet: Payload, failed: seq<Attempt>)
    requires ValidPayload(packet)
  {
    forall stream :: LogOf(after, stream) == LogOf(before, stream) + TornBytes(packet, failed, stream)
  }

  lemma TornStep(before: Logs, middle: Logs, packet: Payload,
                 failed: seq<Attempt>, a: Attempt)
    requires ValidPayload(packet) && Torn(before, middle, packet, failed)
    ensures var after := middle[a.path.stream := LogOf(middle, a.path.stream) + Part(packet, a.taken)];
            Torn(before, after, packet, failed + [a])
  {
    hide LogOf, Part, TornBytes;
    var part, stream := Part(packet, a.taken), a.path.stream;
    LogOfUpdated(middle, stream, part);
    TornBytesStep(packet, failed, a);
    Regroup(before, part, stream, failed, packet);
  }

  lemma TornBytesStep(packet: Payload, failed: seq<Attempt>, a: Attempt)
    requires ValidPayload(packet)
    ensures forall stream :: TornBytes(packet, failed + [a], stream)
              == TornBytes(packet, failed, stream) + if stream == a.path.stream then Part(packet, a.taken) else []
  {
    assert (failed + [a])[..|failed|] == failed;
  }

  lemma Regroup(before: Logs, part: seq<byte>, target: StreamId, failed: seq<Attempt>, packet: Payload)
    requires ValidPayload(packet)
    ensures forall stream ::
              var log, torn := LogOf(before, stream), TornBytes(packet, failed, stream);
              var more := if stream == target then part else [];
              (log + torn) + more == log + (torn + more)
  {
    hide LogOf, TornBytes;
  }

  /** What became of one nonempty packet read from the device at `began`; it was sent, if at all, on a
      path picked at `at`. `before` and `between` are what others did to the path set before that last
      look at it, and before the success was recorded. */
  datatype Outcome = Outcome(
    packet: Payload, failed: seq<Attempt>, before: seq<Op>, sent: Option<Path>, between: seq<Op>, began: int, at: int)

  /** Each stream took the parts of failed attempts and the one whole frame, if any. */
  ghost predicate PacketLogged(before: Logs, after: Logs, o: Outcome)
    requires ValidPayload(o.packet)
  {
    forall stream :: LogOf(after, stream) == LogOf(before, stream)
      + (TornBytes(o.packet, o.failed, stream) + FrameBytes(o.packet, o.sent, stream))
  }

  lemma UnsentLogged(before: Logs, after: Logs, o: Outcome)
    requires ValidPayload(o.packet) && o.sent == None && Torn(before, after, o.packet, o.failed)
    ensures PacketLogged(before, after, o)
  {
    hide TornBytes;
    forall stream
      ensures LogOf(after, stream) == LogOf(before, stream)
                + (TornBytes(o.packet, o.failed, stream) + FrameBytes(o.packet, o.sent, stream))
    {
      assert TornBytes(o.packet, o.failed, stream) + [] == TornBytes(o.packet, o.failed, stream);
    }
  }

  lemma SentLogged(before: Logs, middle: Logs, after: Logs, o: Outcome)
    requires ValidPayload(o.packet) && o.sent.Some? && Torn(before, middle, o.packet, o.failed)
    requires var stream := o.sent.value.stream;
             after == middle[stream := LogOf(middle, stream) + Part(o.packet, HEADER_SIZE + |o.packet|)]
    ensures PacketLogged(before, after, o)
  {
    hide LogOf, TornBytes, EncodeFrame;
    var part, stream := Part(o.packet, HEADER_SIZE + |o.packet|), o.sent.value.stream;
    LogOfUpdated(middle, stream, part);
    Regroup(before, part, stream, o.failed, o.packet);
  }

  /** What happens to the path set while the packet is handled. */
  function SendMoves(o: Outcome): seq<Op> {
    (Moves(o.failed) + o.before)
    + if o.sent.Some? then ([OpPick(o.at)] + o.between) + [OpSucceed(o.sent.value.id)] else []
  }

  /** Paths are tried as the set chooses them, until one takes the whole packet or none is left, and no
      more of them than there were and were added meanwhile. */
  ghost predicate Sent(s: Paths, o: Outcome, to: int) {
    && InTurn(s, o.failed, o.began, o.at) && o.at <= to && ByOthers(o.before) && ByOthers(o.between)
    && (forall i | 0 <= i < |o.failed| :: o.failed[i].taken < HEADER_SIZE + |o.packet|)
    && |o.failed| + (if o.sent.Some? then 1 else 0) <= |s.paths| + Adds(SendMoves(o))
    && var last := Replay(Replay(s, Moves(o.failed)), o.before);
       if o.sent.Some? then Picks(last, o.at, o.sent.value) else last.paths == [] && o.between == []
  }

  lemma SentReplay(s: Paths, o: Outcome, a: Attempt)
    requires o.sent == Some(a.path) && o.before == a.before && o.between == a.between && o.at == a.picked
    ensures Replay(s, SendMoves(o)) == Apply(AfterWrite(Replay(s, Moves(o.failed)), a), OpSucceed(a.path.id))
    ensures Adds(SendMoves(o)) == Adds(Moves(o.failed)) + Adds(o.before) + Adds(o.between)
  {
    hide Replay, Adds, Apply;
    var first, second := Moves(o.failed) + o.before, [OpPick(o.at)] + o.between;
    var done := OpSucceed(o.sent.value.id);
    ReplayThen(s, first, second + [done]);
    ReplayThen(s, Moves(o.failed), o.before);
    ReplayThenOne(Replay(s, first), second, done);
    ReplayThen(Replay(s, first), [OpPick(o.at)], o.between);
    ReplayOne(Replay(s, first), OpPick(o.at));
    AddsThen(first, second + [done]);
    AddsThen(Moves(o.failed), o.before);
    AddsThen([OpPick(o.at)], o.between);
    AddsOne(OpPick(o.at));
  }

  lemma AddsOne(op: Op)
    ensures Adds([op]) == AddsOf(op)
  {
    assert Adds([op][..0]) == 0;
  }

  lemma UnsentReplay(s: Paths, o: Outcome)
    requires o.sent == None
    ensures Replay(s, SendMoves(o)) == Replay(Replay(s, Moves(o.failed)), o.before)
    ensures Adds(SendMoves(o)) == Adds(Moves(o.failed)) + Adds(o.before)
  {
    hide Replay, Adds;
    assert SendMoves(o) == Moves(o.failed) + o.before;
    ReplayThen(s, Moves(o.failed), o.before);
    AddsThen(Moves(o.failed), o.before);
  }

  /** The inner loop of sendTUNPackets, others using the path set all the while and `adds` paths joining
      it at most. The packet goes out whole on one path the set chose, or is dropped when it finds the
      set empty; a failed path is removed, and closed unless somebody else removed it first; the path
      set, its cursor and its health table are those of that history. */
  method SendPacket(pathSet: ClientPathSet, net: Network, clock: Clock, counters: Counters, packet: Payload, adds: nat)
    returns (sent: Option<Path>, ghost o: Outcome, left: nat)
    requires ValidPayload(packet)
    modifies pathSet, net, clock, counters
    ensures o.packet == packet && o.sent == sent && o.began == old(clock.time)
    ensures Sent(old(pathSet.View()), o, clock.time)
    ensures pathSet.View() == Replay(old(pathSet.View()), SendMoves(o)) && left + Adds(SendMoves(o)) == adds
    ensures PacketLogged(old(net.logs), net.logs, o)
    ensures net.closed == old(net.closed) + ClosedBy(old(pathSet.View()), o.failed)
    ensures counters.stats == AfterPacket(old(counters.stats), packet, |o.failed|, sent.Some?)
  {
    hide Replay, TornBytes, FrameBytes, EncodeFrame, Part, InTurn, Moves, AttemptMoves, ClosedBy, ClosedIn, Picks;
    hide SendMoves, Adds, AfterWrite, ByOthers, Sent, Torn, PacketLogged, LogOf;
    ghost var failed := [];
    ghost var before, view, logs, began := counters.stats, pathSet.View(), net.logs, clock.time;
    left := adds;
    NothingTried(packet, view, logs, began);
    while true
      invariant InTurn(view, failed, began, clock.time) && pathSet.View() == Replay(view, Moves(failed))
      invariant forall i | 0 <= i < |failed| :: failed[i].taken < HEADER_SIZE + |packet|
      invariant left + Adds(Moves(failed)) == adds && |failed| + |pathSet.paths| + left <= |view.paths| + adds
      invariant Torn(logs, net.logs, packet, failed)
      invariant net.closed == old(net.closed) + ClosedBy(view, failed)
      invariant counters.stats == before.(errors := before.errors + |failed|)
      decreases |pathSet.paths| + left
    {
      ghost var middle, torn, now := pathSet.View(), net.logs, clock.time;
      ghost var a;
      var ok;
      sent, ok, a, left := TryPath(pathSet, net, clock, counters, packet, left);
      InTurnLater(view, failed, began, now, a.picked);
      if sent.None? {
        o := Outcome(packet, failed, a.before, None, [], began, a.picked);
        NoneLeft(view, o, clock.time);
        UnsentLogged(logs, torn, o);
        return;
      }
      if ok {
        o := Outcome(packet, failed, a.before, sent, a.between, began, a.picked);
        SentWhole(view, o, a, clock.time);
        SentLogged(logs, torn, net.logs, o);
        return;
      }
      AttemptShrinks(middle, a);
      AttemptStep(view, failed, a, began, clock.time);
      TornStep(logs, torn, packet, failed, a);
      failed := failed + [a];
    }
  }

  lemma NothingTried(packet: Payload, s: Paths, logs: Logs, now: int)
    requires ValidPayload(packet)
    ensures InTurn(s, [], now, now) && Moves([]) == [] && Adds([]) == 0 && Replay(s, []) == s && ClosedBy(s, []) == []
    ensures Torn(logs, logs, packet, [])
  {
  }

  lemma NoneLeft(s: Paths, o: Outcome, to: int)
    requires o.sent == None && o.between == [] && InTurn(s, o.failed, o.began, o.at) && o.at <= to && ByOthers(o.before)
    requires forall i | 0 <= i < |o.failed| :: o.failed[i].taken < HEADER_SIZE + |o.packet|
    requires Replay(Replay(s, Moves(o.failed)), o.before).paths == []
    requires |o.failed| <= |s.paths| + Adds(Moves(o.failed))
    ensures Sent(s, o, to)
    ensures Replay(s, SendMoves(o)) == Replay(Replay(s, Moves(o.failed)), o.before)
    ensures Adds(SendMoves(o)) == Adds(Moves(o.failed)) + Adds(o.before)
  {
    hide Replay, Adds, InTurn, Moves, SendMoves;
    UnsentReplay(s, o);
  }

  lemma SentWhole(s: Paths, o: Outcome, a: Attempt, to: int)
    requires o.sent == Some(a.path) && o.before == a.before && o.between == a.between && o.at == a.picked
    requires InTurn(s, o.failed, o.began, o.at) && o.at <= to && ByOthers(o.before) && ByOthers(o.between)
    requires forall i | 0 <= i < |o.failed| :: o.failed[i].taken < HEADER_SIZE + |o.packet|
    requires Picks(Replay(Replay(s, Moves(o.failed)), a.before), a.picked, a.path)
    requires |o.failed| + |Replay(s, Moves(o.failed)).paths| <= |s.paths| + Adds(Moves(o.failed))
    ensures Sent(s, o, to)
    ensures Replay(s, SendMoves(o)) == Apply(AfterWrite(Replay(s, Moves(o.failed)), a), OpSucceed(a.path.id))
    ensures Adds(SendMoves(o)) == Adds(Moves(o.failed)) + Adds(o.before) + Adds(o.between)
  {
    hide Replay, Adds, InTurn, Moves, SendMoves, PickIndex;
    SentReplay(s, o, a);
    Shrinks(Replay(s, Moves(o.failed)), a.before, a.path.stream);
  }

  // ---- What one packet means for the path set ----

  /** As long as nobody adds a path: every path of the set is tried at most once, and the set that is left
      is the original one without the streams removed, by the sender or by others. */
  lemma TriedOnce(s: Paths, o: Outcome, to: int)
    requires Sent(s, o, to) && DistinctStreams(s.paths) && Adds(SendMoves(o)) == 0
    ensures forall i | 0 <= i < |o.failed| :: o.failed[i].path in s.paths
    ensures forall i, j | 0 <= i < j < |o.failed| :: o.failed[i].path.stream != o.failed[j].path.stream
    ensures o.sent.Some? ==>
              && o.sent.value in s.paths
              && forall i | 0 <= i < |o.failed| :: o.failed[i].path.stream != o.sent.value.stream
    ensures forall p :: p in Replay(s, SendMoves(o)).paths <==> p in s.paths && OpRemove(p.stream) !in SendMoves(o)
  {
    hide Replay, Adds, Moves, Sent, InTurn, SendMoves;
    RemovalsOnly(s, SendMoves(o));
    SentParts(s, o, to);
    AttemptsDistinct(s, o.failed, o.began, o.at);
    if o.sent.Some? {
      StillDistinct(s, Moves(o.failed), o.before);
      PickIsMember(Replay(Replay(s, Moves(o.failed)), o.before), o.at, o.sent.value);
      forall i | 0 <= i < |o.failed| ensures o.failed[i].path.stream != o.sent.value.stream {
        AttemptRemoves(o.failed, i);
      }
    }
  }

  lemma SentParts(s: Paths, o: Outcome, to: int)
    requires Sent(s, o, to) && Adds(SendMoves(o)) == 0
    ensures InTurn(s, o.failed, o.began, o.at) && Adds(Moves(o.failed)) == 0 && Adds(o.before) == 0
    ensures o.sent.Some? ==> Picks(Replay(Replay(s, Moves(o.failed)), o.before), o.at, o.sent.value)
  {
    hide Replay, Adds, Moves, InTurn;
    AddsThen(Moves(o.failed), o.before);
    if o.sent.Some? {
      AddsThen(Moves(o.failed) + o.before, ([OpPick(o.at)] + o.between) + [OpSucceed(o.sent.value.id)]);
    } else {
      assert SendMoves(o) == Moves(o.failed) + o.before;
    }
  }

  lemma PickIsMember(s: Paths, now: int, path: Path)
    requires Picks(s, now, path)
    ensures path in s.paths
  {
  }

  lemma StillDistinct(s: Paths, a: seq<Op>, b: seq<Op>)
    requires DistinctStreams(s.paths) && Adds(a) == 0 && Adds(b) == 0
    ensures forall p | p in Replay(Replay(s, a), b).paths :: p in s.paths && OpRemove(p.stream) !in a
  {
    hide Replay, Adds;
    RemovalsOnly(s, a);
    RemovalsOnly(Replay(s, a), b);
  }

  /** The removal of every failed attempt is part of the history. */
  lemma {:induction false} AttemptRemoves(failed: seq<Attempt>, i: nat)
    requires i < |failed|
    ensures OpRemove(failed[i].path.stream) in Moves(failed)
  {
    var front, last := failed[..|failed| - 1], failed[|failed| - 1];
    if i < |failed| - 1 {
      AttemptRemoves(front, i);
    } else {
      assert AttemptMoves(last)[|AttemptMoves(last)| - 1] == OpRemove(last.path.stream);
    }
  }

  lemma {:induction false} AttemptsDistinct(s: Paths, failed: seq<Attempt>, from: int, to: int)
    requires InTurn(s, failed, from, to) && DistinctStreams(s.paths) && Adds(Moves(failed)) == 0
    ensures forall i | 0 <= i < |failed| :: failed[i].path in s.paths
    ensures forall i, j | 0 <= i < j < |failed| :: failed[i].path.stream != failed[j].path.stream
  {
    hide Replay, Adds, AttemptMoves, Picks;
    if failed != [] {
      var front, last := failed[..|failed| - 1], failed[|failed| - 1];
      AddsThen(Moves(front), AttemptMoves(last));
      AttemptAdds(last);
      AttemptsDistinct(s, front, from, last.picked);
      StillDistinct(s, Moves(front), last.before);
      PickIsMember(Replay(Replay(s, Moves(front)), last.before), last.picked, last.path);
      forall i | 0 <= i < |front| ensures failed[i].path.stream != last.path.stream {
        AttemptRemoves(front, i);
      }
    }
  }

  lemma AttemptAdds(a: Attempt)
    ensures Adds(AttemptMoves(a)) == Adds(a.before) + Adds(a.between) + Adds(a.late)
  {
    AttemptReplay(New([]), a);
  }

  /** How often a path of this id failed. */
  function Tries(failed: seq<Attempt>, id: int): nat {
    if failed == [] then 0
    else Tries(failed[..|failed| - 1], id) + if failed[|failed| - 1].path.id == id then 1 else 0
  }

  /** The health table gets one failure for every failed attempt, and forgets those of the id that took
      the packet. */
  lemma FailuresRecorded(s: Paths, o: Outcome, to: int, id: int)
    requires Sent(s, o, to)
    ensures FailuresSince(SendMoves(o), id) == if o.sent.Some? && o.sent.value.id == id then 0 else Tries(o.failed, id)
  {
    hide InTurn, Moves, Replay, FailuresSince, ByOthers;
    AttemptsRecorded(s, o.failed, o.began, o.at, id);
    OthersRecordNothing(Moves(o.failed), o.before, id);
    if o.sent.Some? {
      var first, done := Moves(o.failed) + o.before, OpSucceed(o.sent.value.id);
      RecordsAnd(first, OpPick(o.at), id);
      OthersRecordNothing(first + [OpPick(o.at)], o.between, id);
      RecordsAnd((first + [OpPick(o.at)]) + o.between, done, id);
      assert SendMoves(o) == ((first + [OpPick(o.at)]) + o.between) + [done];
    } else {
      assert SendMoves(o) == Moves(o.failed) + o.before;
    }
  }

  lemma RecordsAnd(ops: seq<Op>, op: Op, id: int)
    ensures FailuresSince(ops + [op], id) ==
            match op
            case OpFail(who, _) => FailuresSince(ops, id) + if who == id then 1 else 0
            case OpSucceed(who) => if who == id then 0 else FailuresSince(ops, id)
            case _ => FailuresSince(ops, id)
  {
    assert (ops + [op])[..|ops|] == ops;
  }

  lemma {:induction false} OthersRecordNothing(ops: seq<Op>, others: seq<Op>, id: int)
    requires ByOthers(others)
    ensures FailuresSince(ops + others, id) == FailuresSince(ops, id)
  {
    hide FailuresSince;
    if others == [] {
      assert ops + others == ops;
    } else {
      var front, last := others[..|others| - 1], others[|others| - 1];
      OthersRecordNothing(ops, front, id);
      RecordsAnd(ops + front, last, id);
      assert ops + others == (ops + front) + [last];
    }
  }

  lemma {:induction false} AttemptsRecorded(s: Paths, failed: seq<Attempt>, from: int, to: int, id: int)
    requires InTurn(s, failed, from, to)
    ensures FailuresSince(Moves(failed), id) == Tries(failed, id)
  {
    hide Replay, FailuresSince, ByOthers, Picks;
    if failed == [] {
      NoneRecorded(id);
    } else {
      var front, a := failed[..|failed| - 1], failed[|failed| - 1];
      AttemptsRecorded(s, front, from, a.picked, id);
      AttemptRecorded(Moves(front), a, id);
    }
  }

  lemma NoneRecorded(id: int)
    ensures FailuresSince([], id) == 0
  {
  }

  lemma AttemptRecorded(ops: seq<Op>, a: Attempt, id: int)
    requires ByOthers(a.before) && ByOthers(a.between) && ByOthers(a.late)
    ensures FailuresSince(ops + AttemptMoves(a), id) == FailuresSince(ops, id) + if a.path.id == id then 1 else 0
  {
    hide FailuresSince, ByOthers;
    var first := (ops + a.before) + [OpPick(a.picked)];
    var second := (first + a.between) + [OpFail(a.path.id, a.marked)];
    OthersRecordNothing(ops, a.before, id);
    RecordsAnd(ops + a.before, OpPick(a.picked), id);
    OthersRecordNothing(first, a.between, id);
    RecordsAnd(first + a.between, OpFail(a.path.id, a.marked), id);
    OthersRecordNothing(second, a.late, id);
    RecordsAnd(second + a.late, OpRemove(a.path.stream), id);
    assert ops + AttemptMoves(a) == (second + a.late) + [OpRemove(a.path.stream)];
  }

  /** When nobody else touches the set: exactly the failed paths leave it and are closed, in that order,
      and the packet is dropped exactly when that were all. */
  lemma Undisturbed(s: Paths, o: Outcome, to: int)
    requires Sent(s, o, to) && DistinctStreams(s.paths) && o.before == o.between == []
    requires forall i | 0 <= i < |o.failed| :: o.failed[i].before == o.failed[i].between == o.failed[i].late == []
    ensures var left := Replay(s, SendMoves(o)).paths;
            && (forall p :: p in left <==> p in s.paths && p.stream !in Gone(o.failed))
            && (o.sent.None? <==> left == [])
            && ClosedBy(s, o.failed) == Streams(o.failed)
  {
    hide Replay, Adds, Moves, InTurn, PickIndex, ClosedBy;
    AllClosedInTurn(s, o.failed, o.began, o.at);
    NobodyElse(o.failed);
    SendMovesAlone(o);
    RemovalsOnly(s, SendMoves(o));
    var left := Replay(s, SendMoves(o)).paths;
    forall p ensures p in left <==> p in s.paths && p.stream !in Gone(o.failed) {
      assert p.stream in Gone(o.failed) <==> OpRemove(p.stream) in SendMoves(o);
    }
    if o.sent.Some? {
      TriedOnce(s, o, to);
      assert o.sent.value in left;
    } else {
      UnsentReplay(s, o);
    }
  }

  function Streams(failed: seq<Attempt>): seq<StreamId> {
    if failed == [] then [] else Streams(failed[..|failed| - 1]) + [failed[|failed| - 1].path.stream]
  }

  lemma {:induction false} AllClosedInTurn(s: Paths, failed: seq<Attempt>, from: int, to: int)
    requires InTurn(s, failed, from, to)
    requires forall i | 0 <= i < |failed| :: failed[i].before == failed[i].between == failed[i].late == []
    ensures ClosedBy(s, failed) == Streams(failed)
  {
    hide Replay, ClosedIn, Picks, Moves;
    if failed != [] {
      var front, a := failed[..|failed| - 1], failed[|failed| - 1];
      AllClosedInTurn(s, front, from, a.picked);
      PickedIsClosed(Replay(s, Moves(front)), a);
    }
  }

  lemma PickedIsClosed(s: Paths, a: Attempt)
    requires a.before == a.between == a.late == [] && Picks(Replay(s, a.before), a.picked, a.path)
    ensures ClosedIn(s, a) == [a.path.stream]
  {
    hide Replay, PickIndex, Cooldown;
    ReplayNone(s);
    ReplayNone(Apply(s, OpPick(a.picked)));
    ReplayNone(Apply(AfterWrite(s, a), OpFail(a.path.id, a.marked)));
    assert BeforeRemoval(s, a).paths[PickIndex(s, a.picked)] == a.path;
  }

  lemma {:induction false} NobodyElse(failed: seq<Attempt>)
    requires forall i | 0 <= i < |failed| :: failed[i].before == failed[i].between == failed[i].late == []
    ensures Adds(Moves(failed)) == 0
    ensures forall stream :: OpRemove(stream) in Moves(failed) <==> stream in Gone(failed)
  {
    hide Adds;
    if failed == [] {
      AddsNone();
    } else {
      var front, last := failed[..|failed| - 1], failed[|failed| - 1];
      NobodyElse(front);
      AddsThen(Moves(front), AttemptMoves(last));
      AttemptAdds(last);
      AddsNone();
      assert AttemptMoves(last) == [OpPick(last.picked), OpFail(last.path.id, last.marked), OpRemove(last.path.stream)];
      assert failed == front + [last];
      assert Gone(failed) == Gone(front) + {last.path.stream};
    }
  }

  lemma AddsNone()
    ensures Adds([]) == 0
  {
  }

  lemma SendMovesAlone(o: Outcome)
    requires o.before == o.between == [] && Adds(Moves(o.failed)) == 0
    ensures Adds(SendMoves(o)) == 0
    ensures forall stream :: OpRemove(stream) in SendMoves(o) <==> OpRemove(stream) in Moves(o.failed)
  {
    hide Moves, Adds;
    assert Moves(o.failed) + [] == Moves(o.failed);
    if o.sent.Some? {
      var tail := ([OpPick(o.at)] + []) + [OpSucceed(o.sent.value.id)];
      assert SendMoves(o) == Moves(o.failed) + tail;
      assert tail == [OpPick(o.at)] + [OpSucceed(o.sent.value.id)];
      AddsThen(Moves(o.failed), tail);
      AddsAnd([OpPick(o.at)], OpSucceed(o.sent.value.id));
      AddsOne(OpPick(o.at));
    } else {
      assert SendMoves(o) == Moves(o.failed);
    }
  }

  // ---- The outer loop ----

  predicate ValidOutcomes(sends: seq<Outcome>) {
    forall i | 0 <= i < |sends| :: ValidPayload(sends[i].packet)
  }

  function PacketsOf(sends: seq<Outcome>): seq<Payload> {
    if sends == [] then [] else PacketsOf(sends[..|sends| - 1]) + [sends[|sends| - 1].packet]
  }

  /** Everything these sends put on a stream. */
  function SentBytes(sends: seq<Outcome>, stream: StreamId): seq<byte>
    requires ValidOutcomes(sends)
  {
    if sends == [] then [] else
    var last := sends[|sends| - 1];
    SentBytes(sends[..|sends| - 1], stream)
    + (TornBytes(last.packet, last.failed, stream) + FrameBytes(last.packet, last.sent, stream))
  }

  function Tally(before: Snapshot, sends: seq<Outcome>): Snapshot {
    if sends == [] then before else
    var last := sends[|sends| - 1];
    AfterPacket(Tally(before, sends[..|sends| - 1]), last.packet, |last.failed|, last.sent.Some?)
  }

  function SentPackets(sends: seq<Outcome>): seq<Payload> {
    if sends == [] then [] else
    SentPackets(sends[..|sends| - 1]) + if sends[|sends| - 1].sent.Some? then [sends[|sends| - 1].packet] else []
  }

  function FailureCount(sends: seq<Outcome>): nat {
    if sends == [] then 0 else FailureCount(sends[..|sends| - 1]) + |sends[|sends| - 1].failed|
  }

  /** Conservation: every packet is sent or dropped, bytes are the lengths of those sent, and errors
      are the failed writes. */
  lemma {:induction false} TallyMeaning(before: Snapshot, sends: seq<Outcome>)
    ensures var after := Tally(before, sends);
            && after.txPackets + after.drops == before.txPackets + before.drops + |sends|
            && after.txPackets == before.txPackets + |SentPackets(sends)|
            && after.txBytes == before.txBytes + TotalLength(SentPackets(sends))
            && after.errors == before.errors + FailureCount(sends)
            && after.rxPackets == before.rxPackets && after.rxBytes == before.rxBytes
  {
    if sends != [] {
      var front, last := sends[..|sends| - 1], sends[|sends| - 1];
      TallyMeaning(before, front);
      if last.sent.Some? {
        assert SentPackets(sends)[..|SentPackets(front)|] == SentPackets(front);
      } else {
        assert SentPackets(sends) == SentPackets(front);
      }
    }
  }

  /** Conservation over the script: every nonempty packet the device delivered up to the end of the reading
      was sent or dropped, and errors are the failed reads and the failed writes; only a read that ends
      the loop quietly is not counted. */
  lemma PumpConserves(script: seq<ReadEvent>, before: Snapshot, sends: seq<Outcome>, n: nat)
    requires EndsFirstAt(script, n, 0) && PacketsOf(sends) == ReadAll(script, 0).packets
    ensures var reading := ReadAll(script, 0);
            var after := WithErrors(Tally(before, sends), reading.retried + if reading.end.FatalRead? then 1 else 0);
            && after.txPackets + after.drops == before.txPackets + before.drops + |Packets(script[..n])|
            && after.txPackets == before.txPackets + |SentPackets(sends)|
            && after.txBytes == before.txBytes + TotalLength(SentPackets(sends))
            && after.errors == before.errors + FailureCount(sends) + Failures(script[..n])
                               + if n == |script| || script[n].cancelled || script[n].error.Closed? then 0 else 1
  {
    hide ReadAll, Tally, PacketsOf, Packets, Failures, EndsFirstAt, EndsAt, FatalAt;
    hide SentPackets, FailureCount, TotalLength;
    ReadAllExactly(script, 0, n);
    EndsBeyond(script, n);
    TallyMeaning(before, sends);
    AsManyPackets(sends);
  }

  lemma EndsBeyond(script: seq<ReadEvent>, n: nat)
    requires EndsFirstAt(script, n, 0)
    ensures n <= |script| && (n < |script| ==> script[n].Failure?)
  {
  }

  lemma {:induction false} AsManyPackets(sends: seq<Outcome>)
    ensures |PacketsOf(sends)| == |sends|
  {
    if sends != [] {
      AsManyPackets(sends[..|sends| - 1]);
    }
  }

  /** A packet is handled as the policy and the failover loop say. */
  ghost predicate Handled(s: Paths, policy: PacketPolicy, o: Outcome, to: int) {
    if Allow(policy, o.packet) then Sent(s, o, to)
    else o.failed == [] && o.sent == None && o.before == o.between == [] && o.began == o.at <= to
  }

  method Forward(pathSet: ClientPathSet, net: Network, clock: Clock, counters: Counters, policy: PacketPolicy,
                 packet: Payload, adds: nat)
    returns (ghost o: Outcome, left: nat)
    requires ValidPayload(packet)
    modifies pathSet, net, clock, counters
    ensures o.packet == packet && o.began == old(clock.time)
    ensures Handled(old(pathSet.View()), policy, o, clock.time)
    ensures pathSet.View() == Replay(old(pathSet.View()), SendMoves(o)) && left + Adds(SendMoves(o)) == adds
    ensures PacketLogged(old(net.logs), net.logs, o)
    ensures net.closed == old(net.closed) + ClosedBy(old(pathSet.View()), o.failed)
    ensures counters.stats == AfterPacket(old(counters.stats), packet, |o.failed|, o.sent.Some?)
  {
    hide Replay, PacketLogged, Allow, Sent, SendMoves, Adds, ClosedBy;
    left := adds;
    if !Allow(policy, packet) {
      o := Outcome(packet, [], [], None, [], clock.time, clock.time);
      NothingDone(o, pathSet.View(), net.logs);
      counters.AddDrop();
      return;
    }
    var sent;
    sent, o, left := SendPacket(pathSet, net, clock, counters, packet, adds);
  }

  lemma NothingDone(o: Outcome, s: Paths, logs: Logs)
    requires o.failed == [] && o.sent == None && o.before == [] && ValidPayload(o.packet)
    ensures SendMoves(o) == [] && Replay(s, []) == s && Adds([]) == 0 && ClosedBy(s, []) == []
    ensures PacketLogged(logs, logs, o)
  {
  }

  function AllMoves(sends: seq<Outcome>): seq<Op> {
    if sends == [] then [] else AllMoves(sends[..|sends| - 1]) + SendMoves(sends[|sends| - 1])
  }

  function AllClosed(s: Paths, sends: seq<Outcome>): seq<StreamId> {
    if sends == [] then [] else
    var front, last := sends[..|sends| - 1], sends[|sends| - 1];
    AllClosed(s, front) + ClosedBy(Replay(s, AllMoves(front)), last.failed)
  }

  /** One packet after the other, each from the path set its predecessors left. */
  ghost predicate AllHandled(s: Paths, policy: PacketPolicy, sends: seq<Outcome>, to: int) {
    if sends == [] then true else
    var front, last := sends[..|sends| - 1], sends[|sends| - 1];
    && AllHandled(s, policy, front, last.began)
    && Handled(Replay(s, AllMoves(front)), policy, last, to)
  }

  lemma HandledStep(s: Paths, policy: PacketPolicy, sends: seq<Outcome>, o: Outcome, to: int)
    requires AllHandled(s, policy, sends, o.began) && Handled(Replay(s, AllMoves(sends)), policy, o, to)
    ensures AllHandled(s, policy, sends + [o], to)
    ensures Adds(AllMoves(sends + [o])) == Adds(AllMoves(sends)) + Adds(SendMoves(o))
    ensures AllClosed(s, sends + [o]) == AllClosed(s, sends) + ClosedBy(Replay(s, AllMoves(sends)), o.failed)
    ensures Replay(s, AllMoves(sends + [o])) == Replay(Replay(s, AllMoves(sends)), SendMoves(o))
  {
    hide Handled, Replay, SendMoves, Adds, ClosedBy;
    assert (sends + [o])[..|sends|] == sends;
    ReplayThen(s, AllMoves(sends), SendMoves(o));
    AddsThen(AllMoves(sends), SendMoves(o));
  }

  /** The client's pump rotates too: while every packet is admitted, no write fails, nobody else uses the
      path set and nothing is cooling down, the packets take the paths in turn. */
  lemma {:induction false} PumpRotates(s: Paths, policy: PacketPolicy, sends: seq<Outcome>, to: int)
    requires s.paths != [] && s.next < |s.paths| && s.health == map[] && AllHandled(s, policy, sends, to)
    requires forall i | 0 <= i < |sends| ::
               Allow(policy, sends[i].packet) && sends[i].failed == [] && sends[i].before == sends[i].between == []
    ensures forall i | 0 <= i < |sends| :: sends[i].sent == Some(s.paths[(s.next + i) % |s.paths|])
    ensures Replay(s, AllMoves(sends)) == s.(next := (s.next + |sends|) % |s.paths|)
  {
    hide Allow, Replay, Apply, Sent, SendMoves;
    if sends == [] {
      ReplayNone(s);
      ModSmall(s.next, |s.paths|);
    } else {
      var front, last := sends[..|sends| - 1], sends[|sends| - 1];
      PumpRotates(s, policy, front, last.began);
      var t := Replay(s, AllMoves(front));
      ReplayThen(s, AllMoves(front), SendMoves(last));
      SentInTurn(t, last, to);
      CursorMoves(s.next, |front|, |s.paths|);
    }
  }

  lemma CursorMoves(next: nat, i: nat, n: nat)
    requires n > 0
    ensures (next + i) % n % n == (next + i) % n && ((next + i) % n + 1) % n == (next + i + 1) % n
  {
    ModSmall((next + i) % n, n);
    ModPlus(next + i, 1, n);
  }

  lemma SentInTurn(t: Paths, o: Outcome, to: int)
    requires Sent(t, o, to) && t.paths != [] && t.health == map[] && o.failed == [] && o.before == o.between == []
    ensures o.sent == Some(t.paths[t.next % |t.paths|])
    ensures Replay(t, SendMoves(o)) == t.(next := (t.next + 1) % |t.paths|)
  {
    hide Replay, PickIndex;
    ReplayNone(t);
    PickMoves(t, o.at);
    if o.sent.Some? {
      var done := OpSucceed(o.sent.value.id);
      assert SendMoves(o) == [OpPick(o.at)] + [done];
      ReplayAnd(t, [OpPick(o.at)], done);
      ReplayOne(t, OpPick(o.at));
    }
  }

  /** Every stream took exactly what these sends put on it. */
  ghost predicate Logged(before: Logs, after: Logs, sends: seq<Outcome>)
    requires ValidOutcomes(sends)
  {
    forall stream :: LogOf(after, stream) == LogOf(before, stream) + SentBytes(sends, stream)
  }

  lemma OutcomeStep(before: Snapshot, sends: seq<Outcome>, o: Outcome)
    requires ValidOutcomes(sends) && ValidPayload(o.packet)
    ensures ValidOutcomes(sends + [o])
    ensures PacketsOf(sends + [o]) == PacketsOf(sends) + [o.packet]
    ensures Tally(before, sends + [o]) == AfterPacket(Tally(before, sends), o.packet, |o.failed|, o.sent.Some?)
  {
    assert (sends + [o])[..|sends|] == sends;
  }

  lemma LoggedStep(before: Logs, middle: Logs, after: Logs,
                   sends: seq<Outcome>, o: Outcome)
    requires ValidOutcomes(sends) && ValidPayload(o.packet) && ValidOutcomes(sends + [o])
    requires Logged(before, middle, sends)
    requires PacketLogged(middle, after, o)
    ensures Logged(before, after, sends + [o])
  {
    hide TornBytes, FrameBytes, LogOf;
    assert (sends + [o])[..|sends|] == sends;
  }

  function WithErrors(s: Snapshot, errors: nat): Snapshot {
    s.(errors := s.errors + errors)
  }

  /** sendTUNPackets: the packets handled are exactly the nonempty reads, in order; the streams, the
      counters and the path set change by exactly what became of them, plus one error per retried read
      and one for a fatal end. */
  method SendTUNPackets(source: PacketSource, pathSet: ClientPathSet, net: Network, clock: Clock, counters: Counters,
                        policy: PacketPolicy, adds: nat)
    returns (end: End, ghost sends: seq<Outcome>, left: nat)
    requires ValidScript(source.script)
    modifies source, pathSet, net, clock, counters
    ensures var reading := ReadAll(old(source.script), 0);
            && end == reading.end
            && ValidOutcomes(sends) && PacketsOf(sends) == reading.packets
            && counters.stats == WithErrors(Tally(old(counters.stats), sends),
                                            reading.retried + if end.FatalRead? then 1 else 0)
    ensures AllHandled(old(pathSet.View()), policy, sends, clock.time)
    ensures pathSet.View() == Replay(old(pathSet.View()), AllMoves(sends)) && left + Adds(AllMoves(sends)) == adds
    ensures Logged(old(net.logs), net.logs, sends)
    ensures net.closed == old(net.closed) + AllClosed(old(pathSet.View()), sends)
  {
    hide Replay, PacketLogged, Handled, Tally, PacketsOf, AfterPacket, Adds, ClosedBy;
    hide Logged, AllHandled, AllMoves, AllClosed, SendMoves, ReadAll;
    sends, left := [], adds;
    ghost var before, view, logs, reading := counters.stats, pathSet.View(), net.logs, ReadAll(source.script, 0);
    ghost var retried: nat := 0;
    var retryableReadErrors := 0;
    NothingSent(before, view, logs, policy, clock.time);
    while true
      invariant ValidScript(source.script) && ValidOutcomes(sends)
      invariant var rest := ReadAll(source.script, retryableReadErrors);
                reading == Reading(PacketsOf(sends) + rest.packets, retried + rest.retried, rest.end)
      invariant counters.stats == WithErrors(Tally(before, sends), retried)
      invariant AllHandled(view, policy, sends, clock.time)
      invariant pathSet.View() == Replay(view, AllMoves(sends)) && left + Adds(AllMoves(sends)) == adds
      invariant Logged(logs, net.logs, sends) && net.closed == old(net.closed) + AllClosed(view, sends)
      decreases |source.script|
    {
      var next;
      ghost var counted;
      next, retryableReadErrors, counted := ReadNext(source, counters, retryableReadErrors);
      retried := retried + counted;
      if next.Ended? {
        return next.end, sends, left;
      }
      if next.Again? {
        continue;
      }
      var packet := next.packet;
      ghost var middle := net.logs;
      ghost var o;
      o, left := Forward(pathSet, net, clock, counters, policy, packet, left);
      OutcomeStep(before, sends, o);
      LoggedStep(logs, middle, net.logs, sends, o);
      HandledStep(view, policy, sends, o, clock.time);
      TallyWithErrors(Tally(before, sends), o, retried);
      sends := sends + [o];
    }
  }

  lemma TallyWithErrors(s: Snapshot, o: Outcome, errors: nat)
    ensures AfterPacket(WithErrors(s, errors), o.packet, |o.failed|, o.sent.Some?)
            == WithErrors(AfterPacket(s, o.packet, |o.failed|, o.sent.Some?), errors)
  {
  }

  lemma NothingSent(before: Snapshot, view: Paths, logs: Logs, policy: PacketPolicy, now: int)
    ensures PacketsOf([]) == [] && Tally(before, []) == before && AllMoves([]) == [] && Replay(view, []) == view
    ensures Adds([]) == 0 && Logged(logs, logs, []) && AllClosed(view, []) == [] && AllHandled(view, policy, [], now)
  {
  }
}
