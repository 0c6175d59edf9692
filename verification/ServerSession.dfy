/** serverTUNSession of internal/quictransport/server.go, and the receive loops of both sides. */
module ServerSession {
  import opened Bytes
  import opened ClientPaths
  import opened Framing
  import opened Multipath
  import opened Numbers
  import opened PathSet
  import opened Policy
  import opened Pump
  import opened Stats
  import Fairness

  /** While membership stands still and no write fails, the server's choices are the scheduler's. */
  lemma ServerAgreesWithRoundRobin(s: Paths, m: nat)
    requires s.paths != [] && s.next < |s.paths| && s.health == map[]
    ensures Fairness.Run(s, 0, m) == Turns(s.next, |s.paths|, m)
  {
    AgreesWithRoundRobin(s, 0, m);
  }

  /** What happens to a session: handlers join and leave, the sender picks; nobody marks anything. */
  predicate OnServer(ops: seq<Op>) {
    forall i | 0 <= i < |ops| :: ops[i].OpAppend? || ops[i].OpRemove? || ops[i].OpPick?
  }

  lemma {:induction false} NothingMarked(s: Paths, ops: seq<Op>)
    requires OnServer(ops)
    ensures Replay(s, ops).health == s.health
  {
    hide PickIndex, StreamIndex;
    if ops != [] {
      NothingMarked(s, ops[..|ops| - 1]);
    }
  }

  class ServerTUNSession {
    var paths: seq<Path>
    var nextPath: nat

    /** The server keeps no health table. */
    ghost function View(): Paths
      reads this
    {
      Paths(paths, nextPath, map[])
    }

    constructor ()
      ensures View() == New([])
    {
      paths := [];
      nextPath := 0;
    }

    /** Operations of other users of the session. */
    method Meanwhile(moves: seq<Op>)
      requires OnServer(moves)
      modifies this
      ensures View() == Replay(old(View()), moves)
    {
      NothingMarked(View(), moves);
      var s := Replay(Paths(paths, nextPath, map[]), moves);
      paths, nextPath := s.paths, s.next;
    }

    /** Any of them may happen. */
    method Interfere() returns (ghost moves: seq<Op>)
      modifies this
      ensures OnServer(moves) && View() == Replay(old(View()), moves)
    {
      var chosen: seq<Op> := *;
      if !OnServer(chosen) {
        chosen := [];
      }
      Meanwhile(chosen);
      moves := chosen;
    }

    method AddPath(id: int, stream: StreamId)
      modifies this
      ensures View() == old(View()).(paths := old(paths) + [Path(id, stream)])
      ensures CursorValid(old(View())) ==> CursorValid(View())
    {
      paths := paths + [Path(id, stream)];
    }

    method RemovePath(stream: StreamId)
      modifies this
      ensures View() == Remove(old(View()), stream).0
      ensures CursorValid(old(View())) ==> CursorValid(View())
    {
      ApplyKeepsCursor(View(), OpRemove(stream));
      var i := 0;
      while i < |paths|
        invariant i <= StreamIndex(paths, stream)
        invariant View() == old(View())
      {
        if paths[i].stream == stream {
          paths := paths[..i] + paths[i + 1..];
          if |paths| == 0 {
            nextPath := 0;
          } else if nextPath >= |paths| {
            nextPath := nextPath % |paths|;
          }
          return;
        }
        StreamFurther(paths, stream, i);
        i := i + 1;
      }
    }

    /** One path is tried, the next in turn; if its write fails the path leaves and the packet is lost. */
    method WriteNextPath(net: Network, counters: Counters, packet: Payload)
      returns (sent: Option<Path>, ghost failed: seq<Attempt>)
      requires ValidPayload(packet)
      modifies this, net`logs, counters
      ensures OneAttempt(old(View()), packet, failed, sent)
      ensures View() == Replay(old(View()), OneMove(failed, sent))
      ensures CursorValid(old(View())) ==> CursorValid(View())
      ensures sent.Some? ==> paths == old(paths) && nextPath == (old(nextPath) + 1) % |paths|
      ensures AttemptLogged(old(net.logs), net.logs, packet, failed, sent)
      ensures counters.stats == old(counters.stats).(errors := old(counters.stats).errors + |failed|)
    {
      hide Replay, EncodeFrame, TornBytes, FrameBytes, Part, LogOf, OnServer;
      ghost var view, logs := View(), net.logs;
      if |paths| == 0 {
        ReplayNone(view);
        NothingLogged(logs, packet);
        return None, [];
      }
      var path := PickPath();
      ghost var picked := View();
      var written;
      ghost var taken;
      written, taken := WriteFrame(net, path.stream, packet);
      PartTaken(packet, taken);
      if written.Err? {
        ghost var between := Interfere();
        RemovePath(path.stream);
        counters.AddError();
        sent, failed := None, [Attempt([], 0, path, taken, between, 0, [])];
        FailedReplay(view, failed[0]);
        PartLogged(logs, packet, failed[0]);
      } else {
        sent, failed := Some(path), [];
        ReplayOne(view, OpPick(0));
        PickMoves(view, 0);
        FrameLogged(logs, packet, path);
      }
      CursorKept(view, OneMove(failed, sent));
    }

    /** Under the lock: the next path in turn. */
    method PickPath() returns (path: Path)
      requires paths != []
      modifies this`nextPath
      ensures path == old(paths[nextPath % |paths|])
      ensures View() == Apply(old(View()), OpPick(0))
    {
      hide Apply;
      PickMoves(View(), 0);
      path := paths[nextPath % |paths|];
      nextPath := (nextPath + 1) % |paths|;
    }
  }

  lemma CursorKept(s: Paths, ops: seq<Op>)
    ensures CursorValid(s) ==> CursorValid(Replay(s, ops))
  {
    if CursorValid(s) {
      CursorAlwaysValid(s, ops);
    }
  }

  /** The only path tried is the next in turn; it took the whole packet or failed. */
  ghost predicate OneAttempt(s: Paths, packet: Payload, failed: seq<Attempt>, sent: Option<Path>) {
    if s.paths == [] then failed == [] && sent == None else
    var path := s.paths[s.next % |s.paths|];
    if sent.Some? then sent.value == path && failed == []
    else
      && |failed| == 1 && failed[0].path == path
      && failed[0].taken < HEADER_SIZE + |packet| && OnServer(failed[0].between)
  }

  /** What happens to the session during that attempt. */
  function OneMove(failed: seq<Attempt>, sent: Option<Path>): seq<Op> {
    if failed != [] then ([OpPick(0)] + failed[0].between) + [OpRemove(failed[0].path.stream)]
    else if sent.Some? then [OpPick(0)] else []
  }

  lemma FailedReplay(s: Paths, a: Attempt)
    ensures Replay(s, OneMove([a], None)) == Apply(Replay(Apply(s, OpPick(0)), a.between), OpRemove(a.path.stream))
  {
    hide Replay, Apply;
    ReplayAnd(s, [OpPick(0)] + a.between, OpRemove(a.path.stream));
    ReplayThen(s, [OpPick(0)], a.between);
    ReplayOne(s, OpPick(0));
  }

  /** What one attempt, or none, does to the streams. */
  ghost predicate AttemptLogged(before: Logs, after: Logs, packet: Payload,
                                failed: seq<Attempt>, sent: Option<Path>)
    requires ValidPayload(packet)
  {
    PacketLogged(before, after, Outcome(packet, failed, [], sent, [], 0, 0))
  }

  lemma NothingLogged(logs: Logs, packet: Payload)
    requires ValidPayload(packet)
    ensures Torn(logs, logs, packet, [])
    ensures AttemptLogged(logs, logs, packet, [], None)
  {
  }

  lemma PartLogged(logs: Logs, packet: Payload, a: Attempt)
    requires ValidPayload(packet)
    ensures var after := logs[a.path.stream := LogOf(logs, a.path.stream) + Part(packet, a.taken)];
            AttemptLogged(logs, after, packet, [a], None)
  {
    hide Torn, LogOf, Part;
    NothingLogged(logs, packet);
    TornStep(logs, logs, packet, [], a);
    assert [] + [a] == [a];
    UnsentLogged(logs, logs[a.path.stream := LogOf(logs, a.path.stream) + Part(packet, a.taken)],
                 Outcome(packet, [a], [], None, [], 0, 0));
  }

  lemma FrameLogged(logs: Logs, packet: Payload, path: Path)
    requires ValidPayload(packet)
    ensures AttemptLogged(logs, logs[path.stream := LogOf(logs, path.stream) + Part(packet, HEADER_SIZE + |packet|)],
                          packet, [], Some(path))
  {
    hide Torn, LogOf, Part;
    NothingLogged(logs, packet);
    SentLogged(logs, logs, logs[path.stream := LogOf(logs, path.stream) + Part(packet, HEADER_SIZE + |packet|)],
               Outcome(packet, [], [], Some(path), [], 0, 0));
  }

  /** In a session of three or more paths the neighbour of a path that fails can lose its turn: the
      first of these three fails, and the next packet goes to the third. */
  lemma PassedOver(packet: Payload)
    requires ValidPayload(packet)
    ensures var s := Paths([Path(0, 10), Path(1, 11), Path(2, 12)], 0, map[]);
            var failed := [Attempt([], 0, Path(0, 10), 0, [], 0, [])];
            var t := Replay(s, OneMove(failed, None));
            && OneAttempt(s, packet, failed, None)
            && OneAttempt(t, packet, [], Some(Path(2, 12)))
            && !OneAttempt(t, packet, [], Some(Path(1, 11)))
  {
    var s := Paths([Path(0, 10), Path(1, 11), Path(2, 12)], 0, map[]);
    FailedReplay(s, Attempt([], 0, Path(0, 10), 0, [], 0, []));
    ReplayNone(Apply(s, OpPick(0)));
    PickMoves(s, 0);
    hide Replay, Apply;
    RemovesFirst(s.(next := 1));
  }

  lemma RemovesFirst(s: Paths)
    requires s.paths == [Path(0, 10), Path(1, 11), Path(2, 12)] && s.next == 1
    ensures Apply(s, OpRemove(10)) == s.(paths := [Path(1, 11), Path(2, 12)])
  {
    assert s.paths[..0] + s.paths[1..] == [Path(1, 11), Path(2, 12)];
  }

  /** What happens to the session while a packet is handled, and between it and the one before. */
  function OfferMoves(o: Outcome): seq<Op> {
    o.before + OneMove(o.failed, o.sent)
  }

  function SessionMoves(sends: seq<Outcome>): seq<Op> {
    if sends == [] then [] else SessionMoves(sends[..|sends| - 1]) + OfferMoves(sends[|sends| - 1])
  }

  /** The policy, then one attempt on the session as it is found. */
  ghost predicate Offered(s: Paths, policy: PacketPolicy, o: Outcome) {
    && OnServer(o.before)
    && if Allow(policy, o.packet) then OneAttempt(Replay(s, o.before), o.packet, o.failed, o.sent)
       else o.failed == [] && o.sent == None
  }

  /** One packet after the other, each from the path set its predecessors left. */
  ghost predicate AllOffered(s: Paths, policy: PacketPolicy, sends: seq<Outcome>) {
    forall i | 0 <= i < |sends| :: Offered(Replay(s, SessionMoves(sends[..i])), policy, sends[i])
  }

  lemma OfferedStep(s: Paths, policy: PacketPolicy, sends: seq<Outcome>, o: Outcome)
    requires AllOffered(s, policy, sends) && Offered(Replay(s, SessionMoves(sends)), policy, o)
    ensures AllOffered(s, policy, sends + [o])
    ensures Replay(s, SessionMoves(sends + [o])) == Replay(Replay(s, SessionMoves(sends)), OfferMoves(o))
  {
    hide Offered, Replay, SessionMoves, OfferMoves;
    var all := sends + [o];
    assert all[..|sends|] == sends;
    forall i | 0 <= i < |all| ensures Offered(Replay(s, SessionMoves(all[..i])), policy, all[i]) {
      if i < |sends| {
        assert all[..i] == sends[..i];
      }
    }
    SessionMovesStep(sends, o);
    ReplayThen(s, SessionMoves(sends), OfferMoves(o));
  }

  lemma SessionMovesStep(sends: seq<Outcome>, o: Outcome)
    ensures SessionMoves(sends + [o]) == SessionMoves(sends) + OfferMoves(o)
  {
    hide OfferMoves;
    assert (sends + [o])[..|sends|] == sends;
  }

  /** The session rotates: while every packet is admitted, no write fails and nobody else uses the
      session, the packets take the paths in turn, from the one at the cursor on. */
  lemma SessionRotates(s: Paths, policy: PacketPolicy, sends: seq<Outcome>, i: nat)
    requires s.paths != [] && s.next < |s.paths| && s.health == map[] && AllOffered(s, policy, sends) && i < |sends|
    requires forall j | 0 <= j < |sends| ::
               Allow(policy, sends[j].packet) && sends[j].failed == [] && sends[j].before == []
    ensures sends[i].sent == Some(s.paths[(s.next + i) % |s.paths|])
  {
    hide AllOffered, Allow, Replay, SessionMoves;
    RotatedAfter(s, policy, sends, i);
    OfferedAt(s, policy, sends, i);
    ReplayNone(Replay(s, SessionMoves(sends[..i])));
    ModSmall((s.next + i) % |s.paths|, |s.paths|);
  }

  lemma OfferedAt(s: Paths, policy: PacketPolicy, sends: seq<Outcome>, i: nat)
    requires AllOffered(s, policy, sends) && i < |sends|
    ensures Offered(Replay(s, SessionMoves(sends[..i])), policy, sends[i])
  {
  }

  /** The session after i such packets. */
  lemma {:induction false} RotatedAfter(s: Paths, policy: PacketPolicy, sends: seq<Outcome>, i: nat)
    requires s.paths != [] && s.next < |s.paths| && s.health == map[] && AllOffered(s, policy, sends) && i <= |sends|
    requires forall j | 0 <= j < |sends| ::
               Allow(policy, sends[j].packet) && sends[j].failed == [] && sends[j].before == []
    ensures Replay(s, SessionMoves(sends[..i])) == s.(next := (s.next + i) % |s.paths|)
  {
    hide AllOffered, Allow, Replay, SessionMoves, Apply;
    if i == 0 {
      NoSends(s);
      assert sends[..0] == [];
      ModSmall(s.next, |s.paths|);
    } else {
      RotatedAfter(s, policy, sends, i - 1);
      OfferedAt(s, policy, sends, i - 1);
      var t, o := Replay(s, SessionMoves(sends[..i - 1])), sends[i - 1];
      assert sends[..i] == sends[..i - 1] + [o];
      SessionMovesStep(sends[..i - 1], o);
      ReplayNone(t);
      assert OfferMoves(o) == [OpPick(0)];
      ReplayThen(s, SessionMoves(sends[..i - 1]), [OpPick(0)]);
      ReplayOne(t, OpPick(0));
      PickMoves(t, 0);
      ModPlus(s.next + (i - 1), 1, |s.paths|);
    }
  }

  lemma NoSends(s: Paths)
    ensures Replay(s, SessionMoves([])) == s
  {
  }

  lemma NothingOffered(before: Snapshot, view: Paths, logs: Logs, policy: PacketPolicy)
    ensures PacketsOf([]) == [] && Tally(before, []) == before && Logged(logs, logs, [])
    ensures SessionMoves([]) == [] && Replay(view, []) == view && AllOffered(view, policy, [])
  {
  }

  /** forwardDevicePackets, handlers joining and leaving all the while: as the client's pump, but every
      packet gets one attempt only. */
  method ForwardDevicePackets(source: PacketSource, session: ServerTUNSession, net: Network, counters: Counters,
                              policy: PacketPolicy)
    returns (end: End, ghost sends: seq<Outcome>)
    requires ValidScript(source.script)
    modifies source, session, net`logs, counters
    ensures var reading := ReadAll(old(source.script), 0);
            && end == reading.end
            && ValidOutcomes(sends) && PacketsOf(sends) == reading.packets
            && counters.stats == WithErrors(Tally(old(counters.stats), sends),
                                            reading.retried + if end.FatalRead? then 1 else 0)
    ensures AllOffered(old(session.View()), policy, sends) && Logged(old(net.logs), net.logs, sends)
    ensures session.View() == Replay(old(session.View()), SessionMoves(sends))
  {
    hide Replay, PacketLogged, Offered, Tally, PacketsOf, AfterPacket;
    hide Logged, AllOffered, SessionMoves, OfferMoves, ReadAll;
    sends := [];
    ghost var before, view, logs, reading := counters.stats, session.View(), net.logs, ReadAll(source.script, 0);
    ghost var retried: nat := 0;
    var retryableReadErrors := 0;
    NothingOffered(before, view, logs, policy);
    while true
      invariant ValidScript(source.script) && ValidOutcomes(sends)
      invariant var rest := ReadAll(source.script, retryableReadErrors);
                reading == Reading(PacketsOf(sends) + rest.packets, retried + rest.retried, rest.end)
      invariant counters.stats == WithErrors(Tally(before, sends), retried)
      invariant AllOffered(view, policy, sends) && Logged(logs, net.logs, sends)
      invariant session.View() == Replay(view, SessionMoves(sends))
      decreases |source.script|
    {
      var next;
      ghost var counted;
      next, retryableReadErrors, counted := ReadNext(source, counters, retryableReadErrors);
      retried := retried + counted;
      if next.Ended? {
        return next.end, sends;
      }
      if next.Again? {
        continue;
      }
      ghost var middle := net.logs;
      ghost var o := Offer(session, net, counters, policy, next.packet);
      OutcomeStep(before, sends, o);
      LoggedStep(logs, middle, net.logs, sends, o);
      OfferedStep(view, policy, sends, o);
      TallyWithErrors(Tally(before, sends), o, retried);
      sends := sends + [o];
    }
  }

  /** The policy, then the one attempt. */
  method Offer(session: ServerTUNSession, net: Network, counters: Counters, policy: PacketPolicy, packet: Payload)
    returns (ghost o: Outcome)
    requires ValidPayload(packet)
    modifies session, net`logs, counters
    ensures o.packet == packet && Offered(old(session.View()), policy, o)
    ensures session.View() == Replay(old(session.View()), OfferMoves(o))
    ensures PacketLogged(old(net.logs), net.logs, o)
    ensures counters.stats == AfterPacket(old(counters.stats), packet, |o.failed|, o.sent.Some?)
  {
    hide Replay, Torn, TornBytes, FrameBytes, Allow, LogOf, OneMove, OnServer;
    ghost var view := session.View();
    ghost var before := session.Interfere();
    ghost var failed := [];
    var sent := None;
    if Allow(policy, packet) {
      sent, failed := session.WriteNextPath(net, counters, packet);
    } else {
      NothingLogged(net.logs, packet);
      NoMove(session.View());
    }
    if sent.None? {
      counters.AddDrop();
    } else {
      counters.AddTX(|packet|);
    }
    o := Outcome(packet, failed, before, sent, [], 0, 0);
    ReplayThen(view, before, OneMove(failed, sent));
  }

  lemma NoMove(s: Paths)
    ensures Replay(s, OneMove([], None)) == s
  {
  }

  // ---- Receiving ----

  /** The device packets are written to. */
  class PacketSink {
    var written: seq<Payload>

    constructor ()
      ensures written == []
    {
      written := [];
    }

    /** The error, if any, is os.ErrClosed or another. */
    method Write(packet: Payload) returns (r: Result<(), DeviceError>)
      modifies this
      ensures written == if r.Ok? then old(written) + [packet] else old(written)
    {
      var error: Option<DeviceError> := *;
      if error.Some? {
        return Err(error.value);
      }
      written := written + [packet];
      r := Ok(());
    }
  }

  /** Counters after these frames went through the policy to the device. */
  function Received(before: Snapshot, policy: PacketPolicy, frames: seq<Payload>): Snapshot {
    var passed := Allowed(policy, frames);
    AllowedShorter(policy, frames);
    before.(rxPackets := before.rxPackets + |passed|, rxBytes := before.rxBytes + TotalLength(passed),
            drops := before.drops + (|frames| - |passed|))
  }

  /** Every frame read is passed on and counted, or dropped; what is passed on is what the policy admits. */
  lemma ReceivedMeaning(before: Snapshot, policy: PacketPolicy, frames: seq<Payload>)
    ensures var after, denied := Received(before, policy, frames), Denied(policy, frames);
            && after.drops == before.drops + denied
            && after.rxPackets + denied == before.rxPackets + |frames|
            && after.rxBytes == before.rxBytes + TotalLength(Allowed(policy, frames))
            && after.txPackets == before.txPackets && after.txBytes == before.txBytes && after.errors == before.errors
  {
    AllowedOrDenied(policy, frames);
  }

  function Denied(policy: PacketPolicy, frames: seq<Payload>): nat {
    if frames == [] then 0
    else Denied(policy, frames[..|frames| - 1]) + if Allow(policy, frames[|frames| - 1]) then 0 else 1
  }

  lemma {:induction false} AllowedOrDenied(policy: PacketPolicy, frames: seq<Payload>)
    ensures |Allowed(policy, frames)| + Denied(policy, frames) == |frames|
  {
    hide Allow;
    if frames != [] {
      AllowedOrDenied(policy, frames[..|frames| - 1]);
    }
  }

  lemma {:induction false} AllowedShorter(policy: PacketPolicy, frames: seq<Payload>)
    ensures |Allowed(policy, frames)| <= |frames|
  {
    if frames != [] {
      AllowedShorter(policy, frames[..|frames| - 1]);
    }
  }

  lemma ReceivedStep(before: Snapshot, policy: PacketPolicy, frames: seq<Payload>, frame: Payload)
    ensures Allowed(policy, frames + [frame]) == Allowed(policy, frames) + if Allow(policy, frame) then [frame] else []
    ensures Received(before, policy, frames + [frame]) ==
            var s := Received(before, policy, frames);
            if Allow(policy, frame) then s.(rxPackets := s.rxPackets + 1, rxBytes := s.rxBytes + |frame|)
            else s.(drops := s.drops + 1)
  {
    hide Allow;
    var all, passed := frames + [frame], Allowed(policy, frames);
    assert all[..|frames|] == frames;
    AllowedShorter(policy, frames);
    if Allow(policy, frame) {
      assert (passed + [frame])[..|passed|] == passed;
    } else {
      assert passed + [] == passed;
    }
  }

  datatype ReceiveEnd = StreamEnded | DeviceFailed(error: DeviceError)

  /** The end of a receive loop in its own terms: which side it runs on and whether it was cancelled. */
  datatype Receiving = Receiving(client: bool, cancelled: bool)

  /** Whether a read error ends the loop quietly; only the client excuses its own closing. */
  predicate Quiet(how: Receiving, e: ReadError) {
    how.cancelled || IsGracefulStreamEnd(e) || (how.client && e == TransportError(ClosedHere))
  }

  /** Which cut streams of frames end a loop quietly: always if it was cancelled; otherwise a finished one
      cut between frames or just after a header, a broken one for application error code 0, and, on the
      client alone, one that was closed here. */
  lemma CutQuietly(payloads: seq<Payload>, n: nat, how: Receiving, broken: Break)
    requires ValidPayloads(payloads) && n <= |EncodeAll(payloads)|
    ensures var bytes, whole := EncodeAll(payloads)[..n], |EncodeAll(payloads[..WholeFrames(payloads, n)])|;
            && (Quiet(how, DecodeAll(bytes, Finished).1) <==> how.cancelled || n - whole in {0, HEADER_SIZE})
            && (Quiet(how, DecodeAll(bytes, Aborted(broken)).1)
                <==> how.cancelled || broken == Graceful || (how.client && broken == ClosedHere))
  {
    hide EncodeAll, DecodeAll, WholeFrames;
    CutGracefully(payloads, n, broken);
    Truncation(payloads, n);
  }

  /** The device got, in order, what the policy allows of the frames in the byte stream, up to the end
      of the stream or a failing device. */
  ghost predicate FramesHandled(stream: (seq<Payload>, ReadError), how: Receiving, policy: PacketPolicy,
                                before: Snapshot, after: Snapshot, more: seq<Payload>, end: ReceiveEnd)
  {
    var (frames, error) := stream;
    match end
    case StreamEnded =>
      && more == Allowed(policy, frames)
      && after == WithErrors(Received(before, policy, frames), if Quiet(how, error) then 0 else 1)
    case DeviceFailed(failure) =>
      exists handled | 0 <= handled < |frames| ::
        && Allow(policy, frames[handled])
        && more == Allowed(policy, frames[..handled])
        && after == WithErrors(Received(before, policy, frames[..handled]),
                               if how.cancelled || failure.Closed? then 0 else 1)
  }

  /** The frame loop the receivers of both sides share. */
  method ReceiveFrames(reader: Reader, sink: PacketSink, counters: Counters, policy: PacketPolicy, how: Receiving)
    returns (end: ReceiveEnd, ghost more: seq<Payload>)
    modifies reader, sink, counters
    ensures sink.written == old(sink.written) + more
    ensures FramesHandled(DecodeAll(old(reader.rest), reader.end), how, policy,
                          old(counters.stats), counters.stats, more, end)
  {
    hide Allow, Allowed, TotalLength, DecodeFrame, DecodeAll, Received, Quiet, FramesHandled;
    ghost var (frames, error) := DecodeAll(reader.rest, reader.end);
    ghost var before, sunk, handled := counters.stats, sink.written, 0;
    NothingReceived(before, policy);
    more := [];
    assert frames[..0] == [];
    while true
      invariant handled <= |frames|
      invariant DecodeAll(reader.rest, reader.end) == (frames[handled..], error)
      invariant sink.written == sunk + more && more == Allowed(policy, frames[..handled])
      invariant counters.stats == Received(before, policy, frames[..handled])
      decreases |frames| - handled
    {
      DecodeStep(reader.rest, reader.end, frames, handled, error);
      var frame := ReadFrame(reader);
      if frame.Err? {
        if !Quiet(how, frame.error) {
          counters.AddError();
        }
        StreamOver((frames, error), how, policy, before, counters.stats);
        return StreamEnded, more;
      }
      ReceivedStep(before, policy, frames[..handled], frame.value);
      if !Allow(policy, frame.value) {
        counters.AddDrop();
        handled := handled + 1;
        continue;
      }
      var written := sink.Write(frame.value);
      if written.Err? {
        if !(how.cancelled || written.error.Closed?) {
          counters.AddError();
        }
        DeviceOver((frames, error), how, policy, before, counters.stats, handled, written.error);
        return DeviceFailed(written.error), more;
      }
      counters.AddRX(|frame.value|);
      assert (sunk + more) + [frame.value] == sunk + (more + [frame.value]);
      more := more + [frame.value];
      handled := handled + 1;
    }
  }

  lemma StreamOver(stream: (seq<Payload>, ReadError), how: Receiving, policy: PacketPolicy,
                   before: Snapshot, after: Snapshot)
    requires after == WithErrors(Received(before, policy, stream.0), if Quiet(how, stream.1) then 0 else 1)
    ensures FramesHandled(stream, how, policy, before, after, Allowed(policy, stream.0), StreamEnded)
  {
  }

  lemma DeviceOver(stream: (seq<Payload>, ReadError), how: Receiving, policy: PacketPolicy,
                   before: Snapshot, after: Snapshot, handled: nat, failure: DeviceError)
    requires handled < |stream.0| && Allow(policy, stream.0[handled])
    requires after == WithErrors(Received(before, policy, stream.0[..handled]),
                                 if how.cancelled || failure.Closed? then 0 else 1)
    ensures FramesHandled(stream, how, policy, before, after,
                          Allowed(policy, stream.0[..handled]), DeviceFailed(failure))
  {
  }

  lemma NothingReceived(before: Snapshot, policy: PacketPolicy)
    ensures Received(before, policy, []) == before && Allowed(policy, []) == []
  {
  }

  /** receivePathPackets: whatever ends the loop, and whatever others did to the set meanwhile, its stream
      leaves the set then, and is closed, if it was still there. */
  method ReceivePathPackets(path: Path, reader: Reader, sink: PacketSink, pathSet: ClientPathSet, net: Network,
                            counters: Counters, policy: PacketPolicy, cancelled: bool, meanwhile: seq<Op>)
    returns (end: ReceiveEnd, ghost more: seq<Payload>)
    modifies reader, sink, pathSet, net`closed, counters
    ensures sink.written == old(sink.written) + more
    ensures FramesHandled(DecodeAll(old(reader.rest), reader.end), Receiving(true, cancelled), policy,
                          old(counters.stats), counters.stats, more, end)
    ensures var s := Replay(old(pathSet.View()), meanwhile);
            && pathSet.View() == Remove(s, path.stream).0
            && net.closed == old(net.closed) + if HasStream(s, path.stream) then [path.stream] else []
  {
    hide FramesHandled, Replay;
    end, more := ReceiveFrames(reader, sink, counters, policy, Receiving(true, cancelled));
    pathSet.Meanwhile(meanwhile);
    RemoveFinds(pathSet.View(), path.stream);
    var removed := pathSet.Remove(path.stream);
    if removed.Some? {
      net.Close(removed.value.stream);
    }
  }

  /** handleTUNQUICConnection once its stream is accepted: the stream joins the session, others use the
      session while its frames are handled, and then the stream is out of it, whoever removed it, and
      closed. */
  method HandleTUNQUICConnection(id: int, stream: StreamId, reader: Reader, sink: PacketSink, session: ServerTUNSession,
                                 net: Network, counters: Counters, policy: PacketPolicy, cancelled: bool,
                                 meanwhile: seq<Op>)
    returns (end: ReceiveEnd, ghost more: seq<Payload>)
    requires !HasStream(session.View(), stream) && OnServer(meanwhile) && NeverJoins(meanwhile, stream)
    modifies reader, sink, session, net`closed, counters
    ensures sink.written == old(sink.written) + more
    ensures FramesHandled(DecodeAll(old(reader.rest), reader.end), Receiving(false, cancelled), policy,
                          old(counters.stats), counters.stats, more, end)
    ensures var joined := old(session.View()).(paths := old(session.paths) + [Path(id, stream)]);
            session.View() == Remove(Replay(joined, meanwhile), stream).0
    ensures !HasStream(session.View(), stream) && (meanwhile == [] ==> session.paths == old(session.paths))
    ensures net.closed == old(net.closed) + [stream]
  {
    hide FramesHandled, Replay, Remove, OnServer, NeverJoins;
    ghost var before := session.View();
    session.AddPath(id, stream);
    ghost var joined := session.View();
    end, more := ReceiveFrames(reader, sink, counters, policy, Receiving(false, cancelled));
    session.Meanwhile(meanwhile);
    JoinThenLeave(before, Path(id, stream));
    LeavesForGood(joined, meanwhile, stream);
    session.RemovePath(stream);
    net.Close(stream);
  }

  /** Nobody else brings this stream in. */
  predicate NeverJoins(ops: seq<Op>, stream: StreamId) {
    forall i | 0 <= i < |ops| && (ops[i].OpAppend? || ops[i].OpAdd?) :: ops[i].path.stream != stream
  }

  ghost predicate AtMostOneOn(s: Paths, stream: StreamId) {
    forall i, j | 0 <= i < |s.paths| && 0 <= j < |s.paths| ::
      s.paths[i].stream == stream == s.paths[j].stream ==> i == j
  }

  lemma LeavesForGood(s: Paths, ops: seq<Op>, stream: StreamId)
    requires AtMostOneOn(s, stream) && OnServer(ops) && NeverJoins(ops, stream)
    ensures !HasStream(Remove(Replay(s, ops), stream).0, stream)
    ensures ops == [] ==> Replay(s, ops) == s
  {
    hide Replay, Remove, OnServer, NeverJoins;
    StaysSingle(s, ops, stream);
    NoneAfterRemoval(Replay(s, ops), stream);
    ReplayNone(s);
  }

  lemma {:induction false} StaysSingle(s: Paths, ops: seq<Op>, stream: StreamId)
    requires AtMostOneOn(s, stream) && OnServer(ops) && NeverJoins(ops, stream)
    ensures AtMostOneOn(Replay(s, ops), stream)
  {
    hide Apply, AtMostOneOn;
    if ops != [] {
      StaysSingle(s, ops[..|ops| - 1], stream);
      SingleStep(Replay(s, ops[..|ops| - 1]), ops[|ops| - 1], stream);
    }
  }

  lemma SingleStep(s: Paths, op: Op, stream: StreamId)
    requires AtMostOneOn(s, stream) && (op.OpRemove? || op.OpPick? || (op.OpAppend? && op.path.stream != stream))
    ensures AtMostOneOn(Apply(s, op), stream)
  {
    hide Scan;
    if op.OpRemove? {
      RemovedPositions(s, op.stream);
    }
  }

  lemma NoneAfterRemoval(s: Paths, stream: StreamId)
    requires AtMostOneOn(s, stream)
    ensures !HasStream(Remove(s, stream).0, stream)
  {
    hide Remove;
    RemovedPositions(s, stream);
    RemoveFinds(s, stream);
  }

  lemma JoinThenLeave(s: Paths, p: Path)
    requires !HasStream(s, p.stream)
    ensures Remove(s.(paths := s.paths + [p]), p.stream).0.paths == s.paths
  {
    var i := StreamIndex(s.paths + [p], p.stream);
    assert (s.paths + [p])[|s.paths|] == p;
    assert i == |s.paths|;
  }
}
