/** What the far device gets: in every reachable state each stream's bytes are whole frames of the
    packets committed to it, and the device saw some of those packets, once each. */
module Transfer {
  import opened Bytes
  import opened Framing
  import opened PathSet
  import opened Policy
  import opened Protocol
  import Membership

  function PacketsAt(packets: seq<Payload>, numbers: seq<nat>): (r: seq<Payload>)
    requires forall i | 0 <= i < |numbers| :: numbers[i] < |packets|
    ensures |r| == |numbers| && forall i | 0 <= i < |r| :: r[i] == packets[numbers[i]]
  {
    seq(|numbers|, i requires 0 <= i < |numbers| => packets[numbers[i]])
  }

  /** What the handler of this stream wrote to the far device, in order. */
  function DeliveredBy(device: seq<Delivery>, stream: StreamId): seq<Payload> {
    if device == [] then [] else
    var last := device[|device| - 1];
    DeliveredBy(device[..|device| - 1], stream) + if last.stream == stream then [last.packet] else []
  }

  predicate InHand(sender: Sender) {
    !sender.Idle? && !sender.Sent?
  }

  predicate HoldsPath(sender: Sender) {
    !sender.Idle? && !sender.Routing?
  }

  ghost predicate PacketsOk(s: State) {
    && ValidPayloads(s.packets)
    && (!s.sender.Idle? ==> s.packets != [])
  }

  /** Packets are committed in order, to one stream each; the packet in hand to none yet. */
  ghost predicate CommitOk(s: State, i: nat)
    requires i < |s.streams|
  {
    var numbers := s.streams[i].committed;
    && (forall a | 0 <= a < |numbers| ::
          numbers[a] < |s.packets| && numbers[a] in s.owner && s.owner[numbers[a]] == i)
    && (forall a, b | 0 <= a < b < |numbers| :: numbers[a] < numbers[b])
  }

  ghost predicate OwnerOk(s: State) {
    forall k | k in s.owner :: k < |s.packets| - (if InHand(s.sender) then 1 else 0)
  }

  ghost predicate TornOk(s: State, i: nat)
    requires i < |s.streams|
  {
    var torn := s.streams[i].torn;
    torn.Some? ==>
      && torn.value.packet < |s.packets|
      && torn.value.taken < HEADER_SIZE + |s.packets[torn.value.packet]|
      && !((s.sender.Writing? || s.sender.HalfWritten?) && s.sender.path.stream == i)
      && (HasStream(s.active, i) ==> (s.sender.Failed? || s.sender.Marked?) && s.sender.path.stream == i)
  }

  /** The incomplete frame at the end of a stream's bytes. */
  ghost function Tail(s: State, i: nat): seq<byte>
    requires PacketsOk(s) && i < |s.streams| && TornOk(s, i)
  {
    var torn := s.streams[i].torn;
    if torn.Some? then EncodeFrame(s.packets[torn.value.packet])[..torn.value.taken]
    else if s.sender.HalfWritten? && s.sender.path.stream == i then EncodeFrame(Current(s))[..HEADER_SIZE]
    else []
  }

  ghost predicate LogOk(s: State, i: nat)
    requires PacketsOk(s) && i < |s.streams| && TornOk(s, i) && CommitOk(s, i)
  {
    s.streams[i].log == EncodeAll(PacketsAt(s.packets, s.streams[i].committed)) + Tail(s, i)
  }

  /** The handler at the far end is at a frame boundary and has passed on what its policy allows. */
  ghost predicate FarOk(c: Config, s: State, i: nat)
    requires PacketsOk(s) && i < |s.streams| && CommitOk(s, i)
  {
    var st := s.streams[i];
    && st.consumed <= st.arrived <= |st.log|
    && st.frames <= |st.committed|
    && var done := PacketsAt(s.packets, st.committed[..st.frames]);
       && st.consumed == |EncodeAll(done)|
       && DeliveredBy(s.device, i) == Allowed(c.receivePolicy, done)
  }

  ghost predicate StreamOk(c: Config, s: State, i: nat)
    requires PacketsOk(s) && i < |s.streams|
  {
    CommitOk(s, i) && TornOk(s, i) && LogOk(s, i) && FarOk(c, s, i)
  }

  ghost predicate StreamsOk(c: Config, s: State)
    requires PacketsOk(s)
  {
    forall i | 0 <= i < |s.streams| :: StreamOk(c, s, i)
  }

  /** Everything on the far device is a frame some handler dealt with, and no frame is there twice. */
  ghost predicate DeviceOk(s: State) {
    && (forall a | 0 <= a < |s.device| ::
          var d := s.device[a];
          && Known(s, d.stream)
          && d.frame < s.streams[d.stream].frames <= |s.streams[d.stream].committed|
          && s.streams[d.stream].committed[d.frame] < |s.packets|
          && d.packet == s.packets[s.streams[d.stream].committed[d.frame]])
    && (forall a, b | 0 <= a < b < |s.device| ::
          s.device[a].stream != s.device[b].stream || s.device[a].frame != s.device[b].frame)
  }

  /** The sender only holds paths that were in the set; a stream still waiting to join was never written to. */
  ghost predicate JoinedOk(s: State) {
    && (HoldsPath(s.sender) ==>
          && Known(s, s.sender.path.stream)
          && (HasStream(s.active, s.sender.path.stream) || s.streams[s.sender.path.stream].removals > 0))
    && (forall id | id in s.reconnect && s.reconnect[id].Dialed? ::
          Known(s, s.reconnect[id].stream) && s.streams[s.reconnect[id].stream].torn.None?)
  }

  /** Every packet read is sent, dropped or in hand; sent is the same as committed. */
  ghost predicate CountsOk(s: State) {
    && |s.packets| == s.tx + s.drops + (if s.sender.Idle? then 0 else 1)
    && |s.owner| == s.tx + (if s.sender.Sent? then 1 else 0)
  }

  ghost predicate Inv(c: Config, s: State) {
    && PacketsOk(s)
    && OwnerOk(s)
    && StreamsOk(c, s)
    && DeviceOk(s)
    && JoinedOk(s)
    && CountsOk(s)
  }

  // ---- Bytes: whole frames, then at most one incomplete one ----

  /** Bytes that begin with a frame decode exactly if it is complete, and then to that frame. */
  lemma PrefixDecodes(s: seq<byte>, payload: Payload, more: seq<byte>)
    requires ValidPayload(payload) && s <= EncodeFrame(payload) + more
    ensures DecodeFrame(s, Finished).Frame? <==> |s| >= HEADER_SIZE + |payload|
    ensures DecodeFrame(s, Finished).Frame? ==>
              && DecodeFrame(s, Finished).payload == payload
              && |s| - |DecodeFrame(s, Finished).rest| == HEADER_SIZE + |payload|
  {
    hide EncodeFrame, DecodeFrame;
    var frame, n := EncodeFrame(payload), HEADER_SIZE + |payload|;
    if |s| < n {
      assert s == frame[..|s|];
      TornFrame(payload, |s|, Finished);
    } else {
      assert s[..n] == frame;
      assert s == frame + s[n..];
      DecodeEncoded(payload, s[n..], Finished);
    }
  }

  /** Part of an incomplete frame never decodes. */
  lemma PartDoesNotDecode(s: seq<byte>, payload: Payload, k: nat)
    requires ValidPayload(payload) && k < HEADER_SIZE + |payload| && s <= EncodeFrame(payload)[..k]
    ensures DecodeFrame(s, Finished).Bad?
  {
    assert s == EncodeFrame(payload)[..|s|];
    TornFrame(payload, |s|, Finished);
  }

  lemma PacketsGrow(packets: seq<Payload>, more: seq<Payload>, numbers: seq<nat>)
    requires packets <= more && forall i | 0 <= i < |numbers| :: numbers[i] < |packets|
    ensures PacketsAt(more, numbers) == PacketsAt(packets, numbers)
  {
  }

  lemma PacketsSplit(packets: seq<Payload>, numbers: seq<nat>, k: nat)
    requires k <= |numbers| && ValidPayloads(packets)
    requires forall i | 0 <= i < |numbers| :: numbers[i] < |packets|
    ensures var head, rest := PacketsAt(packets, numbers[..k]), PacketsAt(packets, numbers[k..]);
            && PacketsAt(packets, numbers) == head + rest
            && EncodeAll(PacketsAt(packets, numbers)) == EncodeAll(head) + EncodeAll(rest)
  {
    hide EncodeAll;
    var head, rest := PacketsAt(packets, numbers[..k]), PacketsAt(packets, numbers[k..]);
    assert PacketsAt(packets, numbers) == head + rest;
    EncodeAllSplit(head, rest);
  }

  /** A handler can decode a frame exactly if the next committed packet arrived completely, and then it
      is that packet. */
  lemma HandlerSeesCommitted(c: Config, s: State, i: nat)
    requires PacketsOk(s) && i < |s.streams| && StreamOk(c, s, i)
    ensures var st := s.streams[i];
            NextFrame(st).Frame?
            <==> st.frames < |st.committed|
                 && st.consumed + HEADER_SIZE + |s.packets[st.committed[st.frames]]| <= st.arrived
    ensures var st := s.streams[i];
            NextFrame(st).Frame? ==>
              && NextFrame(st).payload == s.packets[st.committed[st.frames]]
              && st.arrived - |NextFrame(st).rest| == st.consumed + HEADER_SIZE + |s.packets[st.committed[st.frames]]|
  {
    hide EncodeAll, EncodeFrame, DecodeFrame, Tail, Allowed, DeliveredBy, HasStream;
    var st := s.streams[i];
    PacketsSplit(s.packets, st.committed, st.frames);
    var rest := PacketsAt(s.packets, st.committed[st.frames..]);
    var done := EncodeAll(PacketsAt(s.packets, st.committed[..st.frames]));
    var seen := st.log[st.consumed..st.arrived];
    CutAhead(done, EncodeAll(rest), Tail(s, i), st.arrived);
    if st.frames == |st.committed| {
      NoFramesLeft(s, i, seen, rest);
    } else {
      FirstDecodes(seen, rest, Tail(s, i));
    }
  }

  lemma FirstDecodes(seen: seq<byte>, rest: seq<Payload>, tail: seq<byte>)
    requires rest != [] && ValidPayloads(rest) && seen <= EncodeAll(rest) + tail
    ensures DecodeFrame(seen, Finished).Frame? <==> |seen| >= HEADER_SIZE + |rest[0]|
    ensures DecodeFrame(seen, Finished).Frame? ==>
              && DecodeFrame(seen, Finished).payload == rest[0]
              && |seen| - |DecodeFrame(seen, Finished).rest| == HEADER_SIZE + |rest[0]|
  {
    hide EncodeAll, EncodeFrame, DecodeFrame;
    FirstFrame(rest, tail);
    PrefixDecodes(seen, rest[0], EncodeAll(rest[1..]) + tail);
  }

  /** When everything arrived and there is nothing left to decode, the handler has dealt with every
      packet committed to its stream. */
  lemma NothingLeftBehind(c: Config, s: State, i: nat)
    requires PacketsOk(s) && i < |s.streams| && StreamOk(c, s, i)
    requires s.streams[i].arrived == |s.streams[i].log| && NextFrame(s.streams[i]).Bad?
    ensures s.streams[i].frames == |s.streams[i].committed|
  {
    hide EncodeAll, EncodeFrame, DecodeFrame, Tail;
    var st := s.streams[i];
    HandlerSeesCommitted(c, s, i);
    if st.frames < |st.committed| {
      PacketsSplit(s.packets, st.committed, st.frames);
      var rest := PacketsAt(s.packets, st.committed[st.frames..]);
      FirstFrame(rest, []);
    }
  }

  lemma CutAhead(done: seq<byte>, rest: seq<byte>, tail: seq<byte>, to: nat)
    requires |done| <= to <= |(done + rest) + tail|
    ensures ((done + rest) + tail)[|done|..to] <= rest + tail
  {
    assert ((done + rest) + tail)[|done|..] == rest + tail;
  }

  lemma FirstFrame(payloads: seq<Payload>, tail: seq<byte>)
    requires payloads != [] && ValidPayloads(payloads)
    ensures EncodeAll(payloads) + tail == EncodeFrame(payloads[0]) + (EncodeAll(payloads[1..]) + tail)
  {
  }

  lemma NoFramesLeft(s: State, i: nat, seen: seq<byte>, rest: seq<Payload>)
    requires PacketsOk(s) && i < |s.streams| && TornOk(s, i)
    requires rest == [] && seen <= EncodeAll(rest) + Tail(s, i)
    ensures DecodeFrame(seen, Finished).Bad?
  {
    var torn := s.streams[i].torn;
    assert EncodeAll(rest) + Tail(s, i) == Tail(s, i);
    if torn.Some? {
      PartDoesNotDecode(seen, s.packets[torn.value.packet], torn.value.taken);
    } else if Tail(s, i) != [] {
      PartDoesNotDecode(seen, Current(s), HEADER_SIZE);
    } else {
      NothingLeft(Finished);
    }
  }

  // ---- Streams a step does not touch ----

  lemma StreamFrame(c: Config, s: State, t: State, i: nat)
    requires PacketsOk(s) && PacketsOk(t) && i < |s.streams| && i < |t.streams| && StreamOk(c, s, i)
    requires t.streams[i] == s.streams[i] && s.packets <= t.packets
    requires forall k | k in s.owner :: k in t.owner && t.owner[k] == s.owner[k]
    requires s.streams[i].torn.None? ==>
               (s.sender.HalfWritten? && s.sender.path.stream == i
                <==> t.sender.HalfWritten? && t.sender.path.stream == i)
    requires t.sender.HalfWritten? && t.sender.path.stream == i ==> t.packets == s.packets
    requires TornOk(t, i)
    requires DeliveredBy(t.device, i) == DeliveredBy(s.device, i)
    ensures StreamOk(c, t, i)
  {
    hide EncodeAll, EncodeFrame, Allowed, DeliveredBy, HasStream;
    var st := s.streams[i];
    PacketsGrow(s.packets, t.packets, st.committed);
    PacketsGrow(s.packets, t.packets, st.committed[..st.frames]);
    assert Tail(t, i) == Tail(s, i);
  }

  lemma DeviceFrame(c: Config, s: State, t: State)
    requires DeviceOk(s) && t.device == s.device && s.packets <= t.packets && |s.streams| <= |t.streams|
    requires PacketsOk(t) && StreamsOk(c, t)
    requires forall i | 0 <= i < |s.streams| ::
               s.streams[i].committed <= t.streams[i].committed && s.streams[i].frames <= t.streams[i].frames
    ensures DeviceOk(t)
  {
    hide EncodeAll, Allowed, DeliveredBy, HasStream, TornOk;
    forall a | 0 <= a < |t.device|
      ensures var d := t.device[a];
              && Known(t, d.stream)
              && d.frame < t.streams[d.stream].frames <= |t.streams[d.stream].committed|
              && t.streams[d.stream].committed[d.frame] < |t.packets|
              && d.packet == t.packets[t.streams[d.stream].committed[d.frame]]
    {
      assert StreamOk(c, t, t.device[a].stream);
    }
  }

  // ---- Every step keeps the invariant ----

  lemma ReadKeeps(c: Config, s: State, packet: Payload)
    requires Inv(c, s) && Enabled(c, s, Read(packet))
    ensures Inv(c, DoRead(c, s, packet))
  {
    hide Allow, HasStream, EncodeAll, Allowed, DeliveredBy, StreamOk, DeviceOk;
    var t := DoRead(c, s, packet);
    assert StreamsOk(c, s);
    forall i | 0 <= i < |t.streams| ensures StreamOk(c, t, i) {
      ReadStream(c, s, packet, i);
    }
    DeviceFrame(c, s, t);
  }

  lemma ReadStream(c: Config, s: State, packet: Payload, i: nat)
    requires PacketsOk(s) && i < |s.streams| && StreamOk(c, s, i) && Enabled(c, s, Read(packet))
    ensures PacketsOk(DoRead(c, s, packet)) && StreamOk(c, DoRead(c, s, packet), i)
  {
    hide Allow, HasStream, EncodeAll, Allowed, DeliveredBy;
    StreamFrame(c, s, DoRead(c, s, packet), i);
  }

  lemma PickKeeps(c: Config, s: State, now: int)
    requires Inv(c, s) && Membership.Inv(c, s) && Enabled(c, s, Pick(now))
    ensures Inv(c, DoPick(s, now))
  {
    hide PickIndex, EncodeAll, Allowed, DeliveredBy, StreamOk, DeviceOk;
    var t := DoPick(s, now);
    if s.active.paths != [] {
      var index := PickIndex(s.active, now);
      assert s.active.paths[index] == t.sender.path;
      assert HasStream(s.active, t.sender.path.stream);
    }
    assert StreamsOk(c, s);
    forall i | 0 <= i < |t.streams| ensures StreamOk(c, t, i) {
      PickStream(c, s, now, i);
    }
    DeviceFrame(c, s, t);
  }

  lemma PickStream(c: Config, s: State, now: int, i: nat)
    requires PacketsOk(s) && i < |s.streams| && StreamOk(c, s, i) && Enabled(c, s, Pick(now))
    ensures PacketsOk(DoPick(s, now)) && StreamOk(c, DoPick(s, now), i)
  {
    hide PickIndex, EncodeAll, Allowed, DeliveredBy;
    var t := DoPick(s, now);
    if s.active.paths != [] {
      assert s.active.paths[PickIndex(s.active, now)] == t.sender.path;
      assert HasStream(s.active, t.sender.path.stream);
    }
    assert HasStream(s.active, i) == HasStream(t.active, i);
    StreamFrame(c, s, t, i);
  }

  /** A stream that took part of the frame in hand, with nothing incomplete on it before. */
  lemma Appended(c: Config, s: State, t: State, i: nat, taken: nat, bytes: seq<byte>)
    requires PacketsOk(s) && PacketsOk(t) && i < |s.streams| == |t.streams| && StreamOk(c, s, i)
    requires s.packets == t.packets != [] && s.owner == t.owner && s.device == t.device && TornOk(t, i)
    requires t.streams[i] == s.streams[i].(log := s.streams[i].log + bytes, torn := t.streams[i].torn)
    requires taken <= HEADER_SIZE + |Current(s)|
    requires Tail(s, i) + bytes == EncodeFrame(Current(s))[..taken] == Tail(t, i)
    ensures StreamOk(c, t, i)
  {
    hide EncodeAll, EncodeFrame, Allowed, DeliveredBy, HasStream;
    var whole := EncodeAll(PacketsAt(s.packets, s.streams[i].committed));
    assert (whole + Tail(s, i)) + bytes == whole + (Tail(s, i) + bytes);
  }

  /** A write on the sender's stream concerns that stream alone. */
  lemma OthersKeep(c: Config, s: State, t: State, stream: StreamId)
    requires Inv(c, s) && (s.sender.Writing? || s.sender.HalfWritten?) && s.sender.path.stream == stream
    requires t.packets == s.packets && t.device == s.device && t.active == s.active
    requires t.sender.HalfWritten? || t.sender.Failed? || t.sender.Sent?
    requires t.sender.path == s.sender.path
    requires Known(s, stream) && |t.streams| == |s.streams| && t.streams == s.streams[stream := t.streams[stream]]
    requires forall k | k in s.owner :: k in t.owner && t.owner[k] == s.owner[k]
    requires s.streams[stream].committed <= t.streams[stream].committed
    requires s.streams[stream].frames == t.streams[stream].frames
    requires StreamOk(c, t, stream)
    ensures StreamsOk(c, t) && DeviceOk(t)
  {
    hide EncodeAll, Allowed, DeliveredBy, HasStream;
    forall i | 0 <= i < |t.streams| ensures StreamOk(c, t, i) {
      assert StreamOk(c, s, i);
      if i != stream {
        StreamFrame(c, s, t, i);
      }
    }
    DeviceFrame(c, s, t);
  }

  lemma FrameParts(payload: Payload, taken: nat)
    requires ValidPayload(payload)
    ensures EncodeFrame(payload)[..HEADER_SIZE] == PutUint32(|payload|)
    ensures taken <= HEADER_SIZE ==> EncodeFrame(payload)[..taken] == PutUint32(|payload|)[..taken]
    ensures taken <= |payload| ==>
              EncodeFrame(payload)[..HEADER_SIZE] + payload[..taken] == EncodeFrame(payload)[..HEADER_SIZE + taken]
    ensures EncodeFrame(payload)[..HEADER_SIZE] + payload == EncodeFrame(payload)
  {
    hide Uint32, PutUint32;
  }

  lemma HeaderWritten(c: Config, s: State, ok: bool, taken: nat)
    requires PacketsOk(s) && Enabled(c, s, WriteHeader(ok, taken)) && StreamOk(c, s, s.sender.path.stream)
    ensures var t := DoWriteHeader(s, ok, taken);
            PacketsOk(t) && StreamOk(c, t, s.sender.path.stream)
  {
    hide Uint32, PutUint32, EncodeFrame, EncodeAll, LogOk, FarOk, CommitOk, HasStream, TornOk, Tail;
    var t, stream := DoWriteHeader(s, ok, taken), s.sender.path.stream;
    var header := PutUint32(|Current(s)|);
    FrameParts(Current(s), taken);
    var n, bytes := if ok then HEADER_SIZE else taken, if ok then header else header[..taken];
    HeaderTail(c, s, ok, taken);
    assert [] + bytes == bytes;
    Appended(c, s, t, stream, n, bytes);
  }

  /** Before its header a stream has nothing incomplete; after it, what was accepted of it. */
  lemma HeaderTail(c: Config, s: State, ok: bool, taken: nat)
    requires PacketsOk(s) && Enabled(c, s, WriteHeader(ok, taken)) && TornOk(s, s.sender.path.stream)
    ensures var t, stream := DoWriteHeader(s, ok, taken), s.sender.path.stream;
            && PacketsOk(t) && TornOk(t, stream) && Tail(s, stream) == []
            && Tail(t, stream) == EncodeFrame(Current(s))[..if ok then HEADER_SIZE else taken]
  {
    hide Uint32, PutUint32, EncodeFrame, HasStream;
  }

  /** A stream that is dialled but not yet in the set is not the one the sender is writing to. */
  lemma WaitingUntouched(c: Config, s: State)
    requires Membership.Inv(c, s) && JoinedOk(s) && HoldsPath(s.sender)
    ensures forall id | id in s.reconnect && s.reconnect[id].Dialed? :: s.reconnect[id].stream != s.sender.path.stream
  {
    forall id | id in s.reconnect && s.reconnect[id].Dialed? ensures s.reconnect[id].stream != s.sender.path.stream {
      assert Membership.LoopOk(s, id, s.reconnect[id]);
    }
  }

  lemma WriteHeaderKeeps(c: Config, s: State, ok: bool, taken: nat)
    requires Inv(c, s) && Membership.Inv(c, s) && Enabled(c, s, WriteHeader(ok, taken))
    ensures Inv(c, DoWriteHeader(s, ok, taken))
  {
    hide Uint32, PutUint32, EncodeAll, Allowed, DeliveredBy, HasStream, StreamOk, DeviceOk, Membership.Inv;
    WaitingUntouched(c, s);
    HeaderWritten(c, s, ok, taken);
    OthersKeep(c, s, DoWriteHeader(s, ok, taken), s.sender.path.stream);
  }

  lemma PayloadTorn(c: Config, s: State, taken: nat)
    requires PacketsOk(s) && Enabled(c, s, WritePayload(false, taken)) && StreamOk(c, s, s.sender.path.stream)
    ensures var t := DoWritePayload(s, false, taken);
            PacketsOk(t) && StreamOk(c, t, s.sender.path.stream)
  {
    hide Uint32, PutUint32, EncodeFrame, EncodeAll, Allowed, DeliveredBy, HasStream;
    var t, stream := DoWritePayload(s, false, taken), s.sender.path.stream;
    FrameParts(Current(s), taken);
    assert TornOk(t, stream);
    Appended(c, s, t, stream, HEADER_SIZE + taken, Current(s)[..taken]);
  }

  lemma PayloadFails(c: Config, s: State, taken: nat)
    requires Inv(c, s) && Membership.Inv(c, s) && Enabled(c, s, WritePayload(false, taken))
    ensures Inv(c, DoWritePayload(s, false, taken))
  {
    hide EncodeAll, Allowed, DeliveredBy, HasStream, StreamOk, DeviceOk, Membership.Inv;
    WaitingUntouched(c, s);
    PayloadTorn(c, s, taken);
    OthersKeep(c, s, DoWritePayload(s, false, taken), s.sender.path.stream);
  }

  /** Completing a half-written frame leaves whole frames only. */
  lemma CommittedBytes(packets: seq<Payload>, numbers: seq<nat>, k: nat, log: seq<byte>)
    requires ValidPayloads(packets) && k < |packets|
    requires forall i | 0 <= i < |numbers| :: numbers[i] < |packets|
    requires log == EncodeAll(PacketsAt(packets, numbers)) + EncodeFrame(packets[k])[..HEADER_SIZE]
    ensures log + packets[k] == EncodeAll(PacketsAt(packets, numbers + [k])) + []
  {
    hide EncodeAll, EncodeFrame;
    var before := PacketsAt(packets, numbers);
    assert PacketsAt(packets, numbers + [k]) == before + [packets[k]];
    EncodeAllAppend(before, packets[k]);
    FrameParts(packets[k], 0);
    Regroup(EncodeAll(before), EncodeFrame(packets[k])[..HEADER_SIZE], packets[k]);
  }

  lemma Regroup(a: seq<byte>, b: seq<byte>, c: seq<byte>)
    ensures (a + b) + c == (a + (b + c)) + []
  {
  }

  lemma Committed(c: Config, s: State, taken: nat)
    requires PacketsOk(s) && OwnerOk(s) && Enabled(c, s, WritePayload(true, taken))
    requires StreamOk(c, s, s.sender.path.stream)
    ensures var t := DoWritePayload(s, true, taken);
            PacketsOk(t) && StreamOk(c, t, s.sender.path.stream)
  {
    hide Uint32, PutUint32, EncodeFrame, EncodeAll, Allowed, DeliveredBy, HasStream;
    var t, stream, k := DoWritePayload(s, true, taken), s.sender.path.stream, |s.packets| - 1;
    var before := s.streams[stream].committed;
    assert t.streams[stream].committed == before + [k];
    CommittedBytes(s.packets, before, k, s.streams[stream].log);
    assert CommitOk(t, stream);
    assert (before + [k])[..s.streams[stream].frames] == before[..s.streams[stream].frames];
    assert TornOk(t, stream) && Tail(t, stream) == [];
  }

  lemma PayloadCounts(s: State, taken: nat)
    requires s.packets != [] && OwnerOk(s) && CountsOk(s)
    requires s.sender.HalfWritten? && Known(s, s.sender.path.stream) && taken < |Current(s)|
    ensures OwnerOk(DoWritePayload(s, true, taken)) && CountsOk(DoWritePayload(s, true, taken))
    ensures forall k | k in s.owner :: DoWritePayload(s, true, taken).owner[k] == s.owner[k]
  {
    var k := |s.packets| - 1;
    assert k !in s.owner;
    assert s.owner[k := s.sender.path.stream].Keys == s.owner.Keys + {k};
  }

  lemma PayloadSucceeds(c: Config, s: State, taken: nat)
    requires Inv(c, s) && Membership.Inv(c, s) && Enabled(c, s, WritePayload(true, taken))
    ensures Inv(c, DoWritePayload(s, true, taken))
  {
    hide EncodeAll, Allowed, DeliveredBy, HasStream, StreamOk, DeviceOk, OwnerOk, CountsOk, Membership.Inv;
    var t := DoWritePayload(s, true, taken);
    assert StreamsOk(c, s);
    assert StreamOk(c, s, s.sender.path.stream);
    WaitingUntouched(c, s);
    Committed(c, s, taken);
    PayloadCounts(s, taken);
    OthersKeep(c, s, t, s.sender.path.stream);
  }

  lemma RecordKeeps(c: Config, s: State, step: Step)
    requires Inv(c, s) && Enabled(c, s, step) && (step.RecordFailure? || step.RecordSuccess?)
    ensures Inv(c, Do(c, s, step))
  {
    hide Cooldown, EncodeAll, Allowed, DeliveredBy, HasStream;
    var t := Do(c, s, step);
    assert t.active.paths == s.active.paths;
    Membership.SameStreams(s.active, t.active);
    forall i | 0 <= i < |t.streams| ensures StreamOk(c, t, i) {
      assert StreamOk(c, s, i);
      StreamFrame(c, s, t, i);
    }
    DeviceFrame(c, s, t);
  }

  /** Taking a stream out of the set changes no byte and no commitment. */
  lemma EvictKeeps(c: Config, s: State, stream: StreamId, t: State)
    requires Inv(c, s) && Membership.Inv(c, s) && Known(s, stream) && t == Evict(s, stream, c.role.Client?)
    ensures Inv(c, t) && !HasStream(t.active, stream)
  {
    hide EncodeAll, Allowed, DeliveredBy, HasStream, Evict, StreamOk, DeviceOk;
    Membership.EvictEffect(s, stream, c.role.Client?);
    Membership.EvictKeeps(c, s, stream, t);
    hide Membership.Inv;
    assert StreamsOk(c, s);
    forall i | 0 <= i < |t.streams| ensures StreamOk(c, t, i) {
      assert Membership.InSet(t, i) <= Membership.InSet(s, i);
      SameBytes(c, s, t, i);
    }
    DeviceFrame(c, s, t);
    if HoldsPath(s.sender) {
      assert Membership.InSet(t, s.sender.path.stream) == Membership.InSet(s, s.sender.path.stream)
             || s.sender.path.stream == stream;
    }
  }

  lemma SameBytes(c: Config, s: State, t: State, i: nat)
    requires PacketsOk(s) && PacketsOk(t) && i < |s.streams| == |t.streams| && StreamOk(c, s, i)
    requires t.packets == s.packets && t.owner == s.owner && t.sender == s.sender
    requires DeliveredBy(t.device, i) == DeliveredBy(s.device, i)
    requires var st := s.streams[i];
             t.streams[i] == st.(removals := t.streams[i].removals, closes := t.streams[i].closes,
                                 receiver := t.streams[i].receiver, serving := t.streams[i].serving)
    requires HasStream(t.active, i) ==> HasStream(s.active, i)
    ensures StreamOk(c, t, i)
  {
    hide EncodeAll, EncodeFrame, Allowed, DeliveredBy, HasStream;
    assert Tail(t, i) == Tail(s, i);
  }

  /** Once its stream is out of the set the sender may let go of it. */
  lemma LetGo(c: Config, t: State, u: State, i: nat)
    requires PacketsOk(t) && i < |t.streams| && StreamOk(c, t, i) && PacketsOk(u)
    requires (t.sender.Marked? || t.sender.Failed?) && !HasStream(t.active, t.sender.path.stream)
    requires u == t.(sender := u.sender, drops := u.drops) && (u.sender.Idle? || u.sender.Routing?)
    ensures StreamOk(c, u, i)
  {
    hide EncodeAll, EncodeFrame, Allowed, DeliveredBy, HasStream;
    assert TornOk(u, i) && Tail(u, i) == Tail(t, i);
  }

  lemma RemoveFailedKeeps(c: Config, s: State)
    requires Inv(c, s) && Membership.Inv(c, s) && Enabled(c, s, RemoveFailed)
    ensures Inv(c, DoRemoveFailed(c, s))
  {
    hide EncodeAll, Allowed, DeliveredBy, HasStream, Evict, StreamOk, DeviceOk;
    var t, u := Evict(s, s.sender.path.stream, c.role.Client?), DoRemoveFailed(c, s);
    EvictKeeps(c, s, s.sender.path.stream, t);
    Membership.EvictEffect(s, s.sender.path.stream, c.role.Client?);
    assert StreamsOk(c, t);
    forall i | 0 <= i < |u.streams| ensures StreamOk(c, u, i) {
      LetGo(c, t, u, i);
    }
    DeviceFrame(c, t, u);
  }

  lemma OwnershipKeeps(c: Config, s: State, t: State)
    requires Inv(c, s)
    requires t == s.(streams := t.streams, reconnect := t.reconnect) && |t.streams| == |s.streams|
    requires forall i | 0 <= i < |s.streams| ::
               t.streams[i] == s.streams[i].(closes := t.streams[i].closes, receiver := t.streams[i].receiver,
                                             serving := t.streams[i].serving)
    requires forall id | id in t.reconnect && t.reconnect[id].Dialed? ::
               id in s.reconnect && t.reconnect[id] == s.reconnect[id]
    ensures Inv(c, t)
  {
    hide EncodeAll, Allowed, DeliveredBy, HasStream, StreamOk, DeviceOk;
    assert StreamsOk(c, s);
    forall i | 0 <= i < |t.streams| ensures StreamOk(c, t, i) {
      SameBytes(c, s, t, i);
    }
    DeviceFrame(c, s, t);
  }

  lemma StopReceiverKeeps(c: Config, s: State, stream: StreamId)
    requires Inv(c, s) && Membership.Inv(c, s) && Enabled(c, s, StopReceiver(stream))
    ensures Inv(c, DoStopReceiver(c, s, stream))
  {
    hide Evict, EncodeAll, Allowed, DeliveredBy, HasStream;
    var t := Put(s, stream, s.streams[stream].(receiver := Stopped,
                   closes := if c.role.Client? then s.streams[stream].closes else 1));
    OwnershipKeeps(c, s, t);
    Membership.StopReceiverIsEvict(c, s, stream);
    Membership.StoppedKeeps(c, s, stream);
    EvictKeeps(c, t, stream, Evict(t, stream, c.role.Client?));
  }

  /** A fresh stream: nothing written, nothing committed, nothing delivered. */
  lemma FreshStreamOk(c: Config, s: State, t: State, i: nat)
    requires DeviceOk(s) && t.device == s.device && i == |s.streams|
    requires PacketsOk(t) && i < |t.streams|
    requires t.streams[i].log == [] && t.streams[i].committed == [] && t.streams[i].torn == None
    requires t.streams[i].arrived == t.streams[i].consumed == t.streams[i].frames == 0
    requires !(t.sender.HalfWritten? && t.sender.path.stream == i)
    ensures StreamOk(c, t, i)
  {
    NothingDelivered(t.device, i);
    assert PacketsAt(t.packets, []) == [];
  }

  lemma {:induction false} NothingDelivered(device: seq<Delivery>, stream: StreamId)
    requires forall a | 0 <= a < |device| :: device[a].stream != stream
    ensures DeliveredBy(device, stream) == []
  {
    if device != [] {
      NothingDelivered(device[..|device| - 1], stream);
    }
  }

  /** Opening a stream and, on the server, putting it into the set. */
  lemma OpenStreams(c: Config, s: State, t: State)
    requires Inv(c, s) && |t.streams| == |s.streams| + 1 && t.streams[..|s.streams|] == s.streams
    requires t.packets == s.packets && t.owner == s.owner && t.device == s.device && t.sender == s.sender
    requires exists id, receiver :: t.streams[|s.streams|] == NewStream(id, receiver)
    requires t.active.paths == s.active.paths
             || (exists id :: t.active.paths == s.active.paths + [Path(id, |s.streams|)])
    ensures StreamsOk(c, t) && DeviceOk(t)
    ensures forall i | 0 <= i < |s.streams| :: HasStream(t.active, i) == HasStream(s.active, i)
  {
    hide EncodeAll, Allowed, DeliveredBy, HasStream;
    var n := |s.streams|;
    assert forall i | 0 <= i < n :: t.streams[i] == s.streams[i];
    forall i | 0 <= i < n ensures HasStream(t.active, i) == HasStream(s.active, i) {
      SameMembers(s, t, i);
    }
    forall i | 0 <= i < |t.streams| ensures StreamOk(c, t, i) {
      if i == n {
        FreshStreamOk(c, s, t, i);
      } else {
        assert StreamOk(c, s, i);
        StreamFrame(c, s, t, i);
      }
    }
    DeviceFrame(c, s, t);
  }

  lemma OpenKeeps(c: Config, s: State, step: Step)
    requires Inv(c, s) && Membership.Inv(c, s) && Enabled(c, s, step) && (step.DialSucceeds? || step.Accept?)
    ensures Inv(c, Do(c, s, step))
  {
    hide EncodeAll, Allowed, DeliveredBy, HasStream, StreamOk, DeviceOk;
    var t := Do(c, s, step);
    assert t.streams[|s.streams|] == NewStream(step.id, if step.Accept? then Running else NotStarted);
    OpenStreams(c, s, t);
  }

  lemma SameMembers(s: State, t: State, i: StreamId)
    requires t.active.paths == s.active.paths
             || (t.active.paths != [] && t.active.paths[..|t.active.paths| - 1] == s.active.paths
                 && t.active.paths[|t.active.paths| - 1].stream != i)
    ensures HasStream(t.active, i) == HasStream(s.active, i)
  {
    if HasStream(s.active, i) {
      var j :| 0 <= j < |s.active.paths| && s.active.paths[j].stream == i;
      assert t.active.paths[j].stream == i;
    }
    if HasStream(t.active, i) {
      var j :| 0 <= j < |t.active.paths| && t.active.paths[j].stream == i;
      assert j < |s.active.paths| && s.active.paths[j].stream == i;
    }
  }

  /** A stream nothing was torn on may join the set. */
  lemma JoinedStream(c: Config, s: State, t: State, i: nat)
    requires PacketsOk(s) && i < |s.streams| && StreamOk(c, s, i) && s.streams[i].torn.None?
    requires t == s.(active := t.active, reconnect := t.reconnect, allowance := t.allowance)
    ensures PacketsOk(t) && StreamOk(c, t, i)
  {
    hide EncodeAll, EncodeFrame, Allowed, DeliveredBy, HasStream;
    assert TornOk(t, i) && Tail(t, i) == Tail(s, i);
  }

  lemma JoinKeeps(c: Config, s: State, id: int)
    requires Inv(c, s) && Membership.Inv(c, s) && Enabled(c, s, Join(id))
    ensures Inv(c, DoJoin(s, id))
  {
    hide EncodeAll, Allowed, DeliveredBy, HasStream, StreamOk, DeviceOk, Add;
    Membership.JoinAppends(c, s, id);
    assert Membership.LoopOk(s, id, s.reconnect[id]);
    WaitingJoins(c, s, id);
    var t, joined := DoJoin(s, id), s.reconnect[id].stream;
    assert StreamsOk(c, s);
    forall i | 0 <= i < |t.streams| ensures StreamOk(c, t, i) {
      if i == joined {
        JoinedStream(c, s, t, i);
      } else {
        SameMembers(s, t, i);
        SameBytes(c, s, t, i);
      }
    }
    DeviceFrame(c, s, t);
    if HoldsPath(s.sender) {
      SameMembers(s, t, s.sender.path.stream);
    }
  }

  lemma WaitingJoins(c: Config, s: State, id: int)
    requires JoinedOk(s) && Membership.Inv(c, s) && id in s.reconnect && s.reconnect[id].Dialed?
    ensures HoldsPath(s.sender) ==> s.sender.path.stream != s.reconnect[id].stream
  {
    assert Membership.LoopOk(s, id, s.reconnect[id]);
  }

  lemma ArrivedStream(c: Config, s: State, stream: StreamId, upTo: nat)
    requires PacketsOk(s) && Enabled(c, s, Arrive(stream, upTo)) && StreamOk(c, s, stream)
    ensures var t := Put(s, stream, s.streams[stream].(arrived := upTo));
            PacketsOk(t) && StreamOk(c, t, stream)
  {
    hide EncodeAll, EncodeFrame, Allowed, DeliveredBy, HasStream;
    var t := Put(s, stream, s.streams[stream].(arrived := upTo));
    assert TornOk(t, stream) && Tail(t, stream) == Tail(s, stream);
  }

  lemma ArriveKeeps(c: Config, s: State, stream: StreamId, upTo: nat)
    requires Inv(c, s) && Enabled(c, s, Arrive(stream, upTo))
    ensures Inv(c, Put(s, stream, s.streams[stream].(arrived := upTo)))
  {
    hide EncodeAll, Allowed, DeliveredBy, HasStream, StreamOk, DeviceOk;
    var t := Put(s, stream, s.streams[stream].(arrived := upTo));
    assert StreamsOk(c, s);
    forall i | 0 <= i < |t.streams| ensures StreamOk(c, t, i) {
      if i == stream {
        ArrivedStream(c, s, stream, upTo);
      } else {
        SameBytes(c, s, t, i);
      }
    }
    DeviceFrame(c, s, t);
  }

  /** The stream whose handler dealt with a frame. */
  lemma HandledStream(c: Config, s: State, stream: StreamId, deviceOk: bool)
    requires PacketsOk(s) && Enabled(c, s, Handle(stream, deviceOk)) && StreamOk(c, s, stream)
    ensures var t := DoHandle(c, s, stream, deviceOk);
            PacketsOk(t) && StreamOk(c, t, stream)
  {
    hide EncodeAll, EncodeFrame, DecodeFrame, Allow, HasStream, Allowed, DeliveredBy;
    var t := DoHandle(c, s, stream, deviceOk);
    HandlerSeesCommitted(c, s, stream);
    HandledFrame(c, s, stream);
    OthersDeliver(s, t, stream);
    assert TornOk(t, stream) && Tail(t, stream) == Tail(s, stream);
    var done := PacketsAt(s.packets, s.streams[stream].committed[..s.streams[stream].frames]);
    assert Allowed(c.receivePolicy, done) + [] == Allowed(c.receivePolicy, done);
  }

  lemma HandledDevice(c: Config, s: State, stream: StreamId, deviceOk: bool)
    requires PacketsOk(s) && DeviceOk(s) && Enabled(c, s, Handle(stream, deviceOk)) && StreamOk(c, s, stream)
    ensures DeviceOk(DoHandle(c, s, stream, deviceOk))
  {
    hide EncodeAll, EncodeFrame, DecodeFrame, Allow, HasStream, Allowed, DeliveredBy, NextFrame;
    hide TornOk, LogOk, DeviceOk;
    HandlerSeesCommitted(c, s, stream);
    hide FarOk;
    var st, t := s.streams[stream], DoHandle(c, s, stream, deviceOk);
    if t.streams[stream].frames == st.frames {
      SameDevice(s, t, stream);
    } else {
      DeviceGrows(s, t, stream, NextFrame(st).payload);
    }
  }

  lemma SameDevice(s: State, t: State, stream: StreamId)
    requires DeviceOk(s) && Known(s, stream) && t.device == s.device && t.packets == s.packets
    requires |t.streams| == |s.streams| && forall i | 0 <= i < |s.streams| ::
               t.streams[i].committed == s.streams[i].committed && t.streams[i].frames == s.streams[i].frames
    ensures DeviceOk(t)
  {
  }

  lemma DeviceGrows(s: State, t: State, stream: StreamId, packet: Payload)
    requires DeviceOk(s) && Known(s, stream) && t.packets == s.packets && |t.streams| == |s.streams|
    requires var st := s.streams[stream];
             && st.frames < |st.committed| && st.committed[st.frames] < |s.packets|
             && packet == s.packets[st.committed[st.frames]]
             && (t.device == s.device || t.device == s.device + [Delivery(stream, st.frames, packet)])
    requires forall i | 0 <= i < |s.streams| ::
               && t.streams[i].committed == s.streams[i].committed
               && t.streams[i].frames == s.streams[i].frames + if i == stream then 1 else 0
    ensures DeviceOk(t)
  {
  }

  lemma HandleKeeps(c: Config, s: State, stream: StreamId, deviceOk: bool)
    requires Inv(c, s) && Enabled(c, s, Handle(stream, deviceOk))
    ensures Inv(c, DoHandle(c, s, stream, deviceOk))
  {
    hide EncodeAll, EncodeFrame, DecodeFrame, Allow, HasStream, Allowed, DeliveredBy, NextFrame, DeviceOk, StreamOk;
    var t := DoHandle(c, s, stream, deviceOk);
    assert StreamsOk(c, s);
    HandledStream(c, s, stream, deviceOk);
    HandledDevice(c, s, stream, deviceOk);
    forall i | 0 <= i < |t.streams| ensures StreamOk(c, t, i) {
      assert StreamOk(c, s, i);
      if i != stream {
        OthersDeliver(s, t, i);
        assert DeliveredBy(s.device, i) + [] == DeliveredBy(s.device, i);
        SameBytes(c, s, t, i);
      }
    }
  }

  /** Dealing with one more frame extends both the bytes consumed and the packets allowed. */
  lemma HandledFrame(c: Config, s: State, i: nat)
    requires PacketsOk(s) && i < |s.streams| && StreamOk(c, s, i) && s.streams[i].frames < |s.streams[i].committed|
    ensures var st := s.streams[i];
            var packet := s.packets[st.committed[st.frames]];
            var done := PacketsAt(s.packets, st.committed[..st.frames]);
            var next := PacketsAt(s.packets, st.committed[..st.frames + 1]);
            && |EncodeAll(next)| == |EncodeAll(done)| + HEADER_SIZE + |packet|
            && Allowed(c.receivePolicy, next)
               == Allowed(c.receivePolicy, done) + (if Allow(c.receivePolicy, packet) then [packet] else [])
  {
    hide Allow;
    var st := s.streams[i];
    var packet := s.packets[st.committed[st.frames]];
    var done := PacketsAt(s.packets, st.committed[..st.frames]);
    var next := PacketsAt(s.packets, st.committed[..st.frames + 1]);
    assert next == done + [packet];
    EncodeAllAppend(done, packet);
    assert next[..|next| - 1] == done;
  }

  lemma OthersDeliver(s: State, t: State, i: StreamId)
    requires t.device == s.device || (t.device != [] && t.device[..|t.device| - 1] == s.device)
    ensures DeliveredBy(t.device, i) == DeliveredBy(s.device, i)
            + (if t.device != s.device && t.device[|t.device| - 1].stream == i
               then [t.device[|t.device| - 1].packet] else [])
  {
    assert DeliveredBy(s.device, i) + [] == DeliveredBy(s.device, i);
  }

  lemma StepKeeps(c: Config, s: State, step: Step)
    requires Inv(c, s) && Membership.Inv(c, s) && Enabled(c, s, step)
    ensures Inv(c, Do(c, s, step))
  {
    hide DoRead, DoPick, DoWriteHeader, DoWritePayload, DoRemoveFailed, DoRecordSuccess, DoJoin, DoStopReceiver;
    hide DoHandle, Put, HasId, HasStream, Inv, Enabled, Membership.Inv;
    match step
    case Read(packet) => ReadKeeps(c, s, packet);
    case Pick(now) => PickKeeps(c, s, now);
    case WriteHeader(ok, taken) => WriteHeaderKeeps(c, s, ok, taken);
    case WritePayload(ok, taken) =>
      if ok {
        PayloadSucceeds(c, s, taken);
      } else {
        PayloadFails(c, s, taken);
      }
    case RecordFailure(_) => RecordKeeps(c, s, step);
    case RecordSuccess => RecordKeeps(c, s, step);
    case RemoveFailed => RemoveFailedKeeps(c, s);
    case StopReceiver(stream) => StopReceiverKeeps(c, s, stream);
    case Join(id) => JoinKeeps(c, s, id);
    case DialSucceeds(_) => OpenKeeps(c, s, step);
    case Accept(_) => OpenKeeps(c, s, step);
    case Arrive(stream, upTo) => ArriveKeeps(c, s, stream, upTo);
    case Handle(stream, deviceOk) => HandleKeeps(c, s, stream, deviceOk);
    case CheckMissing(_) => LifecycleKeeps(c, s, step);
    case DialFails(_) => LifecycleKeeps(c, s, step);
    case StartReceiver(_) => LifecycleKeeps(c, s, step);
    case StopHandler(_) => LifecycleKeeps(c, s, step);
  }

  lemma LifecycleKeeps(c: Config, s: State, step: Step)
    requires Inv(c, s) && Enabled(c, s, step)
    requires step.CheckMissing? || step.DialFails? || step.StartReceiver? || step.StopHandler?
    ensures Inv(c, Do(c, s, step))
  {
    hide HasId, HasStream, Inv;
    OwnershipKeeps(c, s, Do(c, s, step));
  }
}
