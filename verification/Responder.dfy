/** Packet counters (internal/stats/stats.go), as unbounded numbers. */
module Stats {
  datatype Snapshot = Snapshot(
    rxPackets: nat, rxBytes: nat, txPackets: nat, txBytes: nat, drops: nat, errors: nat)

  class Counters {
    var stats: Snapshot

    constructor ()
      ensures stats == Snapshot(0, 0, 0, 0, 0, 0)
    {
      stats := Snapshot(0, 0, 0, 0, 0, 0);
    }

    method AddRX(length: nat)
      modifies this
      ensures stats == old(stats).(rxPackets := old(stats).rxPackets + 1, rxBytes := old(stats).rxBytes + length)
    {
      stats := stats.(rxPackets := stats.rxPackets + 1, rxBytes := stats.rxBytes + length);
    }

    method AddTX(length: nat)
      modifies this
      ensures stats == old(stats).(txPackets := old(stats).txPackets + 1, txBytes := old(stats).txBytes + length)
    {
      stats := stats.(txPackets := stats.txPackets + 1, txBytes := stats.txBytes + length);
    }

    method AddDrop()
      modifies this
      ensures stats == old(stats).(drops := old(stats).drops + 1)
    {
      stats := stats.(drops := stats.drops + 1);
    }

    method AddError()
      modifies this
      ensures stats == old(stats).(errors := old(stats).errors + 1)
    {
      stats := stats.(errors := stats.errors + 1);
    }
  }
}

/** The demo responder's stream loop, handleQUICStream of internal/quictransport/server.go. */
module Responder {
  import opened Bytes
  import opened Echo
  import opened Framing
  import opened Net
  import opened Packets
  import opened Stats

  /** The replies to the answerable ones of these requests, in order. */
  function Replies(requests: seq<Payload>, server: IP, client: IP): seq<Payload> {
    if requests == [] then [] else
    var last := EchoReply(requests[|requests| - 1], server, client);
    Replies(requests[..|requests| - 1], server, client) + if last.Ok? then [last.value] else []
  }

  lemma ReplyFitsFrame(request: Payload, server: IP, client: IP)
    requires EchoReply(request, server, client).Ok?
    ensures ValidPayload(EchoReply(request, server, client).value)
  {
    ReplyMeaning(request, server, client);
  }

  lemma {:induction false} RepliesFitFrames(requests: seq<Payload>, server: IP, client: IP)
    ensures ValidPayloads(Replies(requests, server, client)) && |Replies(requests, server, client)| <= |requests|
  {
    if requests != [] {
      RepliesFitFrames(requests[..|requests| - 1], server, client);
      if EchoReply(requests[|requests| - 1], server, client).Ok? {
        ReplyFitsFrame(requests[|requests| - 1], server, client);
      }
    }
  }

  function EncodedReplies(requests: seq<Payload>, server: IP, client: IP): seq<byte> {
    RepliesFitFrames(requests, server, client);
    EncodeAll(Replies(requests, server, client))
  }

  lemma EncodedRepliesStep(requests: seq<Payload>, request: Payload, server: IP, client: IP)
    ensures var reply := EchoReply(request, server, client);
            && Replies(requests + [request], server, client)
               == Replies(requests, server, client) + (if reply.Ok? then [reply.value] else [])
            && (reply.Ok? ==> ValidPayload(reply.value))
            && EncodedReplies(requests + [request], server, client)
               == EncodedReplies(requests, server, client) + (if reply.Ok? then EncodeFrame(reply.value) else [])
  {
    hide EchoReply;
    var all := requests + [request];
    assert all[..|all| - 1] == requests;
    RepliesFitFrames(requests, server, client);
    var reply := EchoReply(request, server, client);
    if reply.Ok? {
      ReplyFitsFrame(request, server, client);
      EncodeAllAppend(Replies(requests, server, client), reply.value);
    } else {
      assert Replies(all, server, client) == Replies(requests, server, client);
      assert EncodedReplies(requests, server, client) + [] == EncodedReplies(requests, server, client);
    }
  }

  /** Counters after handling these requests without a write failure. */
  function Handled(before: Snapshot, requests: seq<Payload>, server: IP, client: IP): Snapshot {
    RepliesFitFrames(requests, server, client);
    var replies := Replies(requests, server, client);
    before.(rxPackets := before.rxPackets + |requests|, rxBytes := before.rxBytes + TotalLength(requests),
            txPackets := before.txPackets + |replies|, txBytes := before.txBytes + TotalLength(replies),
            drops := before.drops + (|requests| - |replies|))
  }

  /** Requests the server at this address does not answer. */
  function Unanswerable(requests: seq<Payload>, server: IPv4): nat {
    if requests == [] then 0
    else Unanswerable(requests[..|requests| - 1], server)
         + if Answerable(requests[|requests| - 1], server) then 0 else 1
  }

  /** Every request is answered or dropped, and dropped exactly if it is not answerable; the bytes sent are
      the lengths of the replies, a header each less than the bytes on the stream. */
  lemma HandledMeaning(before: Snapshot, requests: seq<Payload>, server: IP, client: IP)
    requires To4(server).Some? && To4(client).Some?
    ensures var after := Handled(before, requests, server, client);
            var unanswered := Unanswerable(requests, To4(server).value);
            && after.drops == before.drops + unanswered
            && after.txPackets + unanswered == before.txPackets + |requests|
            && after.rxPackets == before.rxPackets + |requests|
            && after.rxBytes == before.rxBytes + TotalLength(requests)
            && after.errors == before.errors
            && |EncodedReplies(requests, server, client)|
               == HEADER_SIZE * (after.txPackets - before.txPackets) + (after.txBytes - before.txBytes)
  {
    hide Replies, Unanswerable, TotalLength, EncodeAll;
    RepliesFitFrames(requests, server, client);
    FramedLength(Replies(requests, server, client));
    AnsweredExactly(requests, server, client);
  }

  lemma {:induction false} AnsweredExactly(requests: seq<Payload>, server: IP, client: IP)
    requires To4(server).Some? && To4(client).Some?
    ensures |Replies(requests, server, client)| + Unanswerable(requests, To4(server).value) == |requests|
  {
    hide EchoReply, Answerable;
    if requests != [] {
      AnsweredExactly(requests[..|requests| - 1], server, client);
      ReplyMeaning(requests[|requests| - 1], server, client);
    }
  }

  /** One stream took these bytes, the others none. */
  ghost predicate Wrote(before: Logs, after: Logs, stream: StreamId, bytes: seq<byte>) {
    && LogOf(after, stream) == LogOf(before, stream) + bytes
    && forall other | other != stream :: LogOf(after, other) == LogOf(before, other)
  }

  lemma WroteMore(before: Logs, middle: Logs, stream: StreamId,
                  bytes: seq<byte>, more: seq<byte>)
    requires Wrote(before, middle, stream, bytes)
    ensures Wrote(before, middle[stream := LogOf(middle, stream) + more], stream, bytes + more)
  {
    assert (LogOf(before, stream) + bytes) + more == LogOf(before, stream) + (bytes + more);
  }

  /** For any input byte stream: the frames are handled in order until the stream ends or a reply
      cannot be written; the output is the framed replies to exactly the answerable ones. */
  method HandleQUICStream(reader: Reader, w: Network, stream: StreamId, server: IP, client: IP, counters: Counters)
    returns (ghost handled: nat, ghost writeFailed: bool)
    modifies reader, w, counters
    ensures var (frames, end) := DecodeAll(old(reader.rest), reader.end);
            && handled <= |frames|
            && (!writeFailed ==>
                  && handled == |frames|
                  && Wrote(old(w.logs), w.logs, stream, EncodedReplies(frames, server, client))
                  && counters.stats == (var s := Handled(old(counters.stats), frames, server, client);
                                        if IsGracefulStreamEnd(end) then s else s.(errors := s.errors + 1)))
            && (writeFailed ==>
                  && handled < |frames|
                  && var reply := EchoReply(frames[handled], server, client);
                     && reply.Ok? && ValidPayload(reply.value)
                     && (exists k | 0 <= k < |EncodeFrame(reply.value)| ::
                           Wrote(old(w.logs), w.logs, stream,
                                 EncodedReplies(frames[..handled], server, client) + EncodeFrame(reply.value)[..k]))
                     && counters.stats == (var s := Handled(old(counters.stats), frames[..handled], server, client);
                                           s.(rxPackets := s.rxPackets + 1, rxBytes := s.rxBytes + |frames[handled]|,
                                              errors := s.errors + 1)))
  {
    hide EchoReply, Replies, EncodedReplies, TotalLength, EncodeFrame, DecodeFrame, DecodeAll, Handled, Wrote, LogOf;
    ghost var (frames, end) := DecodeAll(reader.rest, reader.end);
    ghost var logs, before := w.logs, counters.stats;
    handled, writeFailed := 0, false;
    NoneHandled(before, server, client, logs, stream);
    assert frames[..0] == [];
    while true
      invariant handled <= |frames|
      invariant DecodeAll(reader.rest, reader.end) == (frames[handled..], end)
      invariant Wrote(logs, w.logs, stream, EncodedReplies(frames[..handled], server, client))
      invariant counters.stats == Handled(before, frames[..handled], server, client)
      decreases |frames| - handled
    {
      DecodeStep(reader.rest, reader.end, frames, handled, end);
      var request := ReadFrame(reader);
      if request.Err? {
        if !IsGracefulStreamEnd(request.error) {
          counters.AddError();
        }
        return;
      }
      EncodedRepliesStep(frames[..handled], request.value, server, client);
      HandledStep(before, frames[..handled], request.value, server, client);
      counters.AddRX(|request.value|);
      var reply := BuildICMPEchoReply(request.value, server, client);
      if reply.Err? {
        counters.AddDrop();
        ghost var replied := EncodedReplies(frames[..handled], server, client);
        assert replied + [] == replied;
        handled := handled + 1;
        continue;
      }
      ghost var middle, replied := w.logs, EncodedReplies(frames[..handled], server, client);
      var written;
      ghost var taken;
      written, taken := WriteFrame(w, stream, reply.value);
      WroteMore(logs, middle, stream, replied, EncodeFrame(reply.value)[..taken]);
      if written.Err? {
        counters.AddError();
        writeFailed := true;
        return;
      }
      counters.AddTX(|reply.value|);
      assert EncodeFrame(reply.value)[..taken] == EncodeFrame(reply.value);
      handled := handled + 1;
    }
  }

  lemma NoneHandled(before: Snapshot, server: IP, client: IP, logs: Logs, stream: StreamId)
    ensures Handled(before, [], server, client) == before
    ensures EncodedReplies([], server, client) == [] && Wrote(logs, logs, stream, [])
  {
  }

  lemma HandledStep(before: Snapshot, requests: seq<Payload>, request: Payload, server: IP, client: IP)
    ensures var s, reply := Handled(before, requests, server, client), EchoReply(request, server, client);
            Handled(before, requests + [request], server, client) ==
            var t := s.(rxPackets := s.rxPackets + 1, rxBytes := s.rxBytes + |request|);
            if reply.Ok? then t.(txPackets := t.txPackets + 1, txBytes := t.txBytes + |reply.value|)
            else t.(drops := t.drops + 1)
  {
    hide EchoReply;
    var all := requests + [request];
    assert all[..|all| - 1] == requests;
    RepliesFitFrames(requests, server, client);
    RepliesFitFrames(all, server, client);
    var replies, reply := Replies(requests, server, client), EchoReply(request, server, client);
    if reply.Ok? {
      assert (replies + [reply.value])[..|replies|] == replies;
    } else {
      assert replies + [] == replies;
    }
  }

  // ---- A whole conversation ----

  datatype Ping = Ping(identifier: uint16, sequence: uint16, payload: seq<byte>)

  predicate Accepted(reply: seq<byte>, server: IP, client: IP, ping: Ping) {
    ValidateEchoReply(reply, server, client, ping.identifier, ping.sequence, ping.payload) == None
  }

  predicate Small(pings: seq<Ping>) {
    forall i | 0 <= i < |pings| :: |pings[i].payload| <= 65507
  }

  function Requests(pings: seq<Ping>, server: IP, client: IP): (r: seq<Payload>)
    requires To4(server).Some? && To4(client).Some? && Small(pings)
    ensures |r| == |pings|
  {
    if pings == [] then [] else
    var last := pings[|pings| - 1];
    RequestMeaning(client, server, last.identifier, last.sequence, last.payload);
    Requests(pings[..|pings| - 1], server, client)
    + [EchoRequest(client, server, last.identifier, last.sequence, last.payload).value]
  }

  /** Any number of pings framed onto one stream arrive as those frames, and the framed replies read
      back as one reply per ping, in order, each accepted for its own ping. */
  lemma Conversation(pings: seq<Ping>, server: IP, client: IP)
    requires To4(server).Some? && To4(client).Some? && Small(pings)
    ensures var requests := Requests(pings, server, client);
            var replies := Replies(requests, server, client);
            && ValidPayloads(requests)
            && DecodeAll(EncodeAll(requests), Finished) == (requests, EOF)
            && DecodeAll(EncodedReplies(requests, server, client), Finished) == (replies, EOF)
            && |replies| == |pings|
            && forall i | 0 <= i < |pings| ::
                 Accepted(replies[i], server, client, pings[i])
  {
    hide EchoReply, EchoRequest, ValidateEchoReply, EncodeAll, DecodeAll;
    var requests := Requests(pings, server, client);
    EachAnswered(pings, server, client);
    RepliesFitFrames(requests, server, client);
    StreamRoundTrip(requests);
    StreamRoundTrip(Replies(requests, server, client));
  }

  lemma {:induction false} EachAnswered(pings: seq<Ping>, server: IP, client: IP)
    requires To4(server).Some? && To4(client).Some? && Small(pings)
    ensures var requests := Requests(pings, server, client);
            var replies := Replies(requests, server, client);
            && ValidPayloads(requests)
            && |replies| == |pings|
            && forall i | 0 <= i < |pings| ::
                 Accepted(replies[i], server, client, pings[i])
  {
    hide EchoReply, EchoRequest, ValidateEchoReply;
    if pings != [] {
      var front, last := pings[..|pings| - 1], pings[|pings| - 1];
      EachAnswered(front, server, client);
      RequestMeaning(client, server, last.identifier, last.sequence, last.payload);
      RoundTrip(server, client, last.identifier, last.sequence, last.payload);
      var requests := Requests(pings, server, client);
      assert requests[..|requests| - 1] == Requests(front, server, client);
    }
  }
}
