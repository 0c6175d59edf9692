/** Length-prefixed frames (internal/quictransport/framing.go): the codec as functions on byte
    strings, and WriteFrame/ReadFrame as the two-step writer and reader that implement it. */
module Framing {
  import opened Bytes

  const MAX_FRAME_SIZE: nat := 65535
  const HEADER_SIZE: nat := 4

  type Payload = seq<byte>
  type StreamId = int

  predicate ValidPayload(payload: Payload) {
    0 < |payload| <= MAX_FRAME_SIZE
  }

  predicate ValidPayloads(payloads: seq<Payload>) {
    forall i | 0 <= i < |payloads| :: ValidPayload(payloads[i])
  }

  function TotalLength(packets: seq<Payload>): nat {
    if packets == [] then 0 else TotalLength(packets[..|packets| - 1]) + |packets[|packets| - 1]|
  }

  // ---- Writing ----

  function EncodeFrame(payload: Payload): (s: seq<byte>)
    requires ValidPayload(payload)
    ensures |s| == HEADER_SIZE + |payload|
  {
    PutUint32(|payload|) + payload
  }

  function EncodeAll(payloads: seq<Payload>): seq<byte>
    requires ValidPayloads(payloads)
  {
    if payloads == [] then [] else EncodeFrame(payloads[0]) + EncodeAll(payloads[1..])
  }

  // ---- Reading ----

  /** How a stream breaks: QUIC application error code 0, os.ErrClosed, or anything else. */
  datatype Break = Graceful | ClosedHere | Broken

  /** What a stream reports once its bytes run out: the peer finished, or the transport failed. */
  datatype StreamEnd = Finished | Aborted(how: Break)

  datatype ReadError =
    | EOF
    | UnexpectedEOF
    | TransportError(how: Break)
    | EmptyFrame
    | FrameTooLarge(length: nat)

  predicate IsGracefulStreamEnd(e: ReadError) {
    e == EOF || e == TransportError(Graceful)
  }

  /** io.ReadFull's error after `got` bytes of a longer request. */
  function ShortRead(got: nat, end: StreamEnd): ReadError {
    match end
    case Finished => if got == 0 then EOF else UnexpectedEOF
    case Aborted(how) => TransportError(how)
  }

  datatype Decoded = Frame(payload: Payload, rest: seq<byte>) | Bad(error: ReadError)

  function DecodeFrame(s: seq<byte>, end: StreamEnd): Decoded {
    if |s| < HEADER_SIZE then Bad(ShortRead(|s|, end)) else
    var length := Uint32(s[..HEADER_SIZE]);
    if length == 0 then Bad(EmptyFrame) else
    if length > MAX_FRAME_SIZE then Bad(FrameTooLarge(length)) else
    if |s| - HEADER_SIZE < length then Bad(ShortRead(|s| - HEADER_SIZE, end)) else
    Frame(s[HEADER_SIZE..HEADER_SIZE + length], s[HEADER_SIZE + length..])
  }

  /** Everything repeated reading delivers, and the error it ends with. */
  function DecodeAll(s: seq<byte>, end: StreamEnd): (r: (seq<Payload>, ReadError))
    ensures ValidPayloads(r.0)
    decreases |s|
  {
    match DecodeFrame(s, end)
    case Bad(e) => ([], e)
    case Frame(payload, rest) => ([payload] + DecodeAll(rest, end).0, DecodeAll(rest, end).1)
  }

  // ---- The code is a bijection between frames and their encodings, and prefix-free ----

  lemma DecodeEncoded(payload: Payload, rest: seq<byte>, end: StreamEnd)
    requires ValidPayload(payload)
    ensures DecodeFrame(EncodeFrame(payload) + rest, end) == Frame(payload, rest)
  {
    var s := EncodeFrame(payload) + rest;
    assert s[..HEADER_SIZE] == PutUint32(|payload|);
    assert s[HEADER_SIZE..HEADER_SIZE + |payload|] == payload;
    assert s[HEADER_SIZE + |payload|..] == rest;
  }

  lemma DecodedIsEncoding(s: seq<byte>, end: StreamEnd)
    requires DecodeFrame(s, end).Frame?
    ensures var frame := DecodeFrame(s, end);
            ValidPayload(frame.payload) && s == EncodeFrame(frame.payload) + frame.rest
  {
    hide PutUint32, Uint32;
    var frame := DecodeFrame(s, end);
    var header, cut := s[..HEADER_SIZE], HEADER_SIZE + |frame.payload|;
    Uint32Injective(header);
    assert header == PutUint32(|frame.payload|);
    assert frame.payload == s[HEADER_SIZE..cut] && frame.rest == s[cut..];
    assert s == header + s[HEADER_SIZE..cut] + s[cut..];
  }

  /** ReadFrame succeeds on exactly what WriteFrame produces. */
  lemma DecodesExactlyEncodings(s: seq<byte>, end: StreamEnd, payload: Payload, rest: seq<byte>)
    ensures DecodeFrame(s, end) == Frame(payload, rest)
            <==> ValidPayload(payload) && s == EncodeFrame(payload) + rest
  {
    if ValidPayload(payload) && s == EncodeFrame(payload) + rest {
      DecodeEncoded(payload, rest, end);
    } else if DecodeFrame(s, end).Frame? {
      DecodedIsEncoding(s, end);
    }
  }

  lemma {:induction false} DecodeAllEncoded(payloads: seq<Payload>, tail: seq<byte>, end: StreamEnd)
    requires ValidPayloads(payloads)
    ensures DecodeAll(EncodeAll(payloads) + tail, end)
            == (payloads + DecodeAll(tail, end).0, DecodeAll(tail, end).1)
  {
    hide EncodeFrame, DecodeFrame;
    if payloads == [] {
      assert EncodeAll(payloads) + tail == tail;
      assert payloads + DecodeAll(tail, end).0 == DecodeAll(tail, end).0;
    } else {
      var first, others := payloads[0], payloads[1..];
      var more := EncodeAll(others) + tail;
      assert EncodeAll(payloads) + tail == EncodeFrame(first) + more;
      DecodeEncoded(first, more, end);
      DecodeAllEncoded(others, tail, end);
      assert payloads + DecodeAll(tail, end).0 == [first] + (others + DecodeAll(tail, end).0);
    }
  }

  /** The stream reads back whole, and ends with a plain end of file. */
  lemma StreamRoundTrip(payloads: seq<Payload>)
    requires ValidPayloads(payloads)
    ensures DecodeAll(EncodeAll(payloads), Finished) == (payloads, EOF)
  {
    DecodeAllEncoded(payloads, [], Finished);
    assert EncodeAll(payloads) + [] == EncodeAll(payloads);
    assert payloads + [] == payloads;
  }

  lemma EncodeAllInjective(a: seq<Payload>, b: seq<Payload>)
    requires ValidPayloads(a) && ValidPayloads(b) && EncodeAll(a) == EncodeAll(b)
    ensures a == b
  {
    StreamRoundTrip(a);
    StreamRoundTrip(b);
  }

  lemma PrefixFree(a: Payload, b: Payload)
    requires ValidPayload(a) && ValidPayload(b) && EncodeFrame(a) <= EncodeFrame(b)
    ensures a == b
  {
    hide EncodeFrame, DecodeFrame;
    var rest := EncodeFrame(b)[|EncodeFrame(a)|..];
    assert EncodeFrame(b) == EncodeFrame(a) + rest;
    assert EncodeFrame(b) == EncodeFrame(b) + [];
    DecodeEncoded(a, rest, Finished);
    DecodeEncoded(b, [], Finished);
  }

  lemma {:induction false} EncodeAllSplit(a: seq<Payload>, b: seq<Payload>)
    requires ValidPayloads(a) && ValidPayloads(b)
    ensures ValidPayloads(a + b) && EncodeAll(a + b) == EncodeAll(a) + EncodeAll(b)
  {
    hide EncodeFrame;
    if a == [] {
      assert a + b == b;
    } else {
      assert (a + b)[1..] == a[1..] + b;
      EncodeAllSplit(a[1..], b);
    }
  }

  lemma EncodeAllAppend(payloads: seq<Payload>, last: Payload)
    requires ValidPayloads(payloads) && ValidPayload(last)
    ensures EncodeAll(payloads + [last]) == EncodeAll(payloads) + EncodeFrame(last)
  {
    EncodeAllSplit(payloads, [last]);
    assert EncodeAll([last]) == EncodeFrame(last) + [] == EncodeFrame(last);
  }

  /** A header per frame, and all the payloads. */
  lemma {:induction false} FramedLength(payloads: seq<Payload>)
    requires ValidPayloads(payloads)
    ensures |EncodeAll(payloads)| == HEADER_SIZE * |payloads| + TotalLength(payloads)
  {
    hide EncodeFrame, EncodeAll;
    if payloads == [] {
      NothingFramed();
    } else {
      var front, last := payloads[..|payloads| - 1], payloads[|payloads| - 1];
      FramedLength(front);
      assert payloads == front + [last];
      EncodeAllAppend(front, last);
    }
  }

  lemma NothingFramed()
    ensures EncodeAll([]) == []
  {
  }

  /** One more frame of a stream that holds these. */
  lemma DecodeStep(s: seq<byte>, end: StreamEnd, frames: seq<Payload>, done: nat, error: ReadError)
    requires done <= |frames| && DecodeAll(s, end) == (frames[done..], error)
    ensures match DecodeFrame(s, end)
            case Bad(e) => e == error && done == |frames| && frames[..done] == frames
            case Frame(payload, rest) =>
              && done < |frames| && payload == frames[done]
              && DecodeAll(rest, end) == (frames[done + 1..], error)
              && frames[..done + 1] == frames[..done] + [payload]
  {
    hide DecodeFrame;
    match DecodeFrame(s, end)
    case Bad(_) =>
    case Frame(payload, rest) =>
      assert frames[done..][1..] == frames[done + 1..];
  }

  // ---- Truncation ----

  /** How many of the frames lie completely within the first n bytes of their encoding. */
  function WholeFrames(payloads: seq<Payload>, n: nat): (k: nat)
    requires ValidPayloads(payloads)
    ensures k <= |payloads|
  {
    if payloads == [] || n < HEADER_SIZE + |payloads[0]| then 0
    else 1 + WholeFrames(payloads[1..], n - HEADER_SIZE - |payloads[0]|)
  }

  /** The k above, pinned down by lengths: the cut falls at or after the end of frame k and, unless
      all frames are there, before the end of the next. */
  lemma {:induction false} WholeFramesBounds(payloads: seq<Payload>, n: nat)
    requires ValidPayloads(payloads) && n <= |EncodeAll(payloads)|
    ensures var k := WholeFrames(payloads, n);
            && |EncodeAll(payloads[..k])| <= n
            && (k < |payloads| ==> n < |EncodeAll(payloads[..k])| + HEADER_SIZE + |payloads[k]|)
  {
    var k := WholeFrames(payloads, n);
    if k > 0 {
      WholeFramesBounds(payloads[1..], n - HEADER_SIZE - |payloads[0]|);
      assert payloads[..k][1..] == payloads[1..][..k - 1];
    }
  }

  lemma TornFrame(payload: Payload, k: nat, end: StreamEnd)
    requires ValidPayload(payload) && k < HEADER_SIZE + |payload|
    ensures DecodeFrame(EncodeFrame(payload)[..k], end)
            == Bad(ShortRead(if k < HEADER_SIZE then k else k - HEADER_SIZE, end))
  {
    var s := EncodeFrame(payload)[..k];
    if k >= HEADER_SIZE {
      assert s[..HEADER_SIZE] == PutUint32(|payload|);
    }
  }

  lemma NothingLeft(end: StreamEnd)
    ensures DecodeFrame([], end) == Bad(ShortRead(0, end))
  {
  }

  /** Cutting a stream of frames anywhere yields exactly the whole frames before the cut; the error
      is a plain EOF only at a frame boundary or just after a complete header. */
  lemma {:induction false} Truncation(payloads: seq<Payload>, n: nat)
    requires ValidPayloads(payloads) && n <= |EncodeAll(payloads)|
    ensures var k := WholeFrames(payloads, n);
            var got := DecodeAll(EncodeAll(payloads)[..n], Finished);
            && got.0 == payloads[..k]
            && |EncodeAll(payloads[..k])| <= n
            && (k < |payloads| ==> n < |EncodeAll(payloads[..k])| + HEADER_SIZE + |payloads[k]|)
            && got.1 == (if n - |EncodeAll(payloads[..k])| in {0, HEADER_SIZE} then EOF else UnexpectedEOF)
  {
    hide EncodeFrame, DecodeFrame, WholeFrames;
    WholeFramesBounds(payloads, n);
    var k := WholeFrames(payloads, n);
    var whole := EncodeAll(payloads[..k]);
    assert payloads == payloads[..k] + payloads[k..];
    EncodeAllSplit(payloads[..k], payloads[k..]);
    var tail := EncodeAll(payloads[k..])[..n - |whole|];
    assert EncodeAll(payloads)[..n] == whole + tail;
    DecodeAllEncoded(payloads[..k], tail, Finished);
    if k < |payloads| {
      assert tail == EncodeFrame(payloads[k])[..n - |whole|];
      TornFrame(payloads[k], n - |whole|, Finished);
    } else {
      assert tail == [];
      NothingLeft(Finished);
    }
    assert payloads[..k] + [] == payloads[..k];
  }

  // ---- The methods ----

  datatype WriteError = EmptyPayload | PayloadTooLarge | WriteFailed

  /** Whether a cut stream of frames ends gracefully: when the peer finished, exactly if the cut is at a
      frame boundary or just after a header; when the stream broke, exactly for application error code 0. */
  lemma CutGracefully(payloads: seq<Payload>, n: nat, how: Break)
    requires ValidPayloads(payloads) && n <= |EncodeAll(payloads)|
    ensures var whole := |EncodeAll(payloads[..WholeFrames(payloads, n)])|;
            IsGracefulStreamEnd(DecodeAll(EncodeAll(payloads)[..n], Finished).1) <==> n - whole in {0, HEADER_SIZE}
    ensures IsGracefulStreamEnd(DecodeAll(EncodeAll(payloads)[..n], Aborted(how)).1) <==> how == Graceful
    ensures DecodeAll(EncodeAll(payloads)[..n], Aborted(how)).1 == TransportError(how)
  {
    hide EncodeAll, EncodeFrame, DecodeAll;
    Truncation(payloads, n);
    CutBroken(payloads, n, how);
  }

  lemma {:induction false} CutBroken(payloads: seq<Payload>, n: nat, how: Break)
    requires ValidPayloads(payloads) && n <= |EncodeAll(payloads)|
    ensures DecodeAll(EncodeAll(payloads)[..n], Aborted(how)).1 == TransportError(how)
  {
    hide EncodeFrame, DecodeFrame, WholeFrames;
    WholeFramesBounds(payloads, n);
    var k := WholeFrames(payloads, n);
    var whole := EncodeAll(payloads[..k]);
    assert payloads == payloads[..k] + payloads[k..];
    EncodeAllSplit(payloads[..k], payloads[k..]);
    var tail := EncodeAll(payloads[k..])[..n - |whole|];
    assert EncodeAll(payloads)[..n] == whole + tail;
    DecodeAllEncoded(payloads[..k], tail, Aborted(how));
    if k < |payloads| {
      assert tail == EncodeFrame(payloads[k])[..n - |whole|];
      TornFrame(payloads[k], n - |whole|, Aborted(how));
    } else {
      assert tail == [];
      NothingLeft(Aborted(how));
    }
  }

  /** Frames that are not well-formed never end a stream gracefully. */
  lemma BadLength(s: seq<byte>, end: StreamEnd)
    requires |s| >= HEADER_SIZE && !(0 < Uint32(s[..HEADER_SIZE]) <= MAX_FRAME_SIZE)
    ensures DecodeAll(s, end).0 == [] && !IsGracefulStreamEnd(DecodeAll(s, end).1)
  {
  }

  /** The bytes each stream has accepted. */
  type Logs = map<StreamId, seq<byte>>

  /** What a stream has accepted so far. */
  function LogOf(logs: Logs, stream: StreamId): seq<byte> {
    if stream in logs then logs[stream] else []
  }

  lemma LogOfUpdated(logs: Logs, target: StreamId, more: seq<byte>)
    ensures forall stream :: LogOf(logs[target := LogOf(logs, target) + more], stream)
                             == LogOf(logs, stream) + if stream == target then more else []
  {
  }

  /** The sending sides of all streams. A Write accepts everything, or fails after a part that leaves its
      frame incomplete: all of its data at most when `more` of the frame was to follow. */
  class Network {
    var logs: Logs
    var closed: seq<StreamId>  // streams closed, in order

    constructor ()
      ensures logs == map[] && closed == []
    {
      logs := map[];
      closed := [];
    }

    method Close(stream: StreamId)
      modifies this`closed
      ensures logs == old(logs) && closed == old(closed) + [stream]
    {
      closed := closed + [stream];
    }

    ghost function Log(stream: StreamId): seq<byte>
      reads this
    {
      LogOf(logs, stream)
    }

    method Write(stream: StreamId, data: seq<byte>, more: bool) returns (ok: bool, ghost taken: nat)
      requires data != []
      modifies this`logs
      ensures taken <= |data| && (ok ==> taken == |data|) && (!ok && !more ==> taken < |data|)
      ensures logs == old(logs[stream := Log(stream) + data[..taken]])
    {
      ok := *;
      var accepted := |data|;
      if !ok {
        accepted := *;
        accepted := if 0 <= accepted < |data| || (more && accepted == |data|) then accepted else 0;
      }
      taken := accepted;
      logs := logs[stream := LogOf(logs, stream) + data[..accepted]];
    }
  }

  method WriteFrame(w: Network, stream: StreamId, payload: Payload)
    returns (r: Result<(), WriteError>, ghost taken: nat)
    modifies w`logs
    ensures payload == [] ==> r == Err(EmptyPayload)
    ensures |payload| > MAX_FRAME_SIZE ==> r == Err(PayloadTooLarge)
    ensures !ValidPayload(payload) ==> w.logs == old(w.logs)
    ensures ValidPayload(payload) ==>
              && (r == Ok(()) || r == Err(WriteFailed))
              && (r.Ok? ==> taken == |EncodeFrame(payload)|)
              && (r.Err? ==> taken < |EncodeFrame(payload)|)
              && w.logs == old(w.logs[stream := w.Log(stream) + EncodeFrame(payload)[..taken]])
  {
    taken := 0;
    if |payload| == 0 {
      return Err(EmptyPayload), 0;
    }
    if |payload| > MAX_FRAME_SIZE {
      return Err(PayloadTooLarge), 0;
    }
    r, taken := WriteParts(w, stream, PutUint32(|payload|), payload);
  }

  /** The header in one Write, then the payload in another. */
  method WriteParts(w: Network, stream: StreamId, header: seq<byte>, payload: Payload)
    returns (r: Result<(), WriteError>, ghost taken: nat)
    requires header != [] && payload != []
    modifies w`logs
    ensures r == Ok(()) || r == Err(WriteFailed)
    ensures if r.Ok? then taken == |header + payload| else taken < |header + payload|
    ensures w.logs == old(w.logs[stream := w.Log(stream) + (header + payload)[..taken]])
  {
    ghost var logs, before := w.logs, w.Log(stream);
    var ok;
    ok, taken := w.Write(stream, header, true);
    TwoWrites(before, header, payload, taken);
    if !ok {
      return Err(WriteFailed), taken;
    }
    ghost var more;
    ok, more := w.Write(stream, payload, false);
    taken := |header| + more;
    TwoWrites(before, header, payload, taken);
    assert w.logs == logs[stream := before + header][stream := (before + header) + payload[..more]];
    assert w.logs == logs[stream := before + (header + payload)[..taken]];
    r := if ok then Ok(()) else Err(WriteFailed);
  }

  /** Two writes of consecutive parts accept a prefix of the whole. */
  lemma TwoWrites(before: seq<byte>, first: seq<byte>, second: seq<byte>, taken: nat)
    requires taken <= |first| + |second|
    ensures before + (first + second)[..taken] ==
            if taken < |first| then before + first[..taken] else (before + first) + second[..taken - |first|]
    ensures first[..|first|] == first
  {
    if taken < |first| {
      assert (first + second)[..taken] == first[..taken];
    } else {
      assert (first + second)[..taken] == first + second[..taken - |first|];
    }
  }

  /** The receiving side of one stream: the bytes still to come, then how it ends. */
  class Reader {
    var rest: seq<byte>
    const end: StreamEnd

    constructor (bytes: seq<byte>, end: StreamEnd)
      ensures rest == bytes && this.end == end
    {
      rest := bytes;
      this.end := end;
    }

    /** io.ReadFull */
    method ReadFull(n: nat) returns (r: Result<seq<byte>, ReadError>)
      requires n > 0
      modifies this
      ensures |old(rest)| >= n ==> r == Ok(old(rest)[..n]) && rest == old(rest)[n..]
      ensures |old(rest)| < n ==> r == Err(ShortRead(|old(rest)|, end)) && rest == []
    {
      if |rest| >= n {
        r := Ok(rest[..n]);
        rest := rest[n..];
      } else {
        r := Err(ShortRead(|rest|, end));
        rest := [];
      }
    }
  }

  method ReadFrame(reader: Reader) returns (r: Result<Payload, ReadError>)
    modifies reader
    ensures match DecodeFrame(old(reader.rest), reader.end)
            case Frame(payload, rest) => r == Ok(payload) && reader.rest == rest
            case Bad(e) =>
              && r == Err(e)
              && reader.rest == if e.EmptyFrame? || e.FrameTooLarge? then old(reader.rest)[HEADER_SIZE..] else []
  {
    var header := reader.ReadFull(HEADER_SIZE);
    if header.Err? {
      return Err(header.error);
    }
    var length := Uint32(header.value);
    if length == 0 {
      return Err(EmptyFrame);
    }
    if length > MAX_FRAME_SIZE {
      return Err(FrameTooLarge(length));
    }
    ghost var bytes := old(reader.rest);
    assert bytes[HEADER_SIZE..][..] == bytes[HEADER_SIZE..];
    r := reader.ReadFull(length);
    if r.Ok? {
      assert bytes[HEADER_SIZE..][..length] == bytes[HEADER_SIZE..HEADER_SIZE + length];
      assert bytes[HEADER_SIZE..][length..] == bytes[HEADER_SIZE + length..];
    }
  }
}
